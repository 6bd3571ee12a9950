/** Base 64 as section 4 of RFC 4648 defines it. `Decode` is Python's `base64.b64decode`
  * without validation: characters outside the alphabet are skipped, and a completed
  * padding ends the input.
  */
module Base64 {
  import opened Numbers
  import opened Wrappers

  function Digit(v: int): char
    requires 0 <= v < 64
  {
    if v < 26 then (v + 65) as char
    else if v < 52 then (v + 71) as char
    else if v < 62 then (v - 4) as char
    else if v == 62 then '+'
    else '/'
  }

  function Value(c: char): (v: Option<int>)
    ensures v.Some? ==> 0 <= v.value < 64
  {
    var n := c as int;
    if 'A' <= c <= 'Z' then Some(n - 65)
    else if 'a' <= c <= 'z' then Some(n - 71)
    else if '0' <= c <= '9' then Some(n + 4)
    else if c == '+' then Some(62)
    else if c == '/' then Some(63)
    else None
  }

  function Encode(b: seq<byte>): string {
    if b == [] then ""
    else
      var x: int := b[0];
      if |b| == 1 then [Digit(x / 4), Digit(x % 4 * 16), '=', '=']
      else
        var y: int := b[1];
        if |b| == 2 then [Digit(x / 4), Digit(x % 4 * 16 + y / 16), Digit(y % 16 * 4), '=']
        else
          var z: int := b[2];
          [Digit(x / 4), Digit(x % 4 * 16 + y / 16), Digit(y % 16 * 4 + z / 64), Digit(z % 64)]
          + Encode(b[3..])
  }

  function Emit(b: int, rest: Option<seq<byte>>): Option<seq<byte>>
    requires 0 <= b < 256
  {
    match rest
    case None => None
    case Some(bytes) => Some([b as byte] + bytes)
  }

  /** The bits left over after `quad` digits of the current group of four. */
  predicate Leftover(quad: nat, left: int) {
    match quad
    case 0 => left == 0
    case 1 => 0 <= left < 64
    case 2 => 0 <= left < 16
    case 3 => 0 <= left < 4
    case _ => false
  }

  function Scan(t: string, quad: nat, left: int, pads: nat): Option<seq<byte>>
    requires Leftover(quad, left)
    decreases |t|
  {
    if t == "" then if quad == 0 then Some([]) else None
    else if t[0] == '=' then
      if quad < 2 then Scan(t[1..], quad, left, pads)
      else if quad + pads + 1 >= 4 then Some([])
      else Scan(t[1..], quad, left, pads + 1)
    else
      match Value(t[0])
      case None => Scan(t[1..], quad, left, pads)
      case Some(v) =>
        match quad
        case 0 => Scan(t[1..], 1, v, 0)
        case 1 => Emit(left * 4 + v / 16, Scan(t[1..], 2, v % 16, 0))
        case 2 => Emit(left * 16 + v / 4, Scan(t[1..], 3, v % 4, 0))
        case _ => Emit(left * 64 + v, Scan(t[1..], 0, 0, 0))
  }

  predicate Ascii(t: string) {
    forall i :: 0 <= i < |t| ==> t[i] < 128 as char
  }

  /** `None` stands for the `ValueError` of a text that is not ASCII or is cut short. */
  function Decode(t: string): Option<seq<byte>> {
    if Ascii(t) then Scan(t, 0, 0, 0) else None
  }

  lemma DigitValue(v: int)
    requires 0 <= v < 64
    ensures Value(Digit(v)) == Some(v)
    ensures Digit(v) != '=' && Digit(v) < 128 as char
  {
  }

  // One digit at a time.

  lemma ScanFirst(v: int, rest: string)
    requires 0 <= v < 64
    ensures Scan([Digit(v)] + rest, 0, 0, 0) == Scan(rest, 1, v, 0)
  {
    DigitValue(v);
    hide Digit, Value;
    assert ([Digit(v)] + rest)[1..] == rest;
  }

  lemma ScanSecond(left: int, v: int, rest: string)
    requires 0 <= left < 64 && 0 <= v < 64
    ensures Scan([Digit(v)] + rest, 1, left, 0) == Emit(left * 4 + v / 16, Scan(rest, 2, v % 16, 0))
  {
    DigitValue(v);
    hide Digit, Value, Emit;
    assert ([Digit(v)] + rest)[1..] == rest;
  }

  lemma ScanThird(left: int, v: int, rest: string)
    requires 0 <= left < 16 && 0 <= v < 64
    ensures Scan([Digit(v)] + rest, 2, left, 0) == Emit(left * 16 + v / 4, Scan(rest, 3, v % 4, 0))
  {
    DigitValue(v);
    hide Digit, Value, Emit;
    assert ([Digit(v)] + rest)[1..] == rest;
  }

  lemma ScanFourth(left: int, v: int, rest: string)
    requires 0 <= left < 4 && 0 <= v < 64
    ensures Scan([Digit(v)] + rest, 3, left, 0) == Emit(left * 64 + v, Scan(rest, 0, 0, 0))
  {
    DigitValue(v);
    hide Digit, Value, Emit;
    assert ([Digit(v)] + rest)[1..] == rest;
  }

  /** Three bytes and their four digits. */
  lemma SixBits(x: byte, y: byte, z: byte)
    ensures
      var a, b, c, d := x / 4, x % 4 * 16 + y / 16, y % 16 * 4 + z / 64, z % 64;
      && 0 <= a < 64 && 0 <= b < 64 && 0 <= c < 64 && 0 <= d < 64
      && a * 4 + b / 16 == x && b % 16 * 16 + c / 4 == y && c % 4 * 64 + d == z
  {
    var b, c := x % 4 * 16 + y / 16, y % 16 * 4 + z / 64;
    assert b / 16 == x % 4 && b % 16 == y / 16;
    assert c / 4 == y % 16 && c % 4 == z / 64;
  }

  lemma ScanFour(a: int, b: int, c: int, d: int, rest: string)
    requires 0 <= a < 64 && 0 <= b < 64 && 0 <= c < 64 && 0 <= d < 64
    ensures Scan([Digit(a), Digit(b), Digit(c), Digit(d)] + rest, 0, 0, 0)
            == Emit(a * 4 + b / 16, Emit(b % 16 * 16 + c / 4, Emit(c % 4 * 64 + d, Scan(rest, 0, 0, 0))))
  {
    hide Scan, Digit, Emit;
    var t3 := [Digit(d)] + rest;
    var t2 := [Digit(c)] + t3;
    var t1 := [Digit(b)] + t2;
    assert [Digit(a), Digit(b), Digit(c), Digit(d)] + rest == [Digit(a)] + t1;
    ScanFirst(a, t1);
    ScanSecond(a, b, t2);
    ScanThird(b % 16, c, t3);
    ScanFourth(c % 4, d, rest);
  }

  /** Three bytes are read back from their four digits, whatever follows. */
  lemma ScanGroup(x: byte, y: byte, z: byte, rest: string)
    ensures
      var a, b, c, d := x / 4, x % 4 * 16 + y / 16, y % 16 * 4 + z / 64, z % 64;
      Scan([Digit(a), Digit(b), Digit(c), Digit(d)] + rest, 0, 0, 0)
      == Emit(x, Emit(y, Emit(z, Scan(rest, 0, 0, 0))))
  {
    hide Scan, Digit, Emit;
    SixBits(x, y, z);
    ScanFour(x / 4, x % 4 * 16 + y / 16, y % 16 * 4 + z / 64, z % 64, rest);
  }

  /** Padding ends the text. */
  lemma ScanPads()
    ensures Scan("==", 2, 0, 0) == Some([]) && Scan("=", 3, 0, 0) == Some([])
  {
    assert "=="[1..] == "=";
  }

  lemma ScanOneByte(x: byte)
    ensures Scan([Digit(x / 4), Digit(x % 4 * 16), '=', '='], 0, 0, 0) == Some([x])
  {
    SixBits(x, 0, 0);
    var a, b := x / 4, x % 4 * 16;
    hide Scan, Digit;
    assert [Digit(a), Digit(b), '=', '='] == [Digit(a)] + ([Digit(b)] + "==");
    ScanFirst(a, [Digit(b)] + "==");
    ScanSecond(a, b, "==");
    ScanPads();
    assert [x] + [] == [x];
  }

  lemma ScanTwoBytes(x: byte, y: byte)
    ensures Scan([Digit(x / 4), Digit(x % 4 * 16 + y / 16), Digit(y % 16 * 4), '='], 0, 0, 0) == Some([x, y])
  {
    SixBits(x, y, 0);
    var a, b, c := x / 4, x % 4 * 16 + y / 16, y % 16 * 4;
    hide Scan, Digit;
    var t2 := [Digit(c)] + "=";
    var t1 := [Digit(b)] + t2;
    assert [Digit(a), Digit(b), Digit(c), '='] == [Digit(a)] + t1;
    ScanFirst(a, t1);
    ScanSecond(a, b, t2);
    ScanThird(b % 16, c, "=");
    ScanPads();
    assert [x] + ([y] + []) == [x, y];
  }

  lemma {:induction false} ScanRoundTrip(b: seq<byte>)
    ensures Scan(Encode(b), 0, 0, 0) == Some(b)
    decreases |b|
  {
    hide Digit, Value;
    if |b| == 1 {
      ScanOneByte(b[0]);
      assert b == [b[0]];
    } else if |b| == 2 {
      ScanTwoBytes(b[0], b[1]);
      assert b == [b[0], b[1]];
    } else if |b| >= 3 {
      ScanRoundTrip(b[3..]);
      ScanGroup(b[0], b[1], b[2], Encode(b[3..]));
      assert b == [b[0]] + ([b[1]] + ([b[2]] + b[3..]));
    }
  }

  lemma {:induction false} EncodeIsAscii(b: seq<byte>)
    ensures Ascii(Encode(b))
  {
    if |b| >= 3 {
      EncodeIsAscii(b[3..]);
    }
  }

  lemma RoundTrip(b: seq<byte>)
    ensures Decode(Encode(b)) == Some(b)
  {
    EncodeIsAscii(b);
    ScanRoundTrip(b);
  }

  /** The test vectors of section 10 of RFC 4648. */
  lemma KnownAnswers()
    ensures Encode([0x66]) == "Zg==" && Encode([0x66, 0x6F]) == "Zm8="
    ensures Encode([0x66, 0x6F, 0x6F, 0x62, 0x61, 0x72]) == "Zm9vYmFy"
  {
    var foobar: seq<byte> := [0x66, 0x6F, 0x6F, 0x62, 0x61, 0x72];
    assert foobar[3..] == [0x62, 0x61, 0x72] && foobar[3..][3..] == [];
    assert Encode(foobar[3..]) == "YmFy" + Encode([]);
  }

  /** Table 1 of RFC 4648: capitals, small letters and figures, each in order, and two signs. */
  lemma DigitsAreTheAlphabet(v: int)
    requires 0 <= v < 64
    ensures Digit(0) == 'A' && Digit(26) == 'a' && Digit(52) == '0' && Digit(62) == '+' && Digit(63) == '/'
    ensures v !in {0, 26, 52, 62, 63} ==> Digit(v) as int == Digit(v - 1) as int + 1
  {
  }

  /** Four digits are one number in base 64, and their three bytes the same number in base 256. */
  lemma {:induction false} GroupIsANumber(b: seq<byte>, i: nat) returns (d: seq<int>)
    requires 3 * i + 3 <= |b|
    ensures |d| == 4 && forall k :: 0 <= k < 4 ==> 0 <= d[k] < 64
    ensures |Encode(b)| >= 4 * i + 4 && forall k :: 0 <= k < 4 ==> Encode(b)[4 * i + k] == Digit(d[k])
    ensures ((d[0] * 64 + d[1]) * 64 + d[2]) * 64 + d[3] 
            == (b[3 * i] as int * 256 + b[3 * i + 1]) * 256 + b[3 * i + 2]
    decreases |b|
  {
    hide Digit;
    var x: int, y: int, z: int := b[0], b[1], b[2];
    if i == 0 {
      d := [x / 4, x % 4 * 16 + y / 16, y % 16 * 4 + z / 64, z % 64];
      SixBits(x, y, z);
    } else {
      d := GroupIsANumber(b[3..], i - 1);
    }
  }

  predicate InAlphabet(t: string) {
    forall i :: 0 <= i < |t| ==> Value(t[i]).Some?
  }

  /** One full group of digits yields three bytes. */
  lemma ScanGroupLength(t: string)
    requires |t| >= 4 && InAlphabet(t[..4])
    ensures Scan(t, 0, 0, 0).Some? <==> Scan(t[4..], 0, 0, 0).Some?
    ensures Scan(t, 0, 0, 0).Some? ==> |Scan(t, 0, 0, 0).value| == 3 + |Scan(t[4..], 0, 0, 0).value|
  {
    assert forall i :: 0 <= i < 4 ==> t[..4][i] == t[i];
    var a, b, c := Value(t[0]).value, Value(t[1]).value, Value(t[2]).value;
    assert t[1..][1..][1..][1..] == t[4..];
    assert Value(t[1..][0]) == Some(b);
    assert Value(t[1..][1..][0]) == Some(c);
    assert Value(t[1..][1..][1..][0]).Some?;
    var s3 := Scan(t[1..][1..][1..], 3, c % 4, 0);
    assert s3.Some? ==> |s3.value| == 1 + |Scan(t[4..], 0, 0, 0).value|;
    var s2 := Scan(t[1..][1..], 2, b % 16, 0);
    assert s2.Some? ==> |s2.value| == 1 + |s3.value|;
    var s1 := Scan(t[1..], 1, a, 0);
    assert s1.Some? ==> |s1.value| == 1 + |s2.value|;
  }

  lemma {:induction false} SkipsNoise(a: string, c: char, b: string, quad: nat, left: int, pads: nat)
    requires Value(c) == None && c != '=' && Leftover(quad, left)
    ensures Scan(a + [c] + b, quad, left, pads) == Scan(a + b, quad, left, pads)
    decreases |a|
  {
    hide Value, Emit;
    if a == "" {
      assert (a + [c] + b)[1..] == b && a + b == b;
    } else {
      assert (a + [c] + b)[1..] == a[1..] + [c] + b && (a + b)[1..] == a[1..] + b;
      forall q, l, p | Leftover(q, l)
        ensures Scan(a[1..] + [c] + b, q, l, p) == Scan(a[1..] + b, q, l, p)
      {
        SkipsNoise(a[1..], c, b, q, l, p);
      }
    }
  }

  /** A character outside the alphabet does not matter, wherever it stands. */
  lemma NoiseIsSkipped(a: string, c: char, b: string)
    requires Value(c) == None && c != '=' && c < 128 as char
    ensures Decode(a + [c] + b) == Decode(a + b)
  {
    hide Scan, Value;
    SkipsNoise(a, c, b, 0, 0, 0);
    AsciiAround(a, c, b);
  }

  lemma AsciiConcat(a: string, b: string)
    ensures Ascii(a + b) <==> Ascii(a) && Ascii(b)
  {
    if Ascii(a + b) {
      assert forall i :: 0 <= i < |a| ==> a[i] == (a + b)[i];
      assert forall i :: 0 <= i < |b| ==> b[i] == (a + b)[|a| + i];
    }
  }

  lemma AsciiAround(a: string, c: char, b: string)
    requires c < 128 as char
    ensures Ascii(a + [c] + b) <==> Ascii(a + b)
  {
    AsciiConcat(a + [c], b);
    AsciiConcat(a, [c]);
    AsciiConcat(a, b);
    assert Ascii([c]);
  }

  lemma {:induction false} WholeGroupsScan(t: string)
    requires InAlphabet(t)
    ensures Scan(t, 0, 0, 0).Some? <==> |t| % 4 == 0
    decreases |t|
  {
    if |t| >= 4 {
      ScanGroupLength(t);
      WholeGroupsScan(t[4..]);
    } else if |t| == 1 {
      assert t[1..] == "";
    } else if |t| == 2 {
      var a, b := Value(t[0]).value, Value(t[1]).value;
      assert t[1..] == [t[1]] && [t[1]][1..] == "";
      assert Scan("", 2, b % 16, 0) == None;
      assert Scan([t[1]], 1, a, 0) == None;
    } else if |t| == 3 {
      var a, b, c := Value(t[0]).value, Value(t[1]).value, Value(t[2]).value;
      assert t[1..] == [t[1], t[2]] && t[1..][1..] == [t[2]] && [t[2]][1..] == "";
      assert Scan("", 3, c % 4, 0) == None;
      assert Scan([t[2]], 2, b % 16, 0) == None;
    }
  }

  /** Without its padding a text decodes exactly if it is cut between groups of four digits. */
  lemma WholeGroupsDecode(t: string)
    requires InAlphabet(t)
    ensures Decode(t).Some? <==> |t| % 4 == 0
  {
    WholeGroupsScan(t);
    forall i | 0 <= i < |t|
      ensures t[i] < 128 as char
    {
      assert Value(t[i]).Some?;
    }
  }

  /** A text of 4n + 3 alphabet characters and one `=` decodes to 3n + 2 bytes. */
  lemma {:induction false} OneMissingDigit(t: string, n: nat)
    requires |t| == 4 * n + 3 && InAlphabet(t)
    ensures Scan(t + "=", 0, 0, 0).Some? && |Scan(t + "=", 0, 0, 0).value| == 3 * n + 2
  {
    var u := t + "=";
    if n == 0 {
      assert u == [t[0], t[1], t[2], '='];
      assert u[1..] == [t[1], t[2], '='] && u[1..][1..] == [t[2], '='] && u[1..][1..][1..] == "=";
      var a, b, c := Value(t[0]).value, Value(t[1]).value, Value(t[2]).value;
      assert Scan("=", 3, c % 4, 0) == Some([]);
      assert |Scan([t[2], '='], 2, b % 16, 0).value| == 1;
      assert |Scan([t[1], t[2], '='], 1, a, 0).value| == 2;
    } else {
      OneMissingDigit(t[4..], n - 1);
      assert u[4..] == t[4..] + "=" && u[..4] == t[..4];
      ScanGroupLength(u);
    }
  }

  /** Every 43-character key decodes, with its missing `=` put back, to 32 bytes. */
  lemma FortyThreeCharacters(t: string)
    requires |t| == 43 && InAlphabet(t)
    ensures Decode(t + "=").Some? && |Decode(t + "=").value| == 32
  {
    OneMissingDigit(t, 10);
    forall i | 0 <= i < |t + "="|
      ensures (t + "=")[i] < 128 as char
    {
      if i < 43 {
        assert Value(t[i]).Some?;
      }
    }
  }
}
