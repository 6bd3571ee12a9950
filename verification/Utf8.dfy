/** UTF-8 as section 3 of RFC 3629 defines it, with a decoder as strict as Python's
  * `bytes.decode("utf-8")`: no overlong forms, no surrogates, nothing above U+10FFFF.
  */
module Utf8 {
  import opened Collections
  import opened Numbers
  import opened Wrappers

  /** 10xxxxxx, the bytes that cannot start a character. */
  predicate Continuation(b: byte) {
    0x80 <= b < 0xC0
  }

  function EncodeChar(c: char): (b: seq<byte>)
    ensures 1 <= |b| <= 4
    ensures !Continuation(b[0])
    ensures forall i :: 1 <= i < |b| ==> Continuation(b[i])
  {
    var n := c as int;
    var n1 := n / 64;
    var n2 := n1 / 64;
    if n < 0x80 then [n]
    else if n < 0x800 then [0xC0 + n1, 0x80 + n % 64]
    else if n < 0x10000 then [0xE0 + n2, 0x80 + n1 % 64, 0x80 + n % 64]
    else [0xF0 + n2 / 64, 0x80 + n2 % 64, 0x80 + n1 % 64, 0x80 + n % 64]
  }

  function Encode(s: string): seq<byte> {
    if s == "" then [] else EncodeChar(s[0]) + Encode(s[1..])
  }

  /** Appends six payload bits. */
  function Push(n: int, b: byte): int {
    n * 64 + (b as int - 0x80)
  }

  /** The code point that starts at the front of `b` and the number of bytes it takes. */
  function Lead(b: seq<byte>): (r: Option<(int, nat)>)
    ensures r.Some? ==> 1 <= r.value.1 <= |b|
  {
    if b == [] then None
    else
      var n := b[0] as int;
      if n < 0x80 then Some((n, 1))
      else if 0xC2 <= n < 0xE0 && 2 <= |b| && Continuation(b[1]) then
        Some((Push(n - 0xC0, b[1]), 2))
      else if 0xE0 <= n < 0xF0 && 3 <= |b| && Continuation(b[1]) && Continuation(b[2]) then
        Some((Push(Push(n - 0xE0, b[1]), b[2]), 3))
      else if 0xF0 <= n < 0xF5 && 4 <= |b|
           && Continuation(b[1]) && Continuation(b[2]) && Continuation(b[3]) then
        Some((Push(Push(Push(n - 0xF0, b[1]), b[2]), b[3]), 4))
      else None
  }

  /** The range a sequence of this many bytes may encode. */
  predicate InRange(n: int, length: nat) {
    match length
    case 1 => 0 <= n < 0x80
    case 2 => 0x80 <= n < 0x800
    case 3 => 0x800 <= n < 0x10000 && !(0xD800 <= n < 0xE000)
    case 4 => 0x10000 <= n < 0x110000
    case _ => false
  }

  function Decode(b: seq<byte>): Option<string> {
    if b == [] then Some("")
    else
      match Lead(b)
      case None => None
      case Some((n, length)) =>
        if !InRange(n, length) then None
        else
          match Decode(b[length..])
          case None => None
          case Some(s) => Some([n as char] + s)
  }

  lemma LeadOfEncodeChar(c: char, rest: seq<byte>)
    ensures Lead(EncodeChar(c) + rest) == Some((c as int, |EncodeChar(c)|))
    ensures InRange(c as int, |EncodeChar(c)|)
  {
    var n := c as int;
    var e := EncodeChar(c);
    var b := e + rest;
    assert forall i :: 0 <= i < |e| ==> b[i] == e[i];
  }

  lemma PushIsInjective(n: int, b: byte)
    requires Continuation(b)
    ensures Push(n, b) / 64 == n && Push(n, b) % 64 == b - 0x80
  {
  }

  /** A character has one spelling only. */
  lemma LeadIsCanonical(b: seq<byte>)
    requires Lead(b).Some? && InRange(Lead(b).value.0, Lead(b).value.1)
    ensures b[..Lead(b).value.1] == EncodeChar(Lead(b).value.0 as char)
  {
    var n := b[0] as int;
    match Lead(b).value.1
    case 1 =>
    case 2 =>
      PushIsInjective(n - 0xC0, b[1]);
    case 3 =>
      PushIsInjective(n - 0xE0, b[1]);
      PushIsInjective(Push(n - 0xE0, b[1]), b[2]);
    case 4 =>
      PushIsInjective(n - 0xF0, b[1]);
      PushIsInjective(Push(n - 0xF0, b[1]), b[2]);
      PushIsInjective(Push(Push(n - 0xF0, b[1]), b[2]), b[3]);
  }

  /** The table in section 3 of RFC 3629: which bytes spell which number. */
  lemma EncodeLayout(c: char)
    ensures var b, n := EncodeChar(c), c as int;
      match |b|
      case 1 => n < 0x80 && n == b[0]
      case 2 => 0x80 <= n < 0x800 && n == (b[0] as int - 0xC0) * 64 + (b[1] as int - 0x80)
      case 3 => 0x800 <= n < 0x10000
                && n == (b[0] as int - 0xE0) * 4096 + (b[1] as int - 0x80) * 64 + (b[2] as int - 0x80)
      case _ => 0x10000 <= n
                && n == (b[0] as int - 0xF0) * 262144 + (b[1] as int - 0x80) * 4096
                        + (b[2] as int - 0x80) * 64 + (b[3] as int - 0x80)
  {
    var n := c as int;
    assert n == n / 64 * 64 + n % 64;
    assert n / 64 == n / 64 / 64 * 64 + n / 64 % 64;
  }

  lemma {:induction false} EncodeRunsOn(s: string, t: string)
    ensures Encode(s + t) == Encode(s) + Encode(t)
  {
    if s == "" {
      assert s + t == t;
    } else {
      hide Encode, EncodeChar;
      EncodeRunsOn(s[1..], t);
      assert s + t == [s[0]] + (s[1..] + t) && s == [s[0]] + s[1..];
      EncodeCons(s[0], s[1..] + t);
      EncodeCons(s[0], s[1..]);
      Associate(EncodeChar(s[0]), Encode(s[1..]), Encode(t));
    }
  }

  lemma {:induction false} RoundTrip(s: string)
    ensures Decode(Encode(s)) == Some(s)
  {
    if s != "" {
      var e := EncodeChar(s[0]);
      LeadOfEncodeChar(s[0], Encode(s[1..]));
      assert Encode(s)[|e|..] == Encode(s[1..]);
      RoundTrip(s[1..]);
      assert s == [s[0]] + s[1..];
    }
  }

  lemma DecodeUnfolds(b: seq<byte>)
    requires b != [] && Decode(b).Some?
    ensures Lead(b).Some? && InRange(Lead(b).value.0, Lead(b).value.1)
    ensures Decode(b[Lead(b).value.1..]).Some?
    ensures Decode(b).value == [Lead(b).value.0 as char] + Decode(b[Lead(b).value.1..]).value
  {
  }

  lemma NothingIsCanonical()
    ensures Decode([]) == Some("") && Encode("") == []
  {
  }

  lemma EncodeCons(c: char, s: string)
    ensures Encode([c] + s) == EncodeChar(c) + Encode(s)
  {
    assert ([c] + s)[1..] == s;
  }

  /** The decoder accepts exactly the encoder's image. */
  lemma {:induction false} DecodeIsCanonical(b: seq<byte>)
    requires Decode(b).Some?
    ensures Encode(Decode(b).value) == b
    decreases |b|
  {
    hide Lead, InRange, Decode, Encode, EncodeChar;
    if b == [] {
      NothingIsCanonical();
    } else {
      DecodeUnfolds(b);
      var (n, length) := Lead(b).value;
      LeadIsCanonical(b);
      DecodeIsCanonical(b[length..]);
      EncodeCons(n as char, Decode(b[length..]).value);
      assert b == b[..length] + b[length..];
    }
  }

  /** A cut inside a character leaves a continuation byte in front. */
  lemma StraddledCharacter(e: seq<byte>, rest: seq<byte>, a: seq<byte>, b: seq<byte>)
    requires a + b == e + rest
    requires 1 <= |a| < |e| && forall i :: 1 <= i < |e| ==> Continuation(e[i])
    ensures b != [] && Continuation(b[0])
  {
    assert |b| == |e + rest| - |a|;
    assert b[0] == (a + b)[|a|] == e[|a|];
  }

  /** Bytes that do not begin with a continuation byte are a safe place to cut. */
  lemma {:induction false} CutOnBoundary(s: string, a: seq<byte>, b: seq<byte>) returns (i: nat)
    requires a + b == Encode(s)
    requires b == [] || !Continuation(b[0])
    ensures i <= |s| && a == Encode(s[..i]) && b == Encode(s[i..])
  {
    if a == [] {
      i := 0;
      assert a + b == b && s[0..] == s;
    } else {
      var e := EncodeChar(s[0]);
      assert |e| <= |a| by {
        if |a| < |e| {
          StraddledCharacter(e, Encode(s[1..]), a, b);
        }
      }
      PrefixOfBoth(a, b, e, Encode(s[1..]));
      var j := CutOnBoundary(s[1..], a[|e|..], b);
      i := j + 1;
      assert s[1..][..j] == s[1..i] && s[1..][j..] == s[i..];
      assert s[..i][1..] == s[1..i];
    }
  }

  lemma PrefixOfBoth(a: seq<byte>, b: seq<byte>, e: seq<byte>, rest: seq<byte>)
    requires a + b == e + rest && |e| <= |a|
    ensures a == e + a[|e|..] && a[|e|..] + b == rest
  {
    assert a[..|e|] == (a + b)[..|e|] == e;
    assert a[|e|..] + b == (a + b)[|e|..] == rest;
  }

  /** Decodes each transport chunk on its own and joins the texts. */
  function DecodeEach(chunks: seq<seq<byte>>): Option<string> {
    if chunks == [] then Some("")
    else
      match (Decode(chunks[0]), DecodeEach(chunks[1..]))
      case (Some(s), Some(t)) => Some(s + t)
      case _ => None
  }

  lemma {:induction false} DecodeEachConcat(a: seq<seq<byte>>, b: seq<seq<byte>>)
    ensures DecodeEach(a + b) == match (DecodeEach(a), DecodeEach(b))
                                 case (Some(s), Some(t)) => Some(s + t)
                                 case _ => None
    decreases |a|
  {
    hide Decode;
    if a == [] {
      assert a + b == b;
      assert DecodeEach(b).Some? ==> "" + DecodeEach(b).value == DecodeEach(b).value;
    } else {
      DecodeEachConcat(a[1..], b);
      assert (a + b)[1..] == a[1..] + b;
      if Decode(a[0]).Some? && DecodeEach(a[1..]).Some? && DecodeEach(b).Some? {
        var s, t, u := Decode(a[0]).value, DecodeEach(a[1..]).value, DecodeEach(b).value;
        assert s + (t + u) == (s + t) + u;
      }
    }
  }

  function Join(chunks: seq<seq<byte>>): seq<byte> {
    if chunks == [] then [] else chunks[0] + Join(chunks[1..])
  }

  /** No chunk begins in the middle of a character. */
  predicate CutsOnBoundaries(chunks: seq<seq<byte>>) {
    forall i :: 0 <= i < |chunks| && chunks[i] != [] ==> !Continuation(chunks[i][0])
  }

  lemma {:induction false} JoinStartsOnBoundary(chunks: seq<seq<byte>>)
    requires CutsOnBoundaries(chunks) && Join(chunks) != []
    ensures !Continuation(Join(chunks)[0])
  {
    if chunks[0] == [] {
      assert Join(chunks) == Join(chunks[1..]);
      JoinStartsOnBoundary(chunks[1..]);
    }
  }

  lemma {:induction false} DecodeEachOnBoundaries(s: string, chunks: seq<seq<byte>>)
    requires Join(chunks) == Encode(s) && CutsOnBoundaries(chunks)
    ensures DecodeEach(chunks) == Some(s)
  {
    if chunks != [] {
      if Join(chunks[1..]) != [] {
        JoinStartsOnBoundary(chunks[1..]);
      }
      var i := CutOnBoundary(s, chunks[0], Join(chunks[1..]));
      RoundTrip(s[..i]);
      DecodeEachOnBoundaries(s[i..], chunks[1..]);
      assert s[..i] + s[i..] == s;
    } else {
      assert Encode(s) == [];
    }
  }

  lemma {:induction false} DecodeEachOffBoundary(chunks: seq<seq<byte>>, i: nat)
    requires i < |chunks| && chunks[i] != [] && Continuation(chunks[i][0])
    ensures DecodeEach(chunks) == None
  {
    if i == 0 {
      assert Lead(chunks[0]) == None;
    } else {
      DecodeEachOffBoundary(chunks[1..], i - 1);
    }
  }

  /** Decoding chunk by chunk gives the text that was sent if and only if every cut
    * falls between characters.
    */
  lemma DecodeEachIff(s: string, chunks: seq<seq<byte>>)
    requires Join(chunks) == Encode(s)
    ensures DecodeEach(chunks) == Some(s) <==> CutsOnBoundaries(chunks)
    ensures !CutsOnBoundaries(chunks) ==> DecodeEach(chunks) == None
  {
    if CutsOnBoundaries(chunks) {
      DecodeEachOnBoundaries(s, chunks);
    } else {
      var i :| 0 <= i < |chunks| && chunks[i] != [] && Continuation(chunks[i][0]);
      DecodeEachOffBoundary(chunks, i);
    }
  }
}
