/** The event stream a provider sends (a subset of section 9.2 of the WHATWG HTML Standard)
  * and the law that ties it to `_extract_message`.
  */
module EventStream {
  import opened Collections
  import opened Wrappers
  import opened Utf8
  import opened StreamAssembly

  predicate OneLine(s: string) {
    '\n' !in s
  }

  /** A payload that fits on one `data:` line and is not the end marker. */
  predicate Payload(p: string) {
    p != "" && !IsSpace(p[|p| - 1]) && OneLine(p) && p != "[DONE]"
  }

  /** What ends an event: white space, a line feed last (LF LF, CR LF CR LF, ...). */
  predicate EventEnd(w: string) {
    w != "" && Blank(w) && w[|w| - 1] == '\n'
  }

  function Render(payloads: seq<string>, end: string): string {
    if payloads == [] then DONE + end
    else PREFIX + payloads[0] + end + Render(payloads[1..], end)
  }

  /** What becomes of the payloads, skipped ones left out. */
  function Parsed(payloads: seq<string>, parse: string -> Reading): seq<Reading> {
    if payloads == [] then [] else Kept(parse(payloads[0])) + Parsed(payloads[1..], parse)
  }

  // ---------- stripping ----------

  lemma {:induction false} StripLeftBlank(w: string)
    requires Blank(w)
    ensures StripLeft(w) == ""
  {
    if w != "" {
      StripLeftBlank(w[1..]);
    }
  }

  lemma {:induction false} StripRightTail(s: string, w: string)
    requires Trimmed(s) && Blank(w)
    ensures StripRight(s + w) == s
  {
    if w == "" {
      assert s + w == s;
    } else {
      StripRightTail(s, w[..|w| - 1]);
      assert (s + w)[..|s + w| - 1] == s + w[..|w| - 1];
    }
  }

  lemma StripTail(s: string, w: string)
    requires Trimmed(s) && Blank(w)
    ensures Strip(s + w) == s
  {
    StripRightTail(s, w);
  }

  // ---------- lines ----------

  /** The lines of a text whose first character is peeled off. */
  function Grow(c: char, rest: seq<string>): seq<string>
    requires rest != []
  {
    if c == '\n' then [""] + rest else [[c] + rest[0]] + rest[1..]
  }

  lemma GrowConcat(c: char, a: seq<string>, b: seq<string>)
    requires a != []
    ensures Grow(c, a + b) == Grow(c, a) + b
  {
    assert (a + b)[1..] == a[1..] + b;
  }

  lemma {:induction false} LinesSplit(a: string, b: string)
    ensures Lines(a + "\n" + b) == Lines(a) + Lines(b)
  {
    var whole := a + "\n" + b;
    if a == "" {
      assert whole[1..] == b;
      assert Lines(whole) == [""] + Lines(b);
    } else {
      LinesSplit(a[1..], b);
      assert whole[1..] == a[1..] + "\n" + b && whole[0] == a[0];
      GrowConcat(a[0], Lines(a[1..]), Lines(b));
      assert Lines(whole) == Grow(a[0], Lines(whole[1..])) && Lines(a) == Grow(a[0], Lines(a[1..]));
    }
  }

  lemma {:induction false} LinesOfOneLine(s: string)
    requires OneLine(s)
    ensures Lines(s) == [s]
  {
    if s != "" {
      LinesOfOneLine(s[1..]);
      assert s == [s[0]] + s[1..];
    }
  }

  lemma NoReadings(parse: string -> Reading)
    ensures LineReadings([], parse) == []
  {
  }

  lemma ReadingsSnoc(lines: seq<string>, line: string, parse: string -> Reading)
    ensures LineReadings(lines + [line], parse) == LineReadings(lines, parse) + Kept(LineReading(line, parse))
  {
    hide LineReading, Kept;
    assert (lines + [line])[..|lines|] == lines;
  }

  lemma {:induction false} ReadingsConcat(a: seq<string>, b: seq<string>, parse: string -> Reading)
    ensures LineReadings(a + b, parse) == LineReadings(a, parse) + LineReadings(b, parse)
    decreases |b|
  {
    hide LineReadings, LineReading, Kept;
    if b == [] {
      assert a + b == a;
      NoReadings(parse);
    } else {
      var n := |b| - 1;
      var init, last := b[..n], b[n];
      assert b == init + [last];
      ReadingsConcat(a, init, parse);
      Associate(a, init, [last]);
      ReadingsSnoc(a + init, last, parse);
      ReadingsSnoc(init, last, parse);
      Associate(LineReadings(a, parse), LineReadings(init, parse), Kept(LineReading(last, parse)));
    }
  }

  lemma ReadingsSplit(a: string, b: string, parse: string -> Reading)
    ensures Readings(a + "\n" + b, parse) == Readings(a, parse) + Readings(b, parse)
  {
    hide Lines, LineReadings;
    LinesSplit(a, b);
    ReadingsConcat(Lines(a), Lines(b), parse);
  }

  lemma ReadingsOfOneLine(s: string, parse: string -> Reading)
    requires OneLine(s)
    ensures Readings(s, parse) == Kept(LineReading(s, parse))
  {
    hide LineReading, Lines, Kept;
    LinesOfOneLine(s);
    ReadingsOfOne(s, parse);
  }

  lemma ReadingsOfOne(s: string, parse: string -> Reading)
    ensures LineReadings([s], parse) == Kept(LineReading(s, parse))
  {
    hide LineReadings, LineReading, Kept;
    NoReadings(parse);
    ReadingsSnoc([], s, parse);
    assert [] + [s] == [s];
    assert [] + Kept(LineReading(s, parse)) == Kept(LineReading(s, parse));
  }

  /** A text with a line feed, and what is before and after it. */
  lemma AtLineFeed(w: string) returns (a: string, b: string)
    requires Blank(w) && !OneLine(w)
    ensures w == a + "\n" + b && |a| < |w| && |b| < |w| && Blank(a) && Blank(b)
  {
    var i :| 0 <= i < |w| && w[i] == '\n';
    a, b := w[..i], w[i + 1..];
  }

  lemma BlankLineIsSkipped(w: string, parse: string -> Reading)
    requires Blank(w)
    ensures LineReading(w, parse) == Skipped
  {
    StripLeftBlank(w);
  }

  lemma {:induction false} ReadingsOfBlank(w: string, parse: string -> Reading)
    requires Blank(w)
    ensures Readings(w, parse) == []
    decreases |w|
  {
    hide Blank, OneLine, Readings, LineReading;
    if OneLine(w) {
      ReadingsOfOneLine(w, parse);
      BlankLineIsSkipped(w, parse);
    } else {
      var a, b := AtLineFeed(w);
      ReadingsOfBlank(a, parse);
      ReadingsOfBlank(b, parse);
      ReadingsSplit(a, b, parse);
    }
  }

  lemma TailIsStripped(s: string, w: string, parse: string -> Reading)
    requires Trimmed(s) && Blank(w)
    ensures LineReading(s + w, parse) == LineReading(s, parse)
  {
    hide Strip, Trimmed, Blank;
    StripTail(s, w);
    assert s + "" == s;
    NothingIsBlank();
    StripTail(s, "");
  }

  lemma NothingIsBlank()
    ensures Blank("")
  {
  }

  lemma OneLineConcat(s: string, w: string)
    requires OneLine(s) && OneLine(w)
    ensures OneLine(s + w)
  {
  }

  /** White space after a line, line feeds included, adds nothing. */
  lemma {:induction false} BlankTail(s: string, w: string, parse: string -> Reading)
    requires Trimmed(s) && OneLine(s) && Blank(w)
    ensures Readings(s + w, parse) == Kept(LineReading(s, parse))
    decreases |w|
  {
    hide Trimmed, Blank, OneLine, Readings, LineReading, Kept;
    if OneLine(w) {
      OneLineConcat(s, w);
      ReadingsOfOneLine(s + w, parse);
      TailIsStripped(s, w, parse);
    } else {
      var a, b := AtLineFeed(w);
      BlankTail(s, a, parse);
      ReadingsOfBlank(b, parse);
      ReadingsSplit(s + a, b, parse);
      assert s + w == (s + a) + "\n" + b;
      assert Kept(LineReading(s, parse)) + [] == Kept(LineReading(s, parse));
    }
  }

  lemma EventThenRest(s: string, end: string, rest: string, parse: string -> Reading)
    requires Trimmed(s) && OneLine(s) && EventEnd(end)
    ensures Readings(s + end + rest, parse) == Kept(LineReading(s, parse)) + Readings(rest, parse)
  {
    hide Trimmed, Blank, OneLine, EventEnd, Readings, LineReading, Kept;
    var w := BeforeLineFeed(end);
    BlankTail(s, w, parse);
    ReadingsSplit(s + w, rest, parse);
    Associate(s, w, "\n");
  }

  lemma BeforeLineFeed(end: string) returns (w: string)
    requires EventEnd(end)
    ensures end == w + "\n" && Blank(w)
  {
    w := end[..|end| - 1];
  }

  lemma PayloadLine(p: string, parse: string -> Reading)
    requires Payload(p)
    ensures Trimmed(PREFIX + p) && OneLine(PREFIX + p)
    ensures LineReading(PREFIX + p, parse) == parse(p)
  {
    var s := PREFIX + p;
    assert s[|s| - 1] == p[|p| - 1];
    StripTail(s, "");
    assert s + "" == s && s[..6] == PREFIX && s[6..] == p;
    assert DONE[6..] == "[DONE]";
  }

  lemma DoneLine(parse: string -> Reading)
    ensures Trimmed(DONE) && OneLine(DONE) && LineReading(DONE, parse) == Skipped
  {
    StripTail(DONE, "");
    assert DONE + "" == DONE;
  }

  /** Reading a rendered stream gives what becomes of its payloads, in order. */
  lemma {:induction false} RenderIsRead(payloads: seq<string>, end: string, parse: string -> Reading)
    requires EventEnd(end) && forall i :: 0 <= i < |payloads| ==> Payload(payloads[i])
    ensures Readings(Render(payloads, end), parse) == Parsed(payloads, parse)
    decreases |payloads|
  {
    hide EventEnd, Payload, Readings, LineReading, Trimmed, OneLine;
    if payloads == [] {
      DoneLine(parse);
      NothingIsBlank();
      EventThenRest(DONE, end, "", parse);
      ReadingsOfBlank("", parse);
      assert DONE + end + "" == DONE + end;
    } else {
      RenderIsRead(payloads[1..], end, parse);
      PayloadLine(payloads[0], parse);
      EventThenRest(PREFIX + payloads[0], end, Render(payloads[1..], end), parse);
    }
  }

  function AllRead(ds: seq<Delta>): seq<Reading> {
    seq(|ds|, i requires 0 <= i < |ds| => Read(ds[i]))
  }

  lemma {:induction false} ParsedAll(payloads: seq<string>, ds: seq<Delta>, parse: string -> Reading)
    requires |payloads| == |ds| && forall i :: 0 <= i < |ds| ==> parse(payloads[i]) == Read(ds[i])
    ensures Parsed(payloads, parse) == AllRead(ds)
    decreases |ds|
  {
    if ds != [] {
      ParsedAll(payloads[1..], ds[1..], parse);
      assert AllRead(ds) == [Read(ds[0])] + AllRead(ds[1..]);
    }
  }

  lemma {:induction false} DeltasOfAllRead(ds: seq<Delta>)
    ensures DeltasOf(AllRead(ds)) == ds
    decreases |ds|
  {
    if ds != [] {
      var n := |ds| - 1;
      DeltasOfAllRead(ds[..n]);
      assert AllRead(ds)[..n] == AllRead(ds[..n]);
    }
  }

  /** End to end: a message in any fragmentation, rendered as events and cut into transport
    * chunks between characters, comes back whole.
    */
  lemma StreamRoundTrip(
    content: string, calls: map<int, Call>, ds: seq<Delta>, payloads: seq<string>, end: string,
    chunks: seq<Chunk>, parse: string -> Reading
  )
    requires Fragmentation(ds, content, calls)
    requires |payloads| == |ds| && EventEnd(end)
    requires forall i :: 0 <= i < |ds| ==> Payload(payloads[i]) && parse(payloads[i]) == Read(ds[i])
    requires Join(BytesOf(chunks)) == Encode(Render(payloads, end)) && CutsOnBoundaries(BytesOf(chunks))
    ensures Extracted(chunks, parse).Some? && Carries(Extracted(chunks, parse).value, content, calls)
  {
    hide Fragmentation, Extracted, CutsOnBoundaries, Carries, Assemble, Readings;
    ChunkingIsIrrelevantIff(chunks, Render(payloads, end), parse);
    RenderIsRead(payloads, end, parse);
    ParsedAll(payloads, ds, parse);
    DeltasOfAllRead(ds);
    FragmentationIsUndone(ds, content, calls);
  }

  /** And one event that raises is enough to lose it. */
  lemma StreamRaisesIff(payloads: seq<string>, end: string, chunks: seq<Chunk>, parse: string -> Reading)
    requires EventEnd(end) && forall i :: 0 <= i < |payloads| ==> Payload(payloads[i])
    requires Join(BytesOf(chunks)) == Encode(Render(payloads, end)) && CutsOnBoundaries(BytesOf(chunks))
    ensures Extracted(chunks, parse) == None <==> exists i :: 0 <= i < |payloads| && parse(payloads[i]) == Raises
  {
    hide Extracted, CutsOnBoundaries, Readings, Payload;
    ChunkingIsIrrelevantIff(chunks, Render(payloads, end), parse);
    RenderIsRead(payloads, end, parse);
    RaisesInPayloads(payloads, parse);
  }

  lemma {:induction false} RaisesInPayloads(payloads: seq<string>, parse: string -> Reading)
    ensures Raises in Parsed(payloads, parse) <==> exists i :: 0 <= i < |payloads| && parse(payloads[i]) == Raises
    decreases |payloads|
  {
    if payloads != [] {
      RaisesInPayloads(payloads[1..], parse);
      assert forall i :: 0 <= i < |payloads| - 1 ==> payloads[1..][i] == payloads[i + 1];
      if i :| 0 <= i < |payloads| && parse(payloads[i]) == Raises {
        assert i > 0 ==> payloads[1..][i - 1] == payloads[i];
      }
    }
  }
}
