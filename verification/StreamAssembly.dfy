/** backend/open_webui/haloclaw/tool_executor.py: `_extract_message` on a streaming response.
  * JSON parsing is a parameter: `parse` says what becomes of an event's payload.
  */
module StreamAssembly {
  import opened Collections
  import opened Numbers
  import opened Wrappers
  import opened Utf8
  import opened SortedKeys

  /** A fragment of tool call number `index`. `id` is `None` for JSON null, `Some("")` when
    * the key is missing; empty names and arguments stand for missing ones.
    */
  datatype CallDelta = CallDelta(index: int, id: Option<string>, name: string, arguments: string)

  datatype Delta = Delta(content: string, calls: seq<CallDelta>)

  datatype Call = Call(id: Option<string>, name: string, arguments: string)

  /** `None` where the key is absent from the message. */
  datatype Message = Message(content: Option<string>, calls: Option<seq<Call>>)

  // ---------- tool calls, fragment by fragment ----------

  /** The dictionary entry a first fragment opens. */
  function Opened(d: CallDelta): Call {
    Call(d.id, "", "")
  }

  function Update(entry: Call, d: CallDelta): Call {
    Call(
      if d.id.Some? && d.id.value != "" then d.id else entry.id,
      if d.name != "" then d.name else entry.name,
      entry.arguments + d.arguments)
  }

  function Step(entries: map<int, Call>, d: CallDelta): map<int, Call> {
    var entry := if d.index in entries then entries[d.index] else Opened(d);
    entries[d.index := Update(entry, d)]
  }

  function Fold(ds: seq<CallDelta>): map<int, Call> {
    if ds == [] then map[] else Step(Fold(ds[..|ds| - 1]), ds[|ds| - 1])
  }

  // ---------- what the dictionary must hold ----------

  /** The fragments of one call, in order. */
  function Fragments(ds: seq<CallDelta>, index: int): seq<CallDelta> {
    if ds == [] then []
    else Fragments(ds[..|ds| - 1], index) + if ds[|ds| - 1].index == index then [ds[|ds| - 1]] else []
  }

  function JoinArguments(ds: seq<CallDelta>): string {
    if ds == [] then "" else JoinArguments(ds[..|ds| - 1]) + ds[|ds| - 1].arguments
  }

  /** The last name that is not empty. */
  function LastName(ds: seq<CallDelta>): string {
    if ds == [] then ""
    else if ds[|ds| - 1].name != "" then ds[|ds| - 1].name
    else LastName(ds[..|ds| - 1])
  }

  /** The last id that is neither null nor empty; failing that, the first fragment's. */
  function LastId(ds: seq<CallDelta>): Option<string>
    requires ds != []
  {
    var last := ds[|ds| - 1].id;
    if |ds| == 1 || (last.Some? && last.value != "") then last else LastId(ds[..|ds| - 1])
  }

  function Whole(fragments: seq<CallDelta>): Call
    requires fragments != []
  {
    Call(LastId(fragments), LastName(fragments), JoinArguments(fragments))
  }

  lemma WholeOfOne(d: CallDelta)
    ensures Whole([d]) == Update(Opened(d), d)
  {
    var one := [d];
    assert one[..|one| - 1] == [];
    assert JoinArguments(one) == "" + d.arguments;
    assert LastName(one) == if d.name != "" then d.name else "";
  }

  lemma WholeAppend(ds: seq<CallDelta>, d: CallDelta)
    requires ds != []
    ensures Whole(ds + [d]) == Update(Whole(ds), d)
  {
    assert (ds + [d])[..|ds|] == ds;
  }

  /** Each entry depends on the fragments of its own call only, however they interleave. */
  lemma {:induction false} FoldIsIndexwise(ds: seq<CallDelta>, index: int)
    ensures index in Fold(ds) <==> Fragments(ds, index) != []
    ensures index in Fold(ds) ==> Fold(ds)[index] == Whole(Fragments(ds, index))
  {
    if ds != [] {
      var init, last := ds[..|ds| - 1], ds[|ds| - 1];
      FoldIsIndexwise(init, index);
      if last.index == index {
        var before := Fragments(init, index);
        if before == [] {
          WholeOfOne(last);
          assert Fragments(ds, index) == [last];
        } else {
          WholeAppend(before, last);
        }
      } else {
        assert Fragments(ds, index) == Fragments(init, index);
      }
    }
  }

  /** The last fragment with an id settles the id, the last with a name the name. */
  lemma {:induction false} LastOneWins(ds: seq<CallDelta>, i: nat)
    requires i < |ds|
    ensures (ds[i].id.Some? && ds[i].id.value != "")
            && (forall j :: i < j < |ds| ==> ds[j].id.None? || ds[j].id.value == "")
            ==> LastId(ds) == ds[i].id
    ensures (forall j :: 0 <= j < |ds| ==> ds[j].id.None? || ds[j].id.value == "") ==> LastId(ds) == ds[0].id
    ensures ds[i].name != "" && (forall j :: i < j < |ds| ==> ds[j].name == "") ==> LastName(ds) == ds[i].name
    ensures (forall j :: 0 <= j < |ds| ==> ds[j].name == "") ==> LastName(ds) == ""
    decreases |ds|
  {
    if |ds| > 1 {
      LastOneWins(ds[..|ds| - 1], if i < |ds| - 1 then i else 0);
    }
  }

  /** The fragments of a call, and its arguments, run on from one stretch of the stream to the next. */
  lemma {:induction false} FragmentsRunOn(a: seq<CallDelta>, b: seq<CallDelta>, index: int)
    ensures Fragments(a + b, index) == Fragments(a, index) + Fragments(b, index)
    decreases |b|
  {
    if b == [] {
      assert a + b == a;
    } else {
      var init, last := b[..|b| - 1], b[|b| - 1];
      FragmentsRunOn(a, init, index);
      assert (a + b)[..|a + b| - 1] == a + init && (a + b)[|a + b| - 1] == last;
      Associate(Fragments(a, index), Fragments(init, index), if last.index == index then [last] else []);
    }
  }

  lemma {:induction false} ArgumentsRunOn(a: seq<CallDelta>, b: seq<CallDelta>)
    ensures JoinArguments(a + b) == JoinArguments(a) + JoinArguments(b)
    decreases |b|
  {
    if b == [] {
      assert a + b == a;
    } else {
      var init, last := b[..|b| - 1], b[|b| - 1];
      ArgumentsRunOn(a, init);
      assert (a + b)[..|a + b| - 1] == a + init && (a + b)[|a + b| - 1] == last;
      Associate(JoinArguments(a), JoinArguments(init), last.arguments);
    }
  }

  lemma OneFragment(d: CallDelta, index: int)
    ensures Fragments([d], index) == if d.index == index then [d] else []
    ensures JoinArguments([d]) == d.arguments
  {
    assert [d][..0] == [];
  }

  // ---------- the message ----------

  function AllCalls(ds: seq<Delta>): seq<CallDelta> {
    if ds == [] then [] else AllCalls(ds[..|ds| - 1]) + ds[|ds| - 1].calls
  }

  function AllContent(ds: seq<Delta>): string {
    if ds == [] then "" else AllContent(ds[..|ds| - 1]) + ds[|ds| - 1].content
  }

  lemma {:induction false} DeltasRunOn(a: seq<Delta>, b: seq<Delta>)
    ensures AllCalls(a + b) == AllCalls(a) + AllCalls(b)
    ensures AllContent(a + b) == AllContent(a) + AllContent(b)
    decreases |b|
  {
    if b == [] {
      assert a + b == a;
    } else {
      var init, last := b[..|b| - 1], b[|b| - 1];
      DeltasRunOn(a, init);
      assert (a + b)[..|a + b| - 1] == a + init && (a + b)[|a + b| - 1] == last;
      Associate(AllCalls(a), AllCalls(init), last.calls);
      Associate(AllContent(a), AllContent(init), last.content);
    }
  }

  lemma OneDelta(d: Delta)
    ensures AllCalls([d]) == d.calls && AllContent([d]) == d.content
  {
    assert [d][..0] == [];
  }

  ghost function InOrder(entries: map<int, Call>): seq<Call> {
    var keys := Ascending(entries.Keys);
    AscendingIsSorted(entries.Keys);
    seq(|keys|, i requires 0 <= i < |keys| => assert keys[i] in keys; entries[keys[i]])
  }

  /** The rebuilt message: the content if there is any, the calls by index if there are any. */
  ghost function Rebuilt(content: string, entries: map<int, Call>): Option<Message> {
    if content == "" && entries == map[] then None
    else
      Some(Message(
        if content == "" then None else Some(content),
        if entries == map[] then None else Some(InOrder(entries))))
  }

  /** The calls of the map in ascending order of index. */
  ghost predicate ListsCalls(listed: seq<Call>, calls: map<int, Call>) {
    exists keys :: ListsByKeys(listed, calls, keys)
  }

  ghost predicate ListsByKeys(listed: seq<Call>, calls: map<int, Call>, keys: seq<int>) {
    && |keys| == |listed|
    && (forall i, j :: 0 <= i < j < |keys| ==> keys[i] < keys[j])
    && (forall k :: k in keys <==> k in calls)
    && forall i :: 0 <= i < |keys| ==> keys[i] in calls && listed[i] == calls[keys[i]]
  }

  /** A message with exactly this content and these calls; no message at all for neither. */
  ghost predicate Carries(m: Option<Message>, content: string, calls: map<int, Call>) {
    && (m.None? <==> content == "" && calls == map[])
    && (m.Some? ==>
          && (m.value.content.None? <==> content == "")
          && (m.value.content.Some? ==> m.value.content.value == content)
          && (m.value.calls.None? <==> calls == map[])
          && (m.value.calls.Some? ==> ListsCalls(m.value.calls.value, calls)))
  }

  lemma InOrderLists(calls: map<int, Call>)
    ensures ListsCalls(InOrder(calls), calls)
  {
    AscendingIsSorted(calls.Keys);
    assert ListsByKeys(InOrder(calls), calls, Ascending(calls.Keys));
  }

  lemma RebuiltCarries(content: string, calls: map<int, Call>)
    ensures Carries(Rebuilt(content, calls), content, calls)
  {
    InOrderLists(calls);
  }

  /** There is only one such message. */
  lemma CarriesOnce(a: Option<Message>, b: Option<Message>, content: string, calls: map<int, Call>)
    requires Carries(a, content, calls) && Carries(b, content, calls)
    ensures a == b
  {
    if a.Some? && a.value.calls.Some? {
      var x, y := a.value.calls.value, b.value.calls.value;
      var ks :| ListsByKeys(x, calls, ks);
      var ls :| ListsByKeys(y, calls, ls);
      SortedOnce(ks, ls);
      assert x == y;
    }
  }

  ghost function Assemble(ds: seq<Delta>): Option<Message> {
    Rebuilt(AllContent(ds), Fold(AllCalls(ds)))
  }

  /** The id fragments spell `id`: only `id` and blanks, `id` at least once (a blank id: only blanks). */
  predicate SpellsId(ds: seq<CallDelta>, id: string) {
    && (forall i :: 0 <= i < |ds| ==> ds[i].id == Some("") || ds[i].id == Some(id))
    && (exists i :: 0 <= i < |ds| && ds[i].id == Some(id))
  }

  predicate SpellsName(ds: seq<CallDelta>, name: string) {
    && (forall i :: 0 <= i < |ds| ==> ds[i].name == "" || ds[i].name == name)
    && (exists i :: 0 <= i < |ds| && ds[i].name == name)
  }

  /** `ds` is some fragmentation of a message with this content and these calls: the content
    * cut anywhere, the arguments of each call cut anywhere, its id and name repeated or not,
    * and the fragments of different calls interleaved in any way.
    */
  ghost predicate Fragmentation(ds: seq<Delta>, content: string, calls: map<int, Call>) {
    && AllContent(ds) == content
    && forall index ::
         var fragments := Fragments(AllCalls(ds), index);
         && (index in calls <==> fragments != [])
         && (index in calls ==>
               && calls[index].id.Some?
               && SpellsId(fragments, calls[index].id.value)
               && SpellsName(fragments, calls[index].name)
               && JoinArguments(fragments) == calls[index].arguments)
  }

  lemma {:induction false} SpelledId(ds: seq<CallDelta>, id: string)
    requires ds != [] && SpellsId(ds, id)
    ensures LastId(ds) == Some(id)
  {
    var last := ds[|ds| - 1].id;
    if !(|ds| == 1 || (last.Some? && last.value != "")) {
      var i :| 0 <= i < |ds| && ds[i].id == Some(id);
      if i == |ds| - 1 {
        assert ds[0].id == Some(id);
        assert ds[..|ds| - 1][0].id == Some(id);
      } else {
        assert ds[..|ds| - 1][i].id == Some(id);
      }
      SpelledId(ds[..|ds| - 1], id);
    }
  }

  lemma {:induction false} SpelledName(ds: seq<CallDelta>, name: string)
    requires SpellsName(ds, name)
    ensures LastName(ds) == name
  {
    if ds[|ds| - 1].name == "" && name != "" {
      var i :| 0 <= i < |ds| && ds[i].name == name;
      assert ds[..|ds| - 1][i].name == name;
      SpelledName(ds[..|ds| - 1], name);
    } else if name == "" {
      BlankName(ds);
    }
  }

  lemma {:induction false} BlankName(ds: seq<CallDelta>)
    requires forall i :: 0 <= i < |ds| ==> ds[i].name == ""
    ensures LastName(ds) == ""
  {
    if ds != [] {
      BlankName(ds[..|ds| - 1]);
    }
  }

  /** Reassembly returns the original content and calls, in index order, from every fragmentation. */
  lemma FragmentationIsUndone(ds: seq<Delta>, content: string, calls: map<int, Call>)
    requires Fragmentation(ds, content, calls)
    ensures Fold(AllCalls(ds)) == calls
    ensures Carries(Assemble(ds), content, calls)
  {
    var entries := Fold(AllCalls(ds));
    forall index
      ensures index in entries <==> index in calls
      ensures index in entries ==> entries[index] == calls[index]
    {
      FoldIsIndexwise(AllCalls(ds), index);
      var fragments := Fragments(AllCalls(ds), index);
      if index in calls {
        SpelledId(fragments, calls[index].id.value);
        SpelledName(fragments, calls[index].name);
      }
    }
    assert entries.Keys == calls.Keys;
    RebuiltCarries(content, calls);
  }

  /** Only the content and each call's own fragments matter, not how they interleave. */
  lemma InterleavingIsIrrelevant(ds: seq<Delta>, ds': seq<Delta>)
    requires AllContent(ds) == AllContent(ds')
    requires forall index :: Fragments(AllCalls(ds), index) == Fragments(AllCalls(ds'), index)
    ensures Assemble(ds) == Assemble(ds')
  {
    var a, b := Fold(AllCalls(ds)), Fold(AllCalls(ds'));
    forall index
      ensures index in a <==> index in b
      ensures index in a ==> a[index] == b[index]
    {
      FoldIsIndexwise(AllCalls(ds), index);
      FoldIsIndexwise(AllCalls(ds'), index);
    }
    assert a.Keys == b.Keys;
    assert a == b;
  }

  // ---------- the text of the stream ----------

  /** `str.isspace` of a single character. */
  predicate IsSpace(c: char) {
    var n := c as int;
    || 0x09 <= n <= 0x0D || 0x1C <= n <= 0x20 || n == 0x85 || n == 0xA0 || n == 0x1680
    || 0x2000 <= n <= 0x200A || n == 0x2028 || n == 0x2029 || n == 0x202F || n == 0x205F || n == 0x3000
  }

  /** Of ASCII, the six characters that end or indent a line, the four separators, and the space. */
  lemma AsciiSpaces(c: char)
    requires c < 128 as char
    ensures IsSpace(c) <==> c in "\t\n\r \U{0B}\U{0C}\U{1C}\U{1D}\U{1E}\U{1F}"
  {
  }

  function StripLeft(s: string): string {
    if s != "" && IsSpace(s[0]) then StripLeft(s[1..]) else s
  }

  function StripRight(s: string): string {
    if s != "" && IsSpace(s[|s| - 1]) then StripRight(s[..|s| - 1]) else s
  }

  /** The text without white space at either end. */
  function Strip(s: string): string {
    StripRight(StripLeft(s))
  }

  predicate Blank(w: string) {
    forall i :: 0 <= i < |w| ==> IsSpace(w[i])
  }

  /** Neither end is white space. */
  predicate Trimmed(s: string) {
    s != "" && !IsSpace(s[0]) && !IsSpace(s[|s| - 1])
  }

  lemma {:induction false} StripLeftIs(s: string) returns (a: string)
    ensures s == a + StripLeft(s) && Blank(a)
    ensures StripLeft(s) != "" ==> !IsSpace(StripLeft(s)[0])
  {
    hide IsSpace;
    a := "";
    if s != "" && IsSpace(s[0]) {
      a := StripLeftIs(s[1..]);
      a := [s[0]] + a;
    }
  }

  lemma {:induction false} StripRightIs(s: string) returns (b: string)
    ensures s == StripRight(s) + b && Blank(b)
    ensures StripRight(s) != "" ==> !IsSpace(StripRight(s)[|StripRight(s)| - 1]) && StripRight(s)[0] == s[0]
  {
    hide IsSpace;
    b := "";
    if s != "" && IsSpace(s[|s| - 1]) {
      b := StripRightIs(s[..|s| - 1]);
      b := b + [s[|s| - 1]];
    }
  }

  /** Only white space is taken off, and none is left at either end. */
  lemma StripIs(s: string) returns (a: string, b: string)
    ensures s == a + Strip(s) + b && Blank(a) && Blank(b)
    ensures Strip(s) == "" || Trimmed(Strip(s))
  {
    a := StripLeftIs(s);
    b := StripRightIs(StripLeft(s));
  }

  /** The lines of a text, without their line feeds. */
  function Lines(s: string): (r: seq<string>)
    ensures r != []
  {
    if s == "" then [""]
    else
      var rest := Lines(s[1..]);
      if s[0] == '\n' then [""] + rest else [[s[0]] + rest[0]] + rest[1..]
  }

  const PREFIX: string := "data: "
  const DONE: string := "data: [DONE]"

  /** What becomes of a line: it holds a delta; it is skipped, as is a payload that is no JSON or has no
    * choices; or, where a field has a type the code does not expect, it raises an exception that nothing
    * catches.
    */
  datatype Reading = Read(delta: Delta) | Skipped | Raises

  function LineReading(line: string, parse: string -> Reading): Reading {
    var s := Strip(line);
    if !StartsWith(s, PREFIX) || s == DONE then Skipped else parse(s[6..])
  }

  /** A line is read exactly if, white space at its ends aside, it is `data: ` and a payload. */
  lemma LineHolds(line: string, payload: string, parse: string -> Reading)
    ensures Strip(line) == PREFIX + payload && payload != "[DONE]" ==> LineReading(line, parse) == parse(payload)
    ensures Strip(line) == DONE || !StartsWith(Strip(line), PREFIX) ==> LineReading(line, parse) == Skipped
  {
    var s := Strip(line);
    if s == PREFIX + payload {
      assert s[6..] == payload && s[..6] == PREFIX && DONE[6..] == "[DONE]";
    }
  }

  /** One reading, unless it is skipped. */
  function Kept(r: Reading): seq<Reading> {
    if r.Skipped? then [] else [r]
  }

  function LineReadings(lines: seq<string>, parse: string -> Reading): seq<Reading> {
    if lines == [] then []
    else LineReadings(lines[..|lines| - 1], parse) + Kept(LineReading(lines[|lines| - 1], parse))
  }

  function Readings(text: string, parse: string -> Reading): seq<Reading> {
    LineReadings(Lines(text), parse)
  }

  function DeltasOf(readings: seq<Reading>): seq<Delta> {
    if readings == [] then []
    else
      var last := readings[|readings| - 1];
      DeltasOf(readings[..|readings| - 1]) + if last.Read? then [last.delta] else []
  }

  // ---------- _extract_message ----------

  method MergeCall(entries: map<int, Call>, d: CallDelta) returns (next: map<int, Call>)
    ensures next == Step(entries, d)
  {
    next := entries;
    if d.index !in next {
      next := next[d.index := Opened(d)];
    }
    if d.id.Some? && d.id.value != "" {
      next := next[d.index := next[d.index].(id := d.id)];
    }
    if d.name != "" {
      next := next[d.index := next[d.index].(name := d.name)];
    }
    if d.arguments != "" {
      next := next[d.index := next[d.index].(arguments := next[d.index].arguments + d.arguments)];
    } else {
      assert next[d.index].arguments == next[d.index].arguments + "";
    }
  }

  method MergeDelta(entries: map<int, Call>, d: Delta, ghost before: seq<CallDelta>) returns (next: map<int, Call>)
    requires entries == Fold(before)
    ensures next == Fold(before + d.calls)
  {
    hide Step, Fold;
    next := entries;
    assert before + d.calls[..0] == before;
    for i := 0 to |d.calls|
      invariant next == Fold(before + d.calls[..i])
    {
      next := MergeCall(next, d.calls[i]);
      FoldAppend(before + d.calls[..i], d.calls[i]);
      assert before + d.calls[..i + 1] == before + d.calls[..i] + [d.calls[i]];
    }
    assert d.calls[..|d.calls|] == d.calls;
  }

  lemma FoldAppend(ds: seq<CallDelta>, d: CallDelta)
    ensures Fold(ds + [d]) == Step(Fold(ds), d)
  {
    assert (ds + [d])[..|ds|] == ds;
  }

  lemma DeltasAppend(ds: seq<Delta>, d: Delta)
    ensures AllCalls(ds + [d]) == AllCalls(ds) + d.calls
    ensures AllContent(ds + [d]) == AllContent(ds) + d.content
  {
    assert (ds + [d])[..|ds|] == ds;
  }

  /** The two accumulators after these readings; the parts of the text are kept joined. */
  ghost predicate Accumulated(readings: seq<Reading>, content: string, entries: map<int, Call>) {
    Raises !in readings
    && content == AllContent(DeltasOf(readings)) && entries == Fold(AllCalls(DeltasOf(readings)))
  }

  lemma AccumulateNothing()
    ensures Accumulated([], "", map[])
  {
  }

  lemma DeltasOfAppend(readings: seq<Reading>, d: Delta)
    ensures DeltasOf(readings + [Read(d)]) == DeltasOf(readings) + [d]
  {
    assert (readings + [Read(d)])[..|readings|] == readings;
  }

  method ReadDelta(d: Delta, content: string, entries: map<int, Call>, ghost readings: seq<Reading>)
    returns (content': string, entries': map<int, Call>)
    requires Accumulated(readings, content, entries)
    ensures Accumulated(readings + [Read(d)], content', entries')
  {
    entries' := MergeDelta(entries, d, AllCalls(DeltasOf(readings)));
    content' := content + d.content;
    DeltasOfAppend(readings, d);
    DeltasAppend(DeltasOf(readings), d);
  }

  /** The outer loop; `None` where a line raises. */
  method ReadLines(lines: seq<string>, parse: string -> Reading) returns (r: Option<(string, map<int, Call>)>)
    ensures r.None? <==> Raises in LineReadings(lines, parse)
    ensures r.Some? ==> Accumulated(LineReadings(lines, parse), r.value.0, r.value.1)
  {
    hide Accumulated;
    var content, entries := "", map[];
    AccumulateNothing();
    for i := 0 to |lines|
      invariant Raises !in LineReadings(lines[..i], parse)
      invariant Accumulated(LineReadings(lines[..i], parse), content, entries)
    {
      ReadingsNext(lines, i, parse);
      match LineReading(lines[i], parse) {
        case Read(d) =>
          content, entries := ReadDelta(d, content, entries, LineReadings(lines[..i], parse));
        case Skipped =>
          assert LineReadings(lines[..i], parse) + [] == LineReadings(lines[..i], parse);
        case Raises =>
          RaisesForGood(lines, i + 1, parse);
          return None;
      }
    }
    assert lines[..|lines|] == lines;
    r := Some((content, entries));
  }

  lemma ReadingsNext(lines: seq<string>, i: nat, parse: string -> Reading)
    requires i < |lines|
    ensures LineReadings(lines[..i + 1], parse) == LineReadings(lines[..i], parse) + Kept(LineReading(lines[i], parse))
  {
    assert lines[..i + 1][..i] == lines[..i];
  }

  lemma {:induction false} RaisesForGood(lines: seq<string>, n: nat, parse: string -> Reading)
    requires n <= |lines| && Raises in LineReadings(lines[..n], parse)
    ensures Raises in LineReadings(lines, parse)
    decreases |lines| - n
  {
    if n == |lines| {
      assert lines[..n] == lines;
    } else {
      ReadingsNext(lines, n, parse);
      RaisesForGood(lines, n + 1, parse);
    }
  }

  /** The calls of the map, in ascending order of index. */
  method ListCalls(entries: map<int, Call>) returns (calls: seq<Call>)
    ensures calls == InOrder(entries)
    ensures ListsCalls(calls, entries)
  {
    hide ListsCalls, ListsByKeys;
    var keys := entries.Keys;
    calls := [];
    ghost var done: seq<int> := [];
    while keys != {}
      invariant keys <= entries.Keys
      invariant done + Ascending(keys) == Ascending(entries.Keys)
      invariant |calls| == |done| && forall i :: 0 <= i < |done| ==> done[i] in entries && calls[i] == entries[done[i]]
      decreases keys
    {
      HasLeast(keys);
      var k :| Least(keys, k);
      calls := calls + [entries[k]];
      assert Ascending(keys) == [k] + Ascending(keys - {k});
      done := done + [k];
      keys := keys - {k};
    }
    ListedInOrder(entries, calls, done);
  }

  lemma ListedInOrder(entries: map<int, Call>, calls: seq<Call>, done: seq<int>)
    requires done == Ascending(entries.Keys) && |calls| == |done|
    requires forall i :: 0 <= i < |done| ==> done[i] in entries && calls[i] == entries[done[i]]
    ensures calls == InOrder(entries) && ListsCalls(calls, entries)
  {
    AscendingIsSorted(entries.Keys);
    assert ListsByKeys(calls, entries, done);
  }

  /** A transport chunk: text, or bytes still to be decoded. */
  datatype Chunk = Text(text: string) | Bytes(bytes: seq<byte>)

  function ChunkBytes(c: Chunk): seq<byte> {
    match c
    case Text(s) => Encode(s)
    case Bytes(b) => b
  }

  function BytesOf(chunks: seq<Chunk>): seq<seq<byte>> {
    seq(|chunks|, i requires 0 <= i < |chunks| => ChunkBytes(chunks[i]))
  }

  lemma DecodeNext(chunks: seq<Chunk>, i: nat)
    requires i < |chunks|
    ensures DecodeEach(BytesOf(chunks[..i + 1]))
            == match (DecodeEach(BytesOf(chunks[..i])), Decode(ChunkBytes(chunks[i])))
               case (Some(s), Some(t)) => Some(s + t)
               case _ => None
  {
    var one := [ChunkBytes(chunks[i])];
    assert BytesOf(chunks[..i + 1]) == BytesOf(chunks[..i]) + one;
    DecodeEachConcat(BytesOf(chunks[..i]), one);
    assert one[1..] == [];
    assert DecodeEach(one) == match Decode(one[0]) case None => None case Some(t) => Some(t + "");
    assert forall t: string :: t + "" == t;
  }

  lemma DecodeStops(chunks: seq<Chunk>, i: nat)
    requires i <= |chunks| && DecodeEach(BytesOf(chunks[..i])) == None
    ensures DecodeEach(BytesOf(chunks)) == None
  {
    assert BytesOf(chunks) == BytesOf(chunks[..i]) + BytesOf(chunks[i..]);
    DecodeEachConcat(BytesOf(chunks[..i]), BytesOf(chunks[i..]));
  }

  /** Each chunk is decoded on its own; one that is no UTF-8 text by itself raises. */
  method JoinChunks(chunks: seq<Chunk>) returns (full: Option<string>)
    ensures full == DecodeEach(BytesOf(chunks))
  {
    var text := "";
    for i := 0 to |chunks|
      invariant DecodeEach(BytesOf(chunks[..i])) == Some(text)
    {
      DecodeNext(chunks, i);
      match chunks[i] {
        case Text(s) =>
          RoundTrip(s);
          text := text + s;
        case Bytes(b) =>
          var s := Decode(b);
          if s.None? {
            DecodeStops(chunks, i + 1);
            return None;
          }
          text := text + s.value;
      }
    }
    assert chunks[..|chunks|] == chunks;
    full := Some(text);
  }

  /** The outer `None` is an uncaught exception: a chunk that does not decode, or a line that raises. */
  ghost function Extracted(chunks: seq<Chunk>, parse: string -> Reading): Option<Option<Message>> {
    match DecodeEach(BytesOf(chunks))
    case None => None
    case Some(text) => Understood(Readings(text, parse))
  }

  ghost function Understood(readings: seq<Reading>): Option<Option<Message>> {
    if Raises in readings then None else Some(Assemble(DeltasOf(readings)))
  }

  method ExtractMessage(chunks: seq<Chunk>, parse: string -> Reading) returns (r: Option<Option<Message>>)
    ensures r == Extracted(chunks, parse)
    ensures r.Some? ==>
              && DecodeEach(BytesOf(chunks)).Some?
              && var ds := DeltasOf(Readings(DecodeEach(BytesOf(chunks)).value, parse));
                 Carries(r.value, AllContent(ds), Fold(AllCalls(ds)))
  {
    hide Carries;
    var full := JoinChunks(chunks);
    match full {
      case None =>
        r := None;
      case Some(text) =>
        ghost var ds := DeltasOf(Readings(text, parse));
        RebuiltCarries(AllContent(ds), Fold(AllCalls(ds)));
        var read := ReadLines(Lines(text), parse);
        if read.None? {
          return None;
        }
        var (content, entries) := read.value;
        if content == "" && entries == map[] {
          r := Some(None);
        } else {
          var calls := ListCalls(entries);
          r := Some(Some(Message(
            if content == "" then None else Some(content),
            if entries == map[] then None else Some(calls))));
        }
    }
  }

  /** The result is that of the uncut text if and only if no chunk begins inside a character;
    * otherwise the call raises.
    */
  lemma ChunkingIsIrrelevantIff(chunks: seq<Chunk>, text: string, parse: string -> Reading)
    requires Join(BytesOf(chunks)) == Encode(text)
    ensures Extracted(chunks, parse)
            == if CutsOnBoundaries(BytesOf(chunks)) then Understood(Readings(text, parse)) else None
  {
    DecodeEachIff(text, BytesOf(chunks));
  }

  /** The call raises exactly when a chunk begins inside a character or some line raises. */
  lemma ExtractionRaisesIff(chunks: seq<Chunk>, text: string, parse: string -> Reading)
    requires Join(BytesOf(chunks)) == Encode(text)
    ensures Extracted(chunks, parse) == None
            <==> !CutsOnBoundaries(BytesOf(chunks))
                 || exists i :: 0 <= i < |Lines(text)| && LineReading(Lines(text)[i], parse) == Raises
  {
    ChunkingIsIrrelevantIff(chunks, text, parse);
    RaisesInLines(Lines(text), parse);
  }

  lemma RaisesInOne(line: string, parse: string -> Reading)
    ensures Raises in Kept(LineReading(line, parse)) <==> LineReading(line, parse) == Raises
  {
    hide LineReading;
  }

  lemma {:induction false} RaisesInLines(lines: seq<string>, parse: string -> Reading)
    ensures Raises in LineReadings(lines, parse)
            <==> exists i :: 0 <= i < |lines| && LineReading(lines[i], parse) == Raises
    decreases |lines|
  {
    hide LineReading, Kept;
    if lines != [] {
      var n := |lines| - 1;
      RaisesInLines(lines[..n], parse);
      RaisesInOne(lines[n], parse);
      assert forall i :: 0 <= i < n ==> lines[..n][i] == lines[i];
    }
  }

  /** A two-byte character cut in the middle. */
  lemma CutCharacterRaises()
    ensures Join([[0xC3], [0xA9]]) == Encode([0xE9 as char])
    ensures DecodeEach([[0xC3], [0xA9]]) == None
  {
    assert Join([[0xC3], [0xA9]]) == [0xC3] + Join([[0xA9]]);
    assert Join([[0xA9]]) == [0xA9] + Join([]);
    assert Lead([0xC3]) == None;
  }
}
