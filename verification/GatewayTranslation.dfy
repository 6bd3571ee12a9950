/** The two message translations of `gateway_anthropic_messages` in
  * backend/open_webui/external_api/router.py: an assistant's content blocks to a chat-completion
  * message, and a chat-completion message to content blocks.
  */
module GatewayTranslation {
  import opened Wrappers
  import opened Collections
  import opened Json
  import opened JsonTexts

  /** A content block; a missing field is `None`.  `Other` is everything the loop passes over. */
  datatype Block =
    | Text(text: Option<string>)
    | ToolUse(id: Option<string>, name: Option<string>, input: Option<Json>)
    | Other

  datatype Arguments = Missing | Printed(text: string) | Structured(value: Json)

  datatype Fn = Fn(name: Option<string>, arguments: Arguments)

  datatype ToolCall = ToolCall(id: Option<string>, fn: Option<Fn>)

  /** No `tool_calls` key and an empty list are read alike. */
  datatype Message = Message(content: Option<string>, toolCalls: seq<ToolCall>)

  /** `y` in place of a missing or empty text. */
  function Or(x: Option<string>, y: string): string {
    if x.Some? && x.value != "" then x.value else y
  }

  function OrEmpty(input: Option<Json>): Json {
    if input.Some? && Truthy(input.value) then input.value else Obj(map[])
  }

  // ---------- blocks to a message ----------

  function JoinedText(blocks: seq<Block>): string {
    if blocks == [] then ""
    else
      var last := blocks[|blocks| - 1];
      JoinedText(blocks[..|blocks| - 1]) + if last.Text? then Or(last.text, "") else ""
  }

  /** A block becomes a call; `millis` is the decimal time that fills in for a missing id. */
  function CallOf(json: JsonText, b: Block, millis: string): ToolCall
    requires b.ToolUse?
  {
    ToolCall(Some(Or(b.id, "toolu_" + millis)), Some(Fn(Some(Or(b.name, "")), Printed(json.dumps(OrEmpty(b.input))))))
  }

  function CallsOf(json: JsonText, blocks: seq<Block>, clock: seq<string>): seq<ToolCall>
    requires |clock| == |blocks|
  {
    if blocks == [] then []
    else
      var n := |blocks| - 1;
      CallsOf(json, blocks[..n], clock[..n]) + if blocks[n].ToolUse? then [CallOf(json, blocks[n], clock[n])] else []
  }

  /** What stands in a call for a tool use: its own id and name where it has them, and its input printed. */
  predicate StandsFor(json: JsonText, call: ToolCall, b: Block, millis: string) {
    && b.ToolUse? && call.id.Some? && call.fn.Some? && call.fn.value.name.Some?
    && (if b.id.Some? && b.id.value != "" then call.id == b.id else call.id == Some("toolu_" + millis))
    && (if b.name.Some? then call.fn.value.name == b.name else call.fn.value.name == Some(""))
    && call.fn.value.arguments
       == Printed(json.dumps(if b.input.Some? && Truthy(b.input.value) then b.input.value else Obj(map[])))
  }

  /** One call for each tool use, in order. */
  ghost predicate AreCalls(json: JsonText, blocks: seq<Block>, clock: seq<string>, calls: seq<ToolCall>, at: seq<nat>)
    requires |clock| == |blocks|
  {
    && |at| == |calls|
    && (forall i, j :: 0 <= i < j < |at| ==> at[i] < at[j])
    && (forall p :: p in at <==> 0 <= p < |blocks| && blocks[p].ToolUse?)
    && forall i :: 0 <= i < |at| ==> at[i] < |blocks| && StandsFor(json, calls[i], blocks[at[i]], clock[at[i]])
  }

  lemma {:induction false} CallsAt(json: JsonText, blocks: seq<Block>, clock: seq<string>) returns (at: seq<nat>)
    requires |clock| == |blocks|
    ensures AreCalls(json, blocks, clock, CallsOf(json, blocks, clock), at)
  {
    at := [];
    if blocks != [] {
      hide AreCalls, CallOf;
      var n := |blocks| - 1;
      at := CallsAt(json, blocks[..n], clock[..n]);
      OneMoreBlock(json, blocks, clock, CallsOf(json, blocks[..n], clock[..n]), at);
      if blocks[n].ToolUse? {
        at := at + [n];
      } else {
        assert CallsOf(json, blocks[..n], clock[..n]) + [] == CallsOf(json, blocks[..n], clock[..n]);
      }
    }
  }

  lemma CallStandsFor(json: JsonText, b: Block, millis: string)
    requires b.ToolUse?
    ensures StandsFor(json, CallOf(json, b, millis), b, millis)
  {
  }

  lemma OneMoreBlock(json: JsonText, blocks: seq<Block>, clock: seq<string>, calls: seq<ToolCall>, at: seq<nat>)
    requires |clock| == |blocks| && blocks != []
    requires var n := |blocks| - 1; AreCalls(json, blocks[..n], clock[..n], calls, at)
    ensures var n := |blocks| - 1;
      if blocks[n].ToolUse? then AreCalls(json, blocks, clock, calls + [CallOf(json, blocks[n], clock[n])], at + [n])
      else AreCalls(json, blocks, clock, calls, at)
  {
    hide StandsFor, CallOf;
    var n := |blocks| - 1;
    if blocks[n].ToolUse? {
      CallStandsFor(json, blocks[n], clock[n]);
    }
    assert forall i :: 0 <= i < n ==> blocks[..n][i] == blocks[i] && clock[..n][i] == clock[i];
  }

  /** The texts run on from one stretch of blocks to the next. */
  lemma {:induction false} TextRunsOn(a: seq<Block>, b: seq<Block>)
    ensures JoinedText(a + b) == JoinedText(a) + JoinedText(b)
    decreases |b|
  {
    hide Or;
    if b == [] {
      assert a + b == a;
    } else {
      var init, last := b[..|b| - 1], b[|b| - 1];
      TextRunsOn(a, init);
      assert (a + b)[..|a + b| - 1] == a + init && (a + b)[|a + b| - 1] == last;
      Associate(JoinedText(a), JoinedText(init), if last.Text? then Or(last.text, "") else "");
    }
  }

  lemma OneText(b: Block)
    ensures b.Text? && b.text.Some? ==> JoinedText([b]) == b.text.value
    ensures !b.Text? || b.text.None? ==> JoinedText([b]) == ""
  {
    assert [b][..0] == [];
  }

  method ToMessage(json: JsonText, blocks: seq<Block>, clock: seq<string>) returns (m: Message)
    requires |clock| == |blocks|
    ensures m == Message(Some(JoinedText(blocks)), CallsOf(json, blocks, clock))
    ensures exists at :: AreCalls(json, blocks, clock, m.toolCalls, at)
  {
    ghost var at := CallsAt(json, blocks, clock);
    hide AreCalls;
    var text, toolCalls := "", [];
    for n := 0 to |blocks|
      invariant text == JoinedText(blocks[..n])
      invariant toolCalls == CallsOf(json, blocks[..n], clock[..n])
    {
      assert blocks[..n + 1][..n] == blocks[..n] && clock[..n + 1][..n] == clock[..n];
      match blocks[n]
      case Text(t) =>
        text := text + Or(t, "");
      case ToolUse(id, name, input) =>
        var call := ToolCall(
          Some(Or(id, "toolu_" + clock[n])), Some(Fn(Some(Or(name, "")), Printed(json.dumps(OrEmpty(input))))));
        toolCalls := toolCalls + [call];
        assert text + "" == text;
      case Other =>
        assert text + "" == text;
    }
    assert blocks[..|blocks|] == blocks && clock[..|blocks|] == clock;
    m := Message(Some(text), toolCalls);
  }

  // ---------- a message to blocks ----------

  /** Text that does not parse is handed on under `_raw`. */
  function Parsed(json: JsonText, arguments: Arguments): Json {
    match arguments
    case Missing => LoadsOrRaw(json, "{}")
    case Printed(text) => LoadsOrRaw(json, if text != "" then text else "{}")
    case Structured(value) => if Truthy(value) then value else LoadsOrRaw(json, "{}")
  }

  function LoadsOrRaw(json: JsonText, text: string): Json {
    match json.loads(text)
    case Some(j) => j
    case None => Obj(map["_raw" := Str(text)])
  }

  function UseOf(json: JsonText, call: ToolCall): Block {
    var fn := match call.fn case Some(f) => f case None => Fn(None, Missing);
    ToolUse(Some(Or(call.id, "")), Some(Or(fn.name, "")), Some(Parsed(json, fn.arguments)))
  }

  function UsesOf(json: JsonText, calls: seq<ToolCall>): seq<Block> {
    if calls == [] then [] else UsesOf(json, calls[..|calls| - 1]) + [UseOf(json, calls[|calls| - 1])]
  }

  function TextBlock(content: Option<string>): seq<Block> {
    if content.Some? && content.value != "" then [Text(content)] else []
  }

  lemma UsesNext(json: JsonText, calls: seq<ToolCall>, n: nat)
    requires n < |calls|
    ensures UsesOf(json, calls[..n + 1]) == UsesOf(json, calls[..n]) + [UseOf(json, calls[n])]
  {
    hide UseOf;
    assert calls[..n + 1][..n] == calls[..n];
  }

  /** A tool use made of a call: its id and name or blanks, and its arguments as they are or as they parse,
    * those of a call without any as "{}" does; a text that does not parse is kept under `_raw`.
    */
  predicate MadeOf(json: JsonText, b: Block, call: ToolCall) {
    && b.ToolUse? && b.input.Some?
    && b.id == Some(if call.id.Some? then call.id.value else "")
    && b.name == Some(if call.fn.Some? && call.fn.value.name.Some? then call.fn.value.name.value else "")
    && var arguments := if call.fn.Some? then call.fn.value.arguments else Missing;
       if arguments.Structured? && Truthy(arguments.value) then b.input.value == arguments.value
       else
         var text := if arguments.Printed? && arguments.text != "" then arguments.text else "{}";
         && (json.loads(text).Some? ==> b.input == json.loads(text))
         && (json.loads(text).None? ==> b.input == Some(Obj(map["_raw" := Str(text)])))
  }

  /** The text, unless it is missing or empty, and then one tool use for each call, in order. */
  predicate AreBlocks(json: JsonText, m: Message, blocks: seq<Block>) {
    var head := if m.content.Some? && m.content.value != "" then 1 else 0;
    && |blocks| == head + |m.toolCalls|
    && (head == 1 ==> blocks[0] == Text(m.content))
    && forall i :: 0 <= i < |m.toolCalls| ==> MadeOf(json, blocks[head + i], m.toolCalls[i])
  }

  lemma {:induction false} UsesAt(json: JsonText, calls: seq<ToolCall>)
    ensures |UsesOf(json, calls)| == |calls|
    ensures forall i :: 0 <= i < |calls| ==> MadeOf(json, UsesOf(json, calls)[i], calls[i])
  {
    if calls != [] {
      UsesAt(json, calls[..|calls| - 1]);
    }
  }

  lemma TextThenUses(json: JsonText, m: Message)
    ensures AreBlocks(json, m, TextBlock(m.content) + UsesOf(json, m.toolCalls))
  {
    hide MadeOf, UsesOf;
    UsesAt(json, m.toolCalls);
  }

  method ToBlocks(json: JsonText, m: Message) returns (blocks: seq<Block>)
    ensures blocks == TextBlock(m.content) + UsesOf(json, m.toolCalls)
    ensures AreBlocks(json, m, blocks)
  {
    hide MadeOf, AreBlocks;
    TextThenUses(json, m);
    blocks := [];
    if m.content.Some? && m.content.value != "" {
      blocks := [Text(m.content)];
    }
    ghost var head := blocks;
    assert UsesOf(json, m.toolCalls[..0]) == [];
    hide UsesOf;
    for n := 0 to |m.toolCalls|
      invariant blocks == head + UsesOf(json, m.toolCalls[..n])
    {
      UsesNext(json, m.toolCalls, n);
      var call := m.toolCalls[n];
      var fn := match call.fn case Some(f) => f case None => Fn(None, Missing);
      var input;
      match fn.arguments {
        case Missing => input := LoadsOrRaw(json, "{}");
        case Printed(text) => input := LoadsOrRaw(json, if text == "" then "{}" else text);
        case Structured(value) => input := if Truthy(value) then value else LoadsOrRaw(json, "{}");
      }
      var use := ToolUse(Some(Or(call.id, "")), Some(Or(fn.name, "")), Some(input));
      Associate(head, UsesOf(json, m.toolCalls[..n]), [use]);
      blocks := blocks + [use];
    }
    assert m.toolCalls[..|m.toolCalls|] == m.toolCalls;
  }

  // ---------- there and back ----------

  function There(json: JsonText, blocks: seq<Block>, clock: seq<string>): Message
    requires |clock| == |blocks|
  {
    Message(Some(JoinedText(blocks)), CallsOf(json, blocks, clock))
  }

  function Back(json: JsonText, m: Message): seq<Block> {
    TextBlock(m.content) + UsesOf(json, m.toolCalls)
  }

  /** The tool uses with their defaults filled in. */
  function Filled(blocks: seq<Block>, clock: seq<string>): seq<Block>
    requires |clock| == |blocks|
  {
    if blocks == [] then []
    else
      var n := |blocks| - 1;
      var b := blocks[n];
      Filled(blocks[..n], clock[..n])
      + if b.ToolUse?
        then [ToolUse(Some(Or(b.id, "toolu_" + clock[n])), Some(Or(b.name, "")), Some(OrEmpty(b.input)))]
        else []
  }

  /** The joined text, if any, and then the tool uses: no JSON text in sight. */
  function Normal(blocks: seq<Block>, clock: seq<string>): seq<Block>
    requires |clock| == |blocks|
  {
    TextBlock(Some(JoinedText(blocks))) + Filled(blocks, clock)
  }

  lemma OneCall(json: JsonText, b: Block, millis: string)
    requires json.Valid() && b.ToolUse?
    ensures UseOf(json, CallOf(json, b, millis))
            == ToolUse(Some(Or(b.id, "toolu_" + millis)), Some(Or(b.name, "")), Some(OrEmpty(b.input)))
  {
    var printed := json.dumps(OrEmpty(b.input));
    assert json.loads(printed) == Some(OrEmpty(b.input));
    assert printed != "";
  }

  lemma {:induction false} CallsComeBack(json: JsonText, blocks: seq<Block>, clock: seq<string>)
    requires json.Valid() && |clock| == |blocks|
    ensures UsesOf(json, CallsOf(json, blocks, clock)) == Filled(blocks, clock)
  {
    if blocks != [] {
      var n := |blocks| - 1;
      CallsComeBack(json, blocks[..n], clock[..n]);
      var calls := CallsOf(json, blocks[..n], clock[..n]);
      if blocks[n].ToolUse? {
        OneCall(json, blocks[n], clock[n]);
        assert (calls + [CallOf(json, blocks[n], clock[n])])[..|calls|] == calls;
      } else {
        assert calls + [] == calls && Filled(blocks[..n], clock[..n]) + [] == Filled(blocks[..n], clock[..n]);
      }
    }
  }

  /** Every list of blocks comes back in normal form. */
  lemma RoundTrip(json: JsonText, blocks: seq<Block>, clock: seq<string>)
    requires json.Valid() && |clock| == |blocks|
    ensures Back(json, There(json, blocks, clock)) == Normal(blocks, clock)
  {
    CallsComeBack(json, blocks, clock);
  }

  function ToolUses(blocks: seq<Block>): seq<Block> {
    if blocks == [] then []
    else ToolUses(blocks[..|blocks| - 1]) + if blocks[|blocks| - 1].ToolUse? then [blocks[|blocks| - 1]] else []
  }

  /** A tool use that no `or` rewrites: an id that is not empty, a name, and an input that is an
    * empty object or true.
    */
  predicate Complete(b: Block) {
    b.ToolUse? ==>
      && b.id.Some? && b.id.value != "" && b.name.Some?
      && b.input.Some? && (Truthy(b.input.value) || b.input.value == Obj(map[]))
  }

  predicate AllComplete(blocks: seq<Block>) {
    forall i :: 0 <= i < |blocks| ==> Complete(blocks[i])
  }

  lemma {:induction false} FilledIsExactIff(blocks: seq<Block>, clock: seq<string>)
    requires |clock| == |blocks|
    ensures |Filled(blocks, clock)| == |ToolUses(blocks)|
    ensures Filled(blocks, clock) == ToolUses(blocks) <==> AllComplete(blocks)
  {
    if blocks != [] {
      var n := |blocks| - 1;
      FilledIsExactIff(blocks[..n], clock[..n]);
      assert AllComplete(blocks) <==> AllComplete(blocks[..n]) && Complete(blocks[n]) by {
        assert forall i :: 0 <= i < n ==> blocks[..n][i] == blocks[i];
      }
      var f, t := Filled(blocks[..n], clock[..n]), ToolUses(blocks[..n]);
      if blocks[n].ToolUse? {
        assert Filled(blocks, clock)[..|f|] == f && ToolUses(blocks)[..|t|] == t;
        assert Filled(blocks, clock)[|f|] == blocks[n] <==> Complete(blocks[n]);
      } else {
        assert f + [] == f && t + [] == t;
      }
    }
  }

  lemma {:induction false} FilledIsToolUses(blocks: seq<Block>, clock: seq<string>)
    requires |clock| == |blocks|
    ensures ToolUses(Filled(blocks, clock)) == Filled(blocks, clock)
  {
    if blocks != [] {
      var n := |blocks| - 1;
      FilledIsToolUses(blocks[..n], clock[..n]);
      var f := Filled(blocks[..n], clock[..n]);
      if blocks[n].ToolUse? {
        assert Filled(blocks, clock)[..|f|] == f;
      } else {
        assert f + [] == f;
      }
    }
  }

  lemma {:induction false} ToolUsesAfterText(head: seq<Block>, tail: seq<Block>)
    requires forall b :: b in head ==> !b.ToolUse?
    ensures ToolUses(head + tail) == ToolUses(tail)
    decreases |head| + |tail|
  {
    if tail != [] {
      var n := |tail| - 1;
      assert (head + tail)[..|head| + n] == head + tail[..n];
      ToolUsesAfterText(head, tail[..n]);
    } else if head != [] {
      var n := |head| - 1;
      assert head + tail == head && head[..n] + [] == head[..n];
      ToolUsesAfterText(head[..n], []);
    }
  }

  /** The tool uses come back unchanged, in order, exactly when each of them is complete. */
  lemma ToolUsesSurviveIff(json: JsonText, blocks: seq<Block>, clock: seq<string>)
    requires json.Valid() && |clock| == |blocks|
    ensures ToolUses(Back(json, There(json, blocks, clock))) == ToolUses(blocks) <==> AllComplete(blocks)
  {
    RoundTrip(json, blocks, clock);
    ToolUsesAfterText(TextBlock(Some(JoinedText(blocks))), Filled(blocks, clock));
    FilledIsToolUses(blocks, clock);
    FilledIsExactIff(blocks, clock);
  }

  /** Blocks already in normal form: at most one text, not empty and in front, and complete tool uses. */
  predicate IsNormal(blocks: seq<Block>) {
    && AllComplete(blocks)
    && (forall i :: 0 <= i < |blocks| ==>
          blocks[i].ToolUse? || (i == 0 && blocks[i].Text? && Or(blocks[i].text, "") != ""))
  }

  lemma {:induction false} FilledIsComplete(blocks: seq<Block>, clock: seq<string>)
    requires |clock| == |blocks|
    ensures forall b :: b in Filled(blocks, clock) ==> b.ToolUse? && Complete(b)
  {
    if blocks != [] {
      FilledIsComplete(blocks[..|blocks| - 1], clock[..|blocks| - 1]);
    }
  }

  /** What comes back is normal. */
  lemma BackIsNormal(json: JsonText, blocks: seq<Block>, clock: seq<string>)
    requires json.Valid() && |clock| == |blocks|
    ensures IsNormal(Back(json, There(json, blocks, clock)))
  {
    RoundTrip(json, blocks, clock);
    FilledIsComplete(blocks, clock);
    var head, tail := TextBlock(Some(JoinedText(blocks))), Filled(blocks, clock);
    forall i | 0 <= i < |head + tail|
      ensures i >= |head| ==> (head + tail)[i] in tail
    {
      assert i >= |head| ==> (head + tail)[i] == tail[i - |head|];
    }
  }

  lemma Snoc(init: seq<Block>, last: Block)
    ensures JoinedText(init + [last]) == JoinedText(init) + if last.Text? then Or(last.text, "") else ""
    ensures ToolUses(init + [last]) == ToolUses(init) + if last.ToolUse? then [last] else []
  {
    assert (init + [last])[..|init|] == init;
  }

  lemma NoBlocks()
    ensures JoinedText([]) == "" && ToolUses([]) == []
  {
  }

  lemma {:induction false} NormalParts(blocks: seq<Block>)
    requires IsNormal(blocks)
    ensures TextBlock(Some(JoinedText(blocks))) + ToolUses(blocks) == blocks
    decreases |blocks|
  {
    hide JoinedText, ToolUses;
    NoBlocks();
    if blocks != [] {
      var n := |blocks| - 1;
      var init, last := blocks[..n], blocks[n];
      assert blocks == init + [last];
      assert forall i :: 0 <= i < n ==> init[i] == blocks[i];
      NormalParts(init);
      Snoc(init, last);
      if last.ToolUse? {
        assert JoinedText(init) + "" == JoinedText(init);
        Associate(TextBlock(Some(JoinedText(init))), ToolUses(init), [last]);
      } else {
        assert init == [] && "" + last.text.value == last.text.value;
      }
    }
  }

  /** Normal forms, and only they, are fixed points of the round trip. */
  lemma FixedIff(json: JsonText, blocks: seq<Block>, clock: seq<string>)
    requires json.Valid() && |clock| == |blocks|
    ensures Back(json, There(json, blocks, clock)) == blocks <==> IsNormal(blocks)
  {
    RoundTrip(json, blocks, clock);
    BackIsNormal(json, blocks, clock);
    if IsNormal(blocks) {
      NormalParts(blocks);
      FilledIsExactIff(blocks, clock);
    }
  }
}
