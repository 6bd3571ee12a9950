/** backend/open_webui/haloclaw/tool_executor.py: `execute_tool_loop`. The model, the tools and
  * the two text analyses (JSON, inline images) are parameters.
  */
module ToolLoop {
  import opened Collections
  import opened Wrappers

  datatype ToolCall = ToolCall(id: string, name: string, arguments: string)

  datatype Entry =
    | Other(role: string, text: string)
    | Assistant(content: Option<string>, calls: seq<ToolCall>)
    | ToolResult(callId: string, text: string)

  /** How one completion request ends. */
  datatype Reply =
    | ApiError(detail: string)
    | NoMessage
    | Answer(content: Option<string>, calls: seq<ToolCall>)

  /** How a tool's callable ends; a result that is not a string is dumped to one. */
  datatype ToolOutcome = Returned(text: string) | Raised(reason: string)

  /** What `json.loads` makes of a `generate_image` result, as far as images go. */
  datatype ImageData = ImageList(items: seq<ImageItem>) | ImageDict(url: string, imageUrl: string) | NoImages

  datatype ImageItem = DictItem(url: string, imageUrl: string) | TextItem(text: string) | OtherItem

  datatype Env<!A> = Env(
    complete: (nat, seq<Entry>) -> Reply,           // the reply to the request of a round
    tools: map<string, (nat, A) -> ToolOutcome>,   // the outcome when so many messages are there
    parseArguments: string -> Option<A>,
    noArguments: A,
    imageData: string -> ImageData,
    inlineImages: string -> (Option<string>, seq<string>))

  datatype DispatcherResult = DispatcherResult(text: Option<string>, images: seq<string>, error: Option<string>)

  const IMAGE_TOOL: string := "generate_image"
  const APOLOGY: string := "\U{62B1}\U{6B49}\U{FF0C}\U{6211}\U{65E0}\U{6CD5}\U{5B8C}\U{6210}\U{8FD9}\U{4E2A}\U{8BF7}\U{6C42}\U{3002}"

  function Urls(url: string, imageUrl: string): seq<string> {
    if url != "" then [url] else if imageUrl != "" then [imageUrl] else []
  }

  function ItemImages(item: ImageItem): seq<string> {
    match item
    case DictItem(url, imageUrl) => Urls(url, imageUrl)
    case TextItem(s) => if StartsWith(s, "http") || StartsWith(s, "data:") then [s] else []
    case OtherItem => []
  }

  function ItemsImages(items: seq<ImageItem>): seq<string> {
    if items == [] then [] else ItemsImages(items[..|items| - 1]) + ItemImages(items[|items| - 1])
  }

  function DataImages(data: ImageData): seq<string> {
    match data
    case ImageList(items) => ItemsImages(items)
    case ImageDict(url, imageUrl) => Urls(url, imageUrl)
    case NoImages => []
  }

  /** What a call answers when the message list is `at` long.  The list grows with every call, so no two
    * calls of a run share a position, and a tool may answer equal calls differently.
    */
  function RunTool<A>(env: Env<A>, at: nat, call: ToolCall): string {
    if call.name !in env.tools then "Error: tool '" + call.name + "' not found"
    else
      var arguments := match env.parseArguments(call.arguments)
                       case None => env.noArguments
                       case Some(a) => a;
      match env.tools[call.name](at, arguments)
      case Returned(text) => text
      case Raised(reason) => "Error executing " + call.name + ": " + reason
  }

  function CallImages<A>(env: Env<A>, at: nat, call: ToolCall): seq<string> {
    if call.name == IMAGE_TOOL then DataImages(env.imageData(RunTool(env, at, call))) else []
  }

  /** One tool message per call, same ids, same order, the first at position `at`. */
  function Results<A>(env: Env<A>, at: nat, calls: seq<ToolCall>): (r: seq<Entry>)
    ensures |r| == |calls|
  {
    seq(|calls|, i requires 0 <= i < |calls| => ToolResult(calls[i].id, RunTool(env, at + i, calls[i])))
  }

  function Images<A>(env: Env<A>, at: nat, calls: seq<ToolCall>): seq<string> {
    if calls == [] then []
    else
      var n := |calls| - 1;
      Images(env, at, calls[..n]) + CallImages(env, at + n, calls[n])
  }

  datatype Run = Run(history: seq<Entry>, result: DispatcherResult, requests: nat)

  function Text(last: Option<string>): string {
    match last
    case None => ""
    case Some(s) => s
  }

  /** `content` replaces the last text unless it is empty. */
  function NextText(last: Option<string>, content: Option<string>): Option<string> {
    if content.Some? && content.value != "" then content else last
  }

  function Done<A>(env: Env<A>, images: seq<string>, last: Option<string>): DispatcherResult {
    var (clean, inline) := env.inlineImages(Text(last));
    DispatcherResult(clean, images + inline, None)
  }

  /** The end after the last round or an unreadable reply. */
  function Exhausted<A>(env: Env<A>, images: seq<string>, last: Option<string>): DispatcherResult {
    var (clean, inline) := env.inlineImages(Text(last));
    DispatcherResult(if Text(clean) != "" then clean else Some(APOLOGY), images + inline, None)
  }

  function Loop<A>(
    env: Env<A>, history: seq<Entry>, images: seq<string>, last: Option<string>, round: nat, maxRounds: int
  ): Run
    decreases maxRounds - round
  {
    if round >= maxRounds then Run(history, Exhausted(env, images, last), round)
    else
      match env.complete(round, history)
      case ApiError(detail) => Run(history, DispatcherResult(None, [], Some(detail)), round + 1)
      case NoMessage => Run(history, Exhausted(env, images, last), round + 1)
      case Answer(content, calls) =>
        var text := NextText(last, content);
        if calls == [] then Run(history, Done(env, images, text), round + 1)
        else
          Loop(env, history + [Assistant(content, calls)] + Results(env, |history| + 1, calls),
               images + Images(env, |history| + 1, calls), text, round + 1, maxRounds)
  }

  /** The request payload, whose message list the loop appends to. */
  class FormData {
    var messages: seq<Entry>

    constructor (history: seq<Entry>)
      ensures messages == history
    {
      messages := history;
    }
  }

  method CollectImages(data: ImageData, images: seq<string>) returns (collected: seq<string>)
    ensures collected == images + DataImages(data)
  {
    collected := images;
    match data {
      case ImageList(items) =>
        for i := 0 to |items|
          invariant collected == images + ItemsImages(items[..i])
        {
          assert items[..i + 1][..i] == items[..i];
          collected := collected + ItemImages(items[i]);
        }
        assert items[..|items|] == items;
      case ImageDict(url, imageUrl) =>
        collected := collected + Urls(url, imageUrl);
      case NoImages =>
    }
  }

  lemma CallStep<A>(env: Env<A>, at: nat, calls: seq<ToolCall>, i: nat)
    requires i < |calls|
    ensures Results(env, at, calls[..i + 1])
            == Results(env, at, calls[..i]) + [ToolResult(calls[i].id, RunTool(env, at + i, calls[i]))]
    ensures Images(env, at, calls[..i + 1]) == Images(env, at, calls[..i]) + CallImages(env, at + i, calls[i])
  {
    assert calls[..i + 1][..i] == calls[..i];
  }

  /** Run one call, keep its images, append its result. */
  method RunCall<A>(env: Env<A>, form: FormData, call: ToolCall, images: seq<string>) returns (collected: seq<string>)
    modifies form
    ensures form.messages == old(form.messages) + [ToolResult(call.id, RunTool(env, |old(form.messages)|, call))]
    ensures collected == images + CallImages(env, |old(form.messages)|, call)
  {
    var result := RunTool(env, |form.messages|, call);
    collected := images;
    if call.name == IMAGE_TOOL {
      collected := CollectImages(env.imageData(result), collected);
    }
    form.messages := form.messages + [ToolResult(call.id, result)];
  }

  /** The next call of one message. */
  method RunNext<A>(
    env: Env<A>, form: FormData, calls: seq<ToolCall>, i: nat, images: seq<string>,
    ghost before: seq<Entry>, ghost held: seq<string>
  )
    returns (collected: seq<string>)
    requires i < |calls| && form.messages == before + Results(env, |before|, calls[..i])
    requires images == held + Images(env, |before|, calls[..i])
    modifies form
    ensures form.messages == before + Results(env, |before|, calls[..i + 1])
    ensures collected == held + Images(env, |before|, calls[..i + 1])
  {
    hide Results, Images, RunTool, CallImages;
    CallStep(env, |before|, calls, i);
    collected := RunCall(env, form, calls[i], images);
    Associate(before, Results(env, |before|, calls[..i]),
              [ToolResult(calls[i].id, RunTool(env, |before| + i, calls[i]))]);
    Associate(held, Images(env, |before|, calls[..i]), CallImages(env, |before| + i, calls[i]));
  }

  /** The inner loop over the calls of one message. */
  method RunCalls<A>(env: Env<A>, form: FormData, calls: seq<ToolCall>, images: seq<string>)
    returns (collected: seq<string>)
    modifies form
    ensures form.messages == old(form.messages) + Results(env, |old(form.messages)|, calls)
    ensures collected == images + Images(env, |old(form.messages)|, calls)
  {
    ghost var before := form.messages;
    collected := images;
    for i := 0 to |calls|
      invariant form.messages == before + Results(env, |before|, calls[..i])
      invariant collected == images + Images(env, |before|, calls[..i])
    {
      collected := RunNext(env, form, calls, i, collected, before, images);
    }
    assert calls[..|calls|] == calls;
  }

  method ExecuteToolLoop<A>(env: Env<A>, form: FormData, maxRounds: int)
    returns (result: DispatcherResult, ghost requests: nat)
    modifies form
    ensures Run(form.messages, result, requests) == Loop(env, old(form.messages), [], None, 0, maxRounds)
  {
    hide Results, Images;
    var images: seq<string> := [];
    var last: Option<string> := None;
    requests := 0;
    var round := 0;
    while round < maxRounds
      invariant 0 <= round && requests == round
      invariant Loop(env, form.messages, images, last, round, maxRounds)
                == Loop(env, old(form.messages), [], None, 0, maxRounds)
    {
      var reply := env.complete(round, form.messages);
      requests := requests + 1;
      if reply.ApiError? {
        return DispatcherResult(None, [], Some(reply.detail)), requests;
      }
      if reply.NoMessage? {
        break;
      }
      if reply.content.Some? && reply.content.value != "" {
        last := reply.content;
      }
      if reply.calls == [] {
        var (clean, inline) := env.inlineImages(Text(last));
        return DispatcherResult(clean, images + inline, None), requests;
      }
      form.messages := form.messages + [Assistant(reply.content, reply.calls)];
      images := RunCalls(env, form, reply.calls, images);
      round := round + 1;
    }
    var (clean, inline) := env.inlineImages(Text(last));
    result := DispatcherResult(if Text(clean) != "" then clean else Some(APOLOGY), images + inline, None);
  }

  // ---------- what every run keeps ----------

  /** `entries`, which start at position `at`, are rounds: an assistant message with calls, then exactly
    * one result per call, ids and order kept and each the outcome of its own call at its own position.
    */
  predicate Rounds<A>(env: Env<A>, at: nat, entries: seq<Entry>)
    decreases |entries|
  {
    entries == [] ||
    (&& entries[0].Assistant?
     && var calls := entries[0].calls;
        && calls != []
        && |entries| > |calls|
        && entries[1..1 + |calls|] == Results(env, at + 1, calls)
        && Rounds(env, at + 1 + |calls|, entries[1 + |calls|..]))
  }

  /** The images of the tool results, in call order. */
  function ToolImages<A>(env: Env<A>, at: nat, entries: seq<Entry>): seq<string>
    decreases |entries|
  {
    if entries == [] then []
    else
      (if entries[0].Assistant? then Images(env, at + 1, entries[0].calls) else [])
      + ToolImages(env, at + 1, entries[1..])
  }

  lemma {:induction false} ToolImagesOfResults<A>(env: Env<A>, at: nat, entries: seq<Entry>, rest: seq<Entry>)
    requires forall i :: 0 <= i < |entries| ==> entries[i].ToolResult?
    ensures ToolImages(env, at, entries + rest) == ToolImages(env, at + |entries|, rest)
    decreases |entries|
  {
    if entries == [] {
      assert entries + rest == rest;
    } else {
      assert (entries + rest)[1..] == entries[1..] + rest;
      ToolImagesOfResults(env, at + 1, entries[1..], rest);
    }
  }

  lemma ResultsAreResults<A>(env: Env<A>, at: nat, calls: seq<ToolCall>)
    ensures forall i :: 0 <= i < |calls| ==> Results(env, at, calls)[i].ToolResult?
  {
  }

  lemma Parts<T>(head: T, middle: seq<T>, rest: seq<T>)
    ensures
      var all := [head] + middle + rest;
      && |all| == 1 + |middle| + |rest| && all[0] == head
      && all[1..1 + |middle|] == middle && all[1 + |middle|..] == rest && all[1..] == middle + rest
  {
  }

  /** One more round in front. */
  lemma RoundThenRest<A>(env: Env<A>, at: nat, content: Option<string>, calls: seq<ToolCall>, rest: seq<Entry>)
    requires calls != [] && Rounds(env, at + 1 + |calls|, rest)
    ensures Rounds(env, at, [Assistant(content, calls)] + Results(env, at + 1, calls) + rest)
  {
    hide Results;
    Parts(Assistant(content, calls), Results(env, at + 1, calls), rest);
  }

  lemma ImagesOfHead<A>(env: Env<A>, at: nat, head: Entry, tail: seq<Entry>)
    requires head.Assistant?
    ensures ToolImages(env, at, [head] + tail) == Images(env, at + 1, head.calls) + ToolImages(env, at + 1, tail)
  {
    hide Images;
    assert ([head] + tail)[1..] == tail;
  }

  lemma ImagesThenRest<A>(env: Env<A>, at: nat, content: Option<string>, calls: seq<ToolCall>, rest: seq<Entry>)
    ensures ToolImages(env, at, [Assistant(content, calls)] + Results(env, at + 1, calls) + rest)
            == Images(env, at + 1, calls) + ToolImages(env, at + 1 + |calls|, rest)
  {
    ResultsAreResults(env, at + 1, calls);
    var head, results := Assistant(content, calls), Results(env, at + 1, calls);
    ImagesOfHead(env, at, head, results + rest);
    hide Results, Images, ToolImages;
    Associate([head], results, rest);
    ToolImagesOfResults(env, at + 1, results, rest);
  }

  /** What is returned when the tools collected `images` and `text` was the last text. */
  predicate Finish<A>(env: Env<A>, result: DispatcherResult, images: seq<string>, text: Option<string>) {
    var (clean, inline) := env.inlineImages(Text(text));
    if result.error != None then result.images == [] && result.text == None
    else
      && result.images == images + inline
      && (result.text == clean || (Text(clean) == "" && result.text == Some(APOLOGY)))
  }

  /** How a run that ends in `run` relates to the state it went on from: `added` is what it
    * appended, `text` the last text it saw.
    */
  predicate Keeps<A>(
    env: Env<A>, history: seq<Entry>, images: seq<string>, run: Run, added: seq<Entry>, text: Option<string>
  ) {
    && run.history == history + added && Rounds(env, |history|, added)
    && Finish(env, run.result, images + ToolImages(env, |history|, added), text)
  }

  lemma KeepsLater<A>(
    env: Env<A>, history: seq<Entry>, images: seq<string>, run: Run, content: Option<string>, calls: seq<ToolCall>,
    rest: seq<Entry>, text: Option<string>
  )
    requires calls != []
    requires
      var results := Results(env, |history| + 1, calls);
      Keeps(env, history + [Assistant(content, calls)] + results,
            images + Images(env, |history| + 1, calls), run, rest, text)
    ensures
      var block := [Assistant(content, calls)] + Results(env, |history| + 1, calls);
      Keeps(env, history, images, run, block + rest, text)
  {
    var at := |history|;
    var results, found := Results(env, at + 1, calls), Images(env, at + 1, calls);
    RoundThenRest(env, at, content, calls, rest);
    ImagesThenRest(env, at, content, calls, rest);
    var block := [Assistant(content, calls)] + results;
    assert history + [Assistant(content, calls)] + results == history + block by {
      Associate(history, [Assistant(content, calls)], results);
    }
    assert run.history == history + (block + rest) by {
      Associate(history, block, rest);
    }
    assert (images + found) + ToolImages(env, at + 1 + |calls|, rest) == images + ToolImages(env, at, block + rest) by {
      Associate(images, found, ToolImages(env, at + 1 + |calls|, rest));
    }
  }

  /** The text a run ends on: the last answer's that is not empty. */
  function LastText<A>(
    env: Env<A>, history: seq<Entry>, last: Option<string>, round: nat, maxRounds: int
  ): Option<string>
    decreases maxRounds - round
  {
    if round >= maxRounds then last
    else
      match env.complete(round, history)
      case Answer(content, calls) =>
        if calls == [] then NextText(last, content)
        else
          LastText(env, history + [Assistant(content, calls)] + Results(env, |history| + 1, calls),
                   NextText(last, content), round + 1, maxRounds)
      case _ => last
  }

  lemma {:induction false} LoopKeeps<A>(
    env: Env<A>, history: seq<Entry>, images: seq<string>, last: Option<string>, round: nat, maxRounds: int
  )
    returns (added: seq<Entry>)
    ensures Keeps(env, history, images, Loop(env, history, images, last, round, maxRounds), added,
                  LastText(env, history, last, round, maxRounds))
    decreases maxRounds - round
  {
    added := [];
    if round < maxRounds && env.complete(round, history).Answer? && env.complete(round, history).calls != [] {
      var Answer(content, calls) := env.complete(round, history);
      var next := history + [Assistant(content, calls)] + Results(env, |history| + 1, calls);
      var found := Images(env, |history| + 1, calls);
      var rest := LoopKeeps(env, next, images + found, NextText(last, content), round + 1, maxRounds);
      KeepsLater(env, history, images, Loop(env, history, images, last, round, maxRounds), content, calls, rest,
                 LastText(env, history, last, round, maxRounds));
      added := [Assistant(content, calls)] + Results(env, |history| + 1, calls) + rest;
    } else {
      assert history + [] == history && images + [] == images;
    }
  }

  // ---------- the run, request by request ----------

  /** The replies to the requests, and the message list at each of them and at the end. */
  datatype Trace = Trace(replies: seq<Reply>, histories: seq<seq<Entry>>)

  predicate GoesOn(r: Reply) {
    r.Answer? && r.calls != []
  }

  /** The reply's message, and one result per call, each the outcome of its own call at its own position. */
  predicate IsRound<A>(env: Env<A>, before: seq<Entry>, reply: Reply, after: seq<Entry>) {
    && reply.Answer?
    && |after| == |before| + 1 + |reply.calls|
    && before <= after && after[|before|] == Assistant(reply.content, reply.calls)
    && forall k :: 0 <= k < |reply.calls| ==>
         var at := |before| + 1 + k;
         after[at] == ToolResult(reply.calls[k].id, RunTool(env, at, reply.calls[k]))
  }

  /** The loop goes on exactly as long as there are calls and rounds left. */
  predicate IsTrace<A>(env: Env<A>, history: seq<Entry>, round: nat, maxRounds: int, run: Run, t: Trace) {
    var n := |t.replies|;
    && |t.histories| == n + 1 && t.histories[0] == history && t.histories[n] == run.history
    && run.requests == round + n
    && (forall i :: 0 <= i < n ==> round + i < maxRounds && t.replies[i] == env.complete(round + i, t.histories[i]))
    && (forall i :: 0 <= i < n && GoesOn(t.replies[i]) ==>
          IsRound(env, t.histories[i], t.replies[i], t.histories[i + 1]))
    && (forall i :: 0 <= i < n && !GoesOn(t.replies[i]) ==> i == n - 1 && t.histories[n] == t.histories[i])
    && (n == 0 || GoesOn(t.replies[n - 1]) ==> round + n >= maxRounds)
  }

  predicate Spoken(r: Reply) {
    r.Answer? && r.content.Some? && r.content.value != ""
  }

  /** The text of the last reply that has any; the one before, if none has. */
  predicate LastSpoken(replies: seq<Reply>, before: Option<string>, text: Option<string>) {
    || ((forall i :: 0 <= i < |replies| ==> !Spoken(replies[i])) && text == before)
    || exists i :: 0 <= i < |replies| && Spoken(replies[i]) && text == replies[i].content
                   && forall j :: i < j < |replies| ==> !Spoken(replies[j])
  }

  /** An error is reported alone; an answer without calls as it is, even if nothing is left of it; and an end
    * without an answer by its last text, or an apology.
    */
  predicate Reports<A>(env: Env<A>, result: DispatcherResult, replies: seq<Reply>, text: Option<string>) {
    var clean := env.inlineImages(Text(text)).0;
    var apology := if Text(clean) != "" then clean else Some(APOLOGY);
    if replies == [] then result.error == None && result.text == apology
    else
      match replies[|replies| - 1]
      case ApiError(detail) => result == DispatcherResult(None, [], Some(detail))
      case NoMessage => result.error == None && result.text == apology
      case Answer(_, calls) => result.error == None && result.text == if calls == [] then clean else apology
  }

  lemma RoundOfLoop<A>(env: Env<A>, history: seq<Entry>, content: Option<string>, calls: seq<ToolCall>)
    ensures IsRound(env, history, Answer(content, calls),
                    history + [Assistant(content, calls)] + Results(env, |history| + 1, calls))
  {
  }

  lemma SpokenLater(first: Reply, replies: seq<Reply>, before: Option<string>, text: Option<string>)
    requires first.Answer? && LastSpoken(replies, NextText(before, first.content), text)
    ensures LastSpoken([first] + replies, before, text)
  {
    var all := [first] + replies;
    assert forall i :: 0 <= i < |replies| ==> all[i + 1] == replies[i];
    if i :| 0 <= i < |replies| && Spoken(replies[i]) && text == replies[i].content
            && forall j :: i < j < |replies| ==> !Spoken(replies[j]) {
      assert Spoken(all[i + 1]) && text == all[i + 1].content;
    } else if Spoken(first) {
      assert Spoken(all[0]) && text == all[0].content;
    }
  }

  lemma TracedLater<A>(
    env: Env<A>, history: seq<Entry>, round: nat, maxRounds: int, run: Run, reply: Reply, next: seq<Entry>, t: Trace
  )
    requires round < maxRounds && reply == env.complete(round, history) && GoesOn(reply)
    requires IsRound(env, history, reply, next) && IsTrace(env, next, round + 1, maxRounds, run, t)
    ensures IsTrace(env, history, round, maxRounds, run, Trace([reply] + t.replies, [history] + t.histories))
  {
    hide IsRound;
    var replies, histories := [reply] + t.replies, [history] + t.histories;
    assert forall i :: 0 < i < |replies| ==> replies[i] == t.replies[i - 1];
    assert forall i :: 0 < i < |histories| ==> histories[i] == t.histories[i - 1];
  }

  lemma ReportsLater<A>(
    env: Env<A>, result: DispatcherResult, first: Reply, replies: seq<Reply>, text: Option<string>
  )
    requires GoesOn(first) && Reports(env, result, replies, text)
    ensures Reports(env, result, [first] + replies, text)
  {
  }

  /** One more round of the loop. */
  lemma LoopGoesOn<A>(
    env: Env<A>, history: seq<Entry>, images: seq<string>, last: Option<string>, round: nat, maxRounds: int
  )
    requires round < maxRounds && GoesOn(env.complete(round, history))
    ensures
      var reply := env.complete(round, history);
      var next := history + [Assistant(reply.content, reply.calls)] + Results(env, |history| + 1, reply.calls);
      var found, text := images + Images(env, |history| + 1, reply.calls), NextText(last, reply.content);
      && Loop(env, history, images, last, round, maxRounds) == Loop(env, next, found, text, round + 1, maxRounds)
      && LastText(env, history, last, round, maxRounds) == LastText(env, next, text, round + 1, maxRounds)
  {
  }

  lemma LoopEnds<A>(
    env: Env<A>, history: seq<Entry>, images: seq<string>, last: Option<string>, round: nat, maxRounds: int
  )
    returns (t: Trace)
    requires round >= maxRounds || !GoesOn(env.complete(round, history))
    ensures
      var run := Loop(env, history, images, last, round, maxRounds);
      var text := LastText(env, history, last, round, maxRounds);
      && IsTrace(env, history, round, maxRounds, run, t)
      && LastSpoken(t.replies, last, text) && Reports(env, run.result, t.replies, text)
  {
    if round >= maxRounds {
      t := Trace([], [history]);
    } else {
      var reply := env.complete(round, history);
      t := Trace([reply], [history, history]);
      assert Spoken(reply) ==> Spoken(t.replies[0]);
    }
  }

  /** What the loop does, however its replies were come by. */
  lemma {:induction false} LoopIsTraced<A>(
    env: Env<A>, history: seq<Entry>, images: seq<string>, last: Option<string>, round: nat, maxRounds: int
  )
    returns (t: Trace)
    ensures
      var run := Loop(env, history, images, last, round, maxRounds);
      var text := LastText(env, history, last, round, maxRounds);
      && IsTrace(env, history, round, maxRounds, run, t)
      && LastSpoken(t.replies, last, text) && Reports(env, run.result, t.replies, text)
    decreases maxRounds - round
  {
    hide IsRound, IsTrace, LastSpoken, Reports, Results, Images, Loop, LastText, NextText;
    var reply := env.complete(round, history);
    if round >= maxRounds || !GoesOn(reply) {
      t := LoopEnds(env, history, images, last, round, maxRounds);
    } else {
      LoopGoesOn(env, history, images, last, round, maxRounds);
      var next := history + [Assistant(reply.content, reply.calls)] + Results(env, |history| + 1, reply.calls);
      var found, said := images + Images(env, |history| + 1, reply.calls), NextText(last, reply.content);
      var rest := LoopIsTraced(env, next, found, said, round + 1, maxRounds);
      var run := Loop(env, next, found, said, round + 1, maxRounds);
      var text := LastText(env, next, said, round + 1, maxRounds);
      RoundOfLoop(env, history, reply.content, reply.calls);
      TracedLater(env, history, round, maxRounds, run, reply, next, rest);
      SpokenLater(reply, rest.replies, last, text);
      ReportsLater(env, run.result, reply, rest.replies, text);
      t := Trace([reply] + rest.replies, [history] + rest.histories);
    }
  }

  lemma {:induction false} RequestBound<A>(
    env: Env<A>, history: seq<Entry>, images: seq<string>, last: Option<string>, round: nat, maxRounds: int
  )
    requires round <= maxRounds
    ensures round <= Loop(env, history, images, last, round, maxRounds).requests <= maxRounds
    decreases maxRounds - round
  {
    if round < maxRounds && env.complete(round, history).Answer? && env.complete(round, history).calls != [] {
      var Answer(content, calls) := env.complete(round, history);
      RequestBound(env, history + [Assistant(content, calls)] + Results(env, |history| + 1, calls),
                   images + Images(env, |history| + 1, calls), NextText(last, content), round + 1, maxRounds);
    }
  }

  // ---------- images, part by part ----------

  lemma {:induction false} ItemsRunOn(a: seq<ImageItem>, b: seq<ImageItem>)
    ensures ItemsImages(a + b) == ItemsImages(a) + ItemsImages(b)
    decreases |b|
  {
    if b == [] {
      assert a + b == a;
    } else {
      var init, last := b[..|b| - 1], b[|b| - 1];
      ItemsRunOn(a, init);
      assert (a + b)[..|a + b| - 1] == a + init && (a + b)[|a + b| - 1] == last;
      Associate(ItemsImages(a), ItemsImages(init), ItemImages(last));
    }
  }

  lemma OneItem(item: ImageItem)
    ensures ItemsImages([item]) == ItemImages(item)
  {
    assert [item][..0] == [];
  }

  lemma {:induction false} ImagesRunOn<A>(env: Env<A>, at: nat, a: seq<ToolCall>, b: seq<ToolCall>)
    ensures Images(env, at, a + b) == Images(env, at, a) + Images(env, at + |a|, b)
    decreases |b|
  {
    hide CallImages;
    if b == [] {
      assert a + b == a;
    } else {
      var init, last := b[..|b| - 1], b[|b| - 1];
      ImagesRunOn(env, at, a, init);
      assert (a + b)[..|a + b| - 1] == a + init && (a + b)[|a + b| - 1] == last;
      Associate(Images(env, at, a), Images(env, at + |a|, init), CallImages(env, at + |a| + |init|, last));
    }
  }

  lemma OneCall<A>(env: Env<A>, at: nat, call: ToolCall)
    ensures Images(env, at, [call]) == CallImages(env, at, call)
  {
    assert [call][..0] == [];
  }

  /** An item brings at most one image, its `url` before its `image_url`, and a text only if it looks like one. */
  lemma ImagesOfItems(url: string, imageUrl: string, text: string)
    ensures url != "" ==> ItemImages(DictItem(url, imageUrl)) == [url] == DataImages(ImageDict(url, imageUrl))
    ensures imageUrl != "" ==> ItemImages(DictItem("", imageUrl)) == [imageUrl] == DataImages(ImageDict("", imageUrl))
    ensures ItemImages(DictItem("", "")) == [] == DataImages(ImageDict("", "")) && ItemImages(OtherItem) == []
    ensures ItemImages(TextItem("http" + text)) == ["http" + text]
    ensures ItemImages(TextItem("data:" + text)) == ["data:" + text]
    ensures text != "" && text[0] !in "hd" ==> ItemImages(TextItem(text)) == []
  {
    assert ("http" + text)[..4] == "http" && ("data:" + text)[..5] == "data:";
    assert text != "" && StartsWith(text, "http") ==> text[0] == text[..4][0];
    assert text != "" && StartsWith(text, "data:") ==> text[0] == text[..5][0];
  }

  /** Arguments that are no JSON are taken for none at all. */
  lemma BadArgumentsAreNone<A>(env: Env<A>, at: nat, call: ToolCall, other: ToolCall)
    requires env.parseArguments(call.arguments) == None
    requires other.name == call.name && env.parseArguments(other.arguments) == Some(env.noArguments)
    ensures RunTool(env, at, call) == RunTool(env, at, other)
  {
  }

  /** Every run of the tool loop: at most `maxRounds` requests, each made with the message list of its time;
    * the history it was given stays a prefix; what follows is whole rounds, one result per call; unless an
    * error ends it, the images are the tools' in call order and then those of the last text; and the last
    * text is that of the last reply that has any.
    */
  lemma EveryRun<A>(env: Env<A>, history: seq<Entry>, maxRounds: nat)
    returns (added: seq<Entry>, t: Trace, text: Option<string>)
    ensures
      var run := Loop(env, history, [], None, 0, maxRounds);
      && run.requests <= maxRounds
      && run.history == history + added && Rounds(env, |history|, added)
      && IsTrace(env, history, 0, maxRounds, run, t)
      && LastSpoken(t.replies, None, text) && Reports(env, run.result, t.replies, text)
      && Finish(env, run.result, ToolImages(env, |history|, added), text)
  {
    hide Rounds, IsTrace, LastSpoken, Reports, Loop, LastText;
    added := LoopKeeps(env, history, [], None, 0, maxRounds);
    t := LoopIsTraced(env, history, [], None, 0, maxRounds);
    text := LastText(env, history, None, 0, maxRounds);
    RequestBound(env, history, [], None, 0, maxRounds);
    assert [] + ToolImages(env, |history|, added) == ToolImages(env, |history|, added);
  }
}
