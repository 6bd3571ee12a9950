/** backend/open_webui/tasks.py: three maps kept in step by task creation, done-callbacks, stops
  * and flag updates in any order.
  */
module TaskRegistry {
  import opened Collections
  import opened Wrappers

  /** The chat id a task is created for, possibly `None`. */
  type Key = Option<string>

  /** Python's truth of a chat id. */
  predicate Truthy(k: Key) {
    k.Some? && k.value != ""
  }

  /** An entry of `task_metadata`, in which either field may be missing. */
  datatype Meta = Meta(chat: Option<Key>, blocks: Option<bool>)

  /** `tasks`, `chat_tasks` and `task_metadata`.  A task object is named by its id. */
  datatype State = State(tasks: set<string>, chatTasks: map<Key, seq<string>>, meta: map<string, Meta>)

  /** What may happen, each step atomic on the event loop.  A callback knows the chat id its task was
    * created with; `Stopped` is the removal after an awaited cancellation.
    */
  datatype Step =
    | Create(id: string, chat: Key, blocks: bool)
    | Callback(id: string, chat: Key)
    | Stopped(id: string)
    | SetFlag(current: Option<string>, blocks: bool)

  /** The list without the first occurrence. */
  function Remove(s: seq<string>, x: string): seq<string> {
    if s == [] then [] else if s[0] == x then s[1..] else [s[0]] + Remove(s[1..], x)
  }

  function Cleaned(m: map<Key, seq<string>>, id: string, chat: Key): map<Key, seq<string>> {
    if Truthy(chat) && chat in m && id in m[chat] then
      var rest := Remove(m[chat], id);
      if rest == [] then m - {chat} else m[chat := rest]
    else m
  }

  function Flagged(meta: map<string, Meta>, id: string, blocks: bool): map<string, Meta> {
    meta[id := (if id in meta then meta[id] else Meta(None, None)).(blocks := Some(blocks))]
  }

  function Next(s: State, step: Step): State {
    match step
    case Create(id, chat, blocks) =>
      var ids := if chat in s.chatTasks then s.chatTasks[chat] else [];
      State(s.tasks + {id}, s.chatTasks[chat := ids + [id]], s.meta[id := Meta(Some(chat), Some(blocks))])
    case Callback(id, chat) => State(s.tasks - {id}, Cleaned(s.chatTasks, id, chat), s.meta - {id})
    case Stopped(id) => s.(tasks := s.tasks - {id})
    case SetFlag(current, blocks) =>
      if current.Some? && current.value in s.tasks then s.(meta := Flagged(s.meta, current.value, blocks)) else s
  }

  // ---------- what happened ----------

  datatype Task = Task(chat: Key, blocks: bool, stopped: bool)

  /** The tasks ever created, in order, and those whose callback has not run. */
  datatype Log = Log(created: seq<(string, Key)>, live: map<string, Task>)

  function Record(l: Log, step: Step): Log {
    match step
    case Create(id, chat, blocks) => Log(l.created + [(id, chat)], l.live[id := Task(chat, blocks, false)])
    case Callback(id, _) => l.(live := l.live - {id})
    case Stopped(id) => if id in l.live then l.(live := l.live[id := l.live[id].(stopped := true)]) else l
    case SetFlag(current, blocks) =>
      if current.Some? && current.value in l.live && !l.live[current.value].stopped
      then l.(live := l.live[current.value := l.live[current.value].(blocks := blocks)])
      else l
  }

  predicate Unused(created: seq<(string, Key)>, id: string) {
    forall i :: 0 <= i < |created| ==> created[i].0 != id
  }

  /** Ids are never drawn twice, and a callback runs once, for a task that was created. */
  predicate Possible(l: Log, step: Step) {
    match step
    case Create(id, _, _) => Unused(l.created, id)
    case Callback(id, chat) => id in l.live && l.live[id].chat == chat
    case Stopped(_) => true
    case SetFlag(_, _) => true
  }

  /** The ids created for a chat that are still live, in order of creation.  Without a chat id, all
    * that were ever created.
    */
  function Listed(created: seq<(string, Key)>, live: set<string>, k: Key): seq<string> {
    if created == [] then []
    else
      var last := created[|created| - 1];
      Listed(created[..|created| - 1], live, k)
      + if last.1 == k && (last.0 in live || !Truthy(k)) then [last.0] else []
  }

  ghost predicate WellFormed(l: Log) {
    && (forall i, j :: 0 <= i < j < |l.created| ==> l.created[i].0 != l.created[j].0)
    && (forall id :: id in l.live ==> (id, l.live[id].chat) in l.created)
  }

  ghost predicate ListsAre(m: map<Key, seq<string>>, l: Log) {
    forall k :: ListIs(m, k, Listed(l.created, l.live.Keys, k))
  }

  predicate ListIs(m: map<Key, seq<string>>, k: Key, ids: seq<string>) {
    (k in m <==> ids != []) && (k in m ==> m[k] == ids)
  }

  function Stoppable(live: map<string, Task>): set<string> {
    set id | id in live && !live[id].stopped
  }

  function MetaOf(live: map<string, Task>): map<string, Meta> {
    map id | id in live :: Meta(Some(live[id].chat), Some(live[id].blocks))
  }

  /** The three maps are exactly what the history says. */
  ghost predicate Describes(l: Log, s: State) {
    && WellFormed(l)
    && s.tasks == Stoppable(l.live)
    && s.meta == MetaOf(l.live)
    && ListsAre(s.chatTasks, l)
  }

  // ---------- lists ----------

  lemma {:induction false} ListedMembers(created: seq<(string, Key)>, live: set<string>, k: Key, id: string)
    ensures id in Listed(created, live, k) <==> (id, k) in created && (id in live || !Truthy(k))
  {
    if created != [] {
      var n := |created| - 1;
      ListedMembers(created[..n], live, k, id);
      assert created == created[..n] + [created[n]];
    }
  }

  /** An id that was never created for this chat does not matter. */
  lemma {:induction false} ListedFrame(created: seq<(string, Key)>, live: set<string>, other: set<string>, k: Key)
    requires !Truthy(k) || forall id :: (id, k) in created ==> (id in live <==> id in other)
    ensures Listed(created, live, k) == Listed(created, other, k)
  {
    if created != [] {
      var n := |created| - 1;
      assert created == created[..n] + [created[n]];
      ListedFrame(created[..n], live, other, k);
    }
  }

  lemma RemoveLast(s: seq<string>, x: string)
    requires x !in s
    ensures Remove(s + [x], x) == s
    decreases |s|
  {
    if s != [] {
      assert (s + [x])[1..] == s[1..] + [x];
      RemoveLast(s[1..], x);
    }
  }

  lemma {:induction false} RemoveEarlier(s: seq<string>, t: seq<string>, x: string)
    requires x in s
    ensures Remove(s + t, x) == Remove(s, x) + t
  {
    if s[0] == x {
      assert (s + t)[1..] == s[1..] + t;
    } else {
      assert (s + t)[1..] == s[1..] + t;
      RemoveEarlier(s[1..], t, x);
    }
  }

  /** A callback takes its task out of the list of its chat. */
  lemma {:induction false} ListedWithout(created: seq<(string, Key)>, live: set<string>, k: Key, id: string)
    requires forall i, j :: 0 <= i < j < |created| ==> created[i].0 != created[j].0
    requires Truthy(k) && (id, k) in created && id in live
    ensures Remove(Listed(created, live, k), id) == Listed(created, live - {id}, k)
  {
    var n := |created| - 1;
    var init, last := created[..n], created[n];
    assert created == init + [last];
    if last.0 == id {
      assert forall e :: e in init ==> e.0 != id;
      ListedMembers(init, live, k, id);
      ListedFrame(init, live, live - {id}, k);
      RemoveLast(Listed(init, live, k), id);
    } else {
      ListedWithout(init, live, k, id);
      ListedMembers(init, live, k, id);
      RemoveEarlier(Listed(init, live, k), if last.1 == k && last.0 in live then [last.0] else [], id);
    }
  }

  lemma {:induction false} UnusedIsNotListed(created: seq<(string, Key)>, live: set<string>, k: Key, id: string)
    requires Unused(created, id)
    ensures id !in Listed(created, live, k)
  {
    if created != [] {
      var n := |created| - 1;
      UnusedIsNotListed(created[..n], live, k, id);
      assert created[n].0 != id;
    }
  }

  /** No task is listed twice. */
  lemma {:induction false} ListedDistinct(created: seq<(string, Key)>, live: set<string>, k: Key)
    requires forall i, j :: 0 <= i < j < |created| ==> created[i].0 != created[j].0
    ensures Distinct(Listed(created, live, k))
  {
    if created != [] {
      var n := |created| - 1;
      ListedDistinct(created[..n], live, k);
      UnusedIsNotListed(created[..n], live, k, created[n].0);
    }
  }

  // ---------- every step keeps the description ----------

  lemma ListedSnoc(created: seq<(string, Key)>, live: set<string>, k: Key, id: string, chat: Key)
    ensures Listed(created + [(id, chat)], live, k)
            == Listed(created, live, k) + if chat == k && (id in live || !Truthy(k)) then [id] else []
  {
    assert (created + [(id, chat)])[..|created|] == created;
  }

  lemma CreateKeepsList(m: map<Key, seq<string>>, l: Log, id: string, chat: Key, k: Key)
    requires Unused(l.created, id) && ListIs(m, k, Listed(l.created, l.live.Keys, k))
    ensures
      var ids := if chat in m then m[chat] else [];
      ListIs(m[chat := ids + [id]], k, Listed(l.created + [(id, chat)], l.live.Keys + {id}, k))
  {
    ListedSnoc(l.created, l.live.Keys + {id}, k, id, chat);
    ListedFrame(l.created, l.live.Keys, l.live.Keys + {id}, k);
    hide Listed, Unused;
    var before := Listed(l.created, l.live.Keys, k);
    assert before + [] == before;
  }

  lemma CreateKeepsLists(m: map<Key, seq<string>>, l: Log, id: string, chat: Key, task: Task)
    requires WellFormed(l) && Unused(l.created, id) && ListsAre(m, l)
    ensures
      var ids := if chat in m then m[chat] else [];
      ListsAre(m[chat := ids + [id]], Log(l.created + [(id, chat)], l.live[id := task]))
  {
    hide WellFormed, Unused, Listed;
    assert l.live[id := task].Keys == l.live.Keys + {id};
    var ids := if chat in m then m[chat] else [];
    forall k
      ensures ListIs(m[chat := ids + [id]], k, Listed(l.created + [(id, chat)], l.live.Keys + {id}, k))
    {
      assert ListIs(m, k, Listed(l.created, l.live.Keys, k));
      CreateKeepsList(m, l, id, chat, k);
    }
  }

  lemma CallbackKeepsLists(m: map<Key, seq<string>>, l: Log, id: string, chat: Key)
    requires WellFormed(l) && id in l.live && l.live[id].chat == chat && ListsAre(m, l)
    ensures ListsAre(Cleaned(m, id, chat), l.(live := l.live - {id}))
  {
    var live := l.live - {id};
    assert live.Keys == l.live.Keys - {id};
    forall k
      ensures ListIs(Cleaned(m, id, chat), k, Listed(l.created, live.Keys, k))
    {
      assert ListIs(m, k, Listed(l.created, l.live.Keys, k));
      assert ListIs(m, chat, Listed(l.created, l.live.Keys, chat));
      ListedMembers(l.created, l.live.Keys, chat, id);
      if k == chat && Truthy(k) {
        ListedWithout(l.created, l.live.Keys, k, id);
      } else {
        assert k != chat ==> (id, k) !in l.created;
        ListedFrame(l.created, l.live.Keys, live.Keys, k);
      }
    }
  }

  lemma CreateKeepsDescription(l: Log, s: State, id: string, chat: Key, blocks: bool)
    requires Describes(l, s) && Unused(l.created, id)
    ensures Describes(Record(l, Create(id, chat, blocks)), Next(s, Create(id, chat, blocks)))
  {
    hide ListsAre, Unused, WellFormed, Stoppable, MetaOf;
    var task := Task(chat, blocks, false);
    CreateKeepsLists(s.chatTasks, l, id, chat, task);
    CreateKeepsForm(l, id, chat, task);
    CreateKeepsMaps(l.live, id, task);
  }

  lemma CreateKeepsMaps(live: map<string, Task>, id: string, task: Task)
    requires !task.stopped
    ensures Stoppable(live[id := task]) == Stoppable(live) + {id}
    ensures MetaOf(live[id := task]) == MetaOf(live)[id := Meta(Some(task.chat), Some(task.blocks))]
  {
  }

  lemma CreateKeepsForm(l: Log, id: string, chat: Key, task: Task)
    requires WellFormed(l) && Unused(l.created, id) && task.chat == chat
    ensures WellFormed(Log(l.created + [(id, chat)], l.live[id := task]))
  {
    var created := l.created + [(id, chat)];
    assert created[|l.created|] in created;
  }

  lemma CallbackKeepsDescription(l: Log, s: State, id: string, chat: Key)
    requires Describes(l, s) && id in l.live && l.live[id].chat == chat
    ensures Describes(Record(l, Callback(id, chat)), Next(s, Callback(id, chat)))
  {
    hide ListsAre, Cleaned;
    CallbackKeepsLists(s.chatTasks, l, id, chat);
  }

  lemma SameListsAre(m: map<Key, seq<string>>, l: Log, next: Log)
    requires ListsAre(m, l) && next.created == l.created && next.live.Keys == l.live.Keys
    ensures ListsAre(m, next)
  {
    forall k
      ensures ListIs(m, k, Listed(next.created, next.live.Keys, k))
    {
      assert ListIs(m, k, Listed(l.created, l.live.Keys, k));
    }
  }

  lemma StepKeepsDescription(l: Log, s: State, step: Step)
    requires Describes(l, s) && Possible(l, step)
    ensures Describes(Record(l, step), Next(s, step))
  {
    match step
    case Create(id, chat, blocks) =>
      CreateKeepsDescription(l, s, id, chat, blocks);
    case Callback(id, chat) =>
      CallbackKeepsDescription(l, s, id, chat);
    case Stopped(id) =>
      StoppedKeepsDescription(l, s, id);
    case SetFlag(current, blocks) =>
      FlagKeepsDescription(l, s, current, blocks);
  }

  /** An update of one live task that leaves its chat alone. */
  lemma UpdateKeepsForm(l: Log, id: string, task: Task)
    requires WellFormed(l) && id in l.live && task.chat == l.live[id].chat
    ensures WellFormed(l.(live := l.live[id := task])) && l.live[id := task].Keys == l.live.Keys
  {
  }

  lemma StoppedMaps(live: map<string, Task>, id: string)
    requires id in live
    ensures var after := live[id := live[id].(stopped := true)];
      Stoppable(after) == Stoppable(live) - {id} && MetaOf(after) == MetaOf(live)
  {
  }

  lemma StoppedKeepsDescription(l: Log, s: State, id: string)
    requires Describes(l, s)
    ensures Describes(Record(l, Step.Stopped(id)), Next(s, Step.Stopped(id)))
  {
    var next := Record(l, Step.Stopped(id));
    assert id !in l.live ==> id !in Stoppable(l.live);
    hide ListsAre, WellFormed, Stoppable, MetaOf;
    if id in l.live {
      UpdateKeepsForm(l, id, next.live[id]);
      StoppedMaps(l.live, id);
    } else {
      assert s.tasks - {id} == s.tasks;
    }
    SameListsAre(s.chatTasks, l, next);
  }

  lemma FlagMaps(live: map<string, Task>, id: string, blocks: bool)
    requires id in live
    ensures var after := live[id := live[id].(blocks := blocks)];
      Stoppable(after) == Stoppable(live) && MetaOf(after) == Flagged(MetaOf(live), id, blocks)
  {
  }

  lemma FlagKeepsDescription(l: Log, s: State, current: Option<string>, blocks: bool)
    requires Describes(l, s)
    ensures Describes(Record(l, SetFlag(current, blocks)), Next(s, SetFlag(current, blocks)))
  {
    var next := Record(l, SetFlag(current, blocks));
    assert forall id :: id in Stoppable(l.live) <==> id in l.live && !l.live[id].stopped;
    hide ListsAre, WellFormed, Stoppable, MetaOf, Flagged;
    if current.Some? && current.value in l.live && !l.live[current.value].stopped {
      UpdateKeepsForm(l, current.value, next.live[current.value]);
      FlagMaps(l.live, current.value, blocks);
    }
    SameListsAre(s.chatTasks, l, next);
  }

  // ---------- runs ----------

  function Run(steps: seq<Step>): State {
    if steps == [] then State({}, map[], map[]) else Next(Run(steps[..|steps| - 1]), steps[|steps| - 1])
  }

  function History(steps: seq<Step>): Log {
    if steps == [] then Log([], map[]) else Record(History(steps[..|steps| - 1]), steps[|steps| - 1])
  }

  predicate PossibleRun(steps: seq<Step>) {
    steps != [] ==>
      PossibleRun(steps[..|steps| - 1]) && Possible(History(steps[..|steps| - 1]), steps[|steps| - 1])
  }

  lemma {:induction false} EveryRun(steps: seq<Step>)
    requires PossibleRun(steps)
    ensures Describes(History(steps), Run(steps))
  {
    if steps != [] {
      EveryRun(steps[..|steps| - 1]);
      StepKeepsDescription(History(steps[..|steps| - 1]), Run(steps[..|steps| - 1]), steps[|steps| - 1]);
    }
  }

  /** A chat's list holds, exactly once each, its tasks whose callback has not run; it is never kept
    * when empty, and every such task has metadata.
    */
  lemma ListsAreExact(steps: seq<Step>, chat: Key)
    requires PossibleRun(steps) && Truthy(chat)
    ensures
      var s, live := Run(steps), History(steps).live;
      && (chat in s.chatTasks ==> s.chatTasks[chat] != [])
      && (forall id :: (chat in s.chatTasks && id in s.chatTasks[chat]) <==> (id in live && live[id].chat == chat))
      && (chat in s.chatTasks ==> Distinct(s.chatTasks[chat]))
      && (forall id :: id in live ==> id in s.meta && s.meta[id].chat == Some(live[id].chat))
      && s.tasks <= live.Keys
  {
    EveryRun(steps);
    var s, l := Run(steps), History(steps);
    assert ListIs(s.chatTasks, chat, Listed(l.created, l.live.Keys, chat));
    ListedDistinct(l.created, l.live.Keys, chat);
    forall id
      ensures id in Listed(l.created, l.live.Keys, chat) <==> id in l.live && l.live[id].chat == chat
    {
      ListedMembers(l.created, l.live.Keys, chat, id);
      if id in l.live && (id, chat) in l.created {
        OneChat(l, id, chat, l.live[id].chat);
      }
    }
  }

  lemma OneChat(l: Log, id: string, a: Key, b: Key)
    requires WellFormed(l) && (id, a) in l.created && (id, b) in l.created
    ensures a == b
  {
    var i :| 0 <= i < |l.created| && l.created[i] == (id, a);
    var j :| 0 <= j < |l.created| && l.created[j] == (id, b);
    assert l.created[i].0 == l.created[j].0;
  }

  // ---------- the history, read off the steps ----------

  predicate IsCreate(step: Step, id: string) {
    step.Create? && step.id == id
  }

  predicate IsCallback(step: Step, id: string) {
    step.Callback? && step.id == id
  }

  predicate IsFlag(step: Step, id: string) {
    step.SetFlag? && step.current == Some(id)
  }

  predicate StoppedBetween(steps: seq<Step>, id: string, i: nat, k: int) {
    exists j :: i < j < k && j < |steps| && steps[j] == Step.Stopped(id)
  }

  /** Step `i` creates the task, and its callback has not run since. */
  predicate Lives(steps: seq<Step>, id: string, i: nat) {
    i < |steps| && IsCreate(steps[i], id) && forall j :: i < j < |steps| ==> !IsCallback(steps[j], id)
  }

  /** Step `k` sets the flag of a task created at `i` and not stopped in between. */
  predicate Sets(steps: seq<Step>, id: string, i: nat, k: int) {
    i < k < |steps| && IsFlag(steps[k], id) && !StoppedBetween(steps, id, i, k)
  }

  /** The flag is that of the last step that set it, or else the one it was created with. */
  predicate FlagIs(steps: seq<Step>, id: string, i: nat, blocks: bool)
    requires i < |steps| && steps[i].Create?
  {
    || (blocks == steps[i].blocks && forall k :: i < k < |steps| ==> !Sets(steps, id, i, k))
    || exists k :: i < k < |steps| && Sets(steps, id, i, k) && steps[k].blocks == blocks
                   && forall m :: k < m < |steps| ==> !Sets(steps, id, i, m)
  }

  /** A task is live from its creation to its callback. */
  lemma {:induction false} LiveIff(steps: seq<Step>, id: string)
    ensures id in History(steps).live <==> exists i: nat :: Lives(steps, id, i)
  {
    if steps != [] {
      var n := |steps| - 1;
      var init, last := steps[..n], steps[n];
      LiveIff(init, id);
      if i: nat :| Lives(init, id, i) {
        assert !IsCallback(last, id) ==> Lives(steps, id, i);
      }
      if i: nat :| Lives(steps, id, i) {
        assert i < n ==> Lives(init, id, i);
      }
      assert IsCreate(last, id) ==> Lives(steps, id, n);
    }
  }

  lemma SnocStopped(steps: seq<Step>, id: string, i: nat, k: int)
    requires steps != [] && k < |steps|
    ensures StoppedBetween(steps, id, i, k) <==> StoppedBetween(steps[..|steps| - 1], id, i, k)
    ensures Sets(steps[..|steps| - 1], id, i, k) ==> Sets(steps, id, i, k)
    ensures k < |steps| - 1 && Sets(steps, id, i, k) ==> Sets(steps[..|steps| - 1], id, i, k)
  {
    var n := |steps| - 1;
    assert forall j :: 0 <= j < n ==> steps[..n][j] == steps[j];
  }

  lemma SnocFlag(steps: seq<Step>, id: string, i: nat, blocks: bool)
    requires 0 <= i < |steps| - 1 && steps[i].Create? && FlagIs(steps[..|steps| - 1], id, i, blocks)
    ensures var n := |steps| - 1;
      FlagIs(steps, id, i, if Sets(steps, id, i, n) then steps[n].blocks else blocks)
  {
    hide Sets;
    var n := |steps| - 1;
    forall k | k < |steps|
      ensures k < n ==> (Sets(steps, id, i, k) <==> Sets(steps[..n], id, i, k))
    {
      SnocStopped(steps, id, i, k);
    }
    assert steps[..n][i] == steps[i] && forall k :: 0 <= k < n ==> steps[..n][k] == steps[k];
  }

  /** What a live task is: its chat is the one it was created for, and it is stopped if a stop came since. */
  lemma {:induction false} LiveTask(steps: seq<Step>, id: string) returns (i: nat)
    requires id in History(steps).live
    ensures Lives(steps, id, i)
    ensures var task := History(steps).live[id];
      && task.chat == steps[i].chat && FlagIs(steps, id, i, task.blocks)
      && (task.stopped <==> StoppedBetween(steps, id, i, |steps|))
  {
    var n := |steps| - 1;
    var init, last := steps[..n], steps[n];
    if IsCreate(last, id) {
      i := n;
    } else {
      i := LiveTask(init, id);
      var before := History(init).live[id];
      SnocFlag(steps, id, i, before.blocks);
      SnocStopped(steps, id, i, n);
      assert Sets(steps, id, i, n) <==> IsFlag(last, id) && !before.stopped;
      assert StoppedBetween(steps, id, i, |steps|) <==> before.stopped || last == Step.Stopped(id) by {
        if last == Step.Stopped(id) {
          assert steps[n] == Step.Stopped(id);
        }
      }
    }
  }

  /** What was created is what the creating steps say, in order. */
  lemma {:induction false} CreatedAt(steps: seq<Step>) returns (at: seq<nat>)
    ensures var created := History(steps).created;
      && |at| == |created|
      && (forall i, j :: 0 <= i < j < |at| ==> at[i] < at[j])
      && (forall k :: k in at <==> 0 <= k < |steps| && steps[k].Create?)
      && forall i :: 0 <= i < |at| ==>
           at[i] < |steps| && steps[at[i]].Create? && created[i] == (steps[at[i]].id, steps[at[i]].chat)
  {
    at := [];
    if steps != [] {
      var n := |steps| - 1;
      at := CreatedAt(steps[..n]);
      assert steps == steps[..n] + [steps[n]];
      if steps[n].Create? {
        at := at + [n];
      }
    }
  }

  lemma {:induction false} ListedAt(created: seq<(string, Key)>, live: set<string>, k: Key) returns (at: seq<nat>)
    ensures |at| == |Listed(created, live, k)|
    ensures forall i, j :: 0 <= i < j < |at| ==> at[i] < at[j]
    ensures forall i :: 0 <= i < |at| ==> at[i] < |created| && created[at[i]].0 == Listed(created, live, k)[i]
  {
    at := [];
    if created != [] {
      var n := |created| - 1;
      at := ListedAt(created[..n], live, k);
      if created[n].1 == k && (created[n].0 in live || !Truthy(k)) {
        at := at + [n];
      }
    }
  }

  /** Every list is in the order of creation. */
  lemma ListsAreInOrder(steps: seq<Step>, chat: Key, i: nat, j: nat) returns (p: nat, q: nat)
    requires PossibleRun(steps) && chat in Run(steps).chatTasks && i < j < |Run(steps).chatTasks[chat]|
    ensures p < q < |steps|
    ensures IsCreate(steps[p], Run(steps).chatTasks[chat][i]) && IsCreate(steps[q], Run(steps).chatTasks[chat][j])
  {
    hide History, Run, PossibleRun, Describes;
    var s, l := Run(steps), History(steps);
    ListedOf(steps, chat);
    var at := ListedAt(l.created, l.live.Keys, chat);
    var made := CreatedAt(steps);
    p, q := made[at[i]], made[at[j]];
  }

  lemma ListedOf(steps: seq<Step>, chat: Key)
    requires PossibleRun(steps) && chat in Run(steps).chatTasks
    ensures var l := History(steps); Run(steps).chatTasks[chat] == Listed(l.created, l.live.Keys, chat)
  {
    EveryRun(steps);
    var l := History(steps);
    assert ListIs(Run(steps).chatTasks, chat, Listed(l.created, l.live.Keys, chat));
  }

  /** When all callbacks have run nothing is left, except the lists kept under a missing or empty
    * chat id: those still hold every task ever created so.
    */
  lemma AllDone(steps: seq<Step>)
    requires PossibleRun(steps) && History(steps).live == map[]
    ensures Run(steps).tasks == {} && Run(steps).meta == map[]
    ensures forall k :: k in Run(steps).chatTasks <==> !Truthy(k) && exists id :: (id, k) in History(steps).created
    ensures forall k, id :: k in Run(steps).chatTasks ==>
              (id in Run(steps).chatTasks[k] <==> (id, k) in History(steps).created)
  {
    EveryRun(steps);
    var s, l := Run(steps), History(steps);
    forall k
      ensures k in s.chatTasks <==> !Truthy(k) && exists id :: (id, k) in l.created
      ensures k in s.chatTasks ==> forall id :: id in s.chatTasks[k] <==> (id, k) in l.created
    {
      var ids := Listed(l.created, l.live.Keys, k);
      assert ListIs(s.chatTasks, k, ids);
      forall id
        ensures id in ids <==> (id, k) in l.created && !Truthy(k)
      {
        ListedMembers(l.created, l.live.Keys, k, id);
      }
      assert ids != [] ==> ids[0] in ids;
    }
  }

  // ---------- the module's functions ----------

  /** Awaiting a cancelled task raises the cancellation, or the task finishes all the same, normally or
    * with an exception of its own, which is raised to the caller.
    */
  datatype Awaited = Cancelled | Finished | OwnException

  datatype StopResult = NotFound | Stopped | NotStopped | Reraised

  class Registry {
    var tasks: set<string>
    var chatTasks: map<Key, seq<string>>
    var taskMetadata: map<string, Meta>

    function Value(): State
      reads this
    {
      State(tasks, chatTasks, taskMetadata)
    }

    constructor ()
      ensures Value() == Run([])
    {
      tasks, chatTasks, taskMetadata := {}, map[], map[];
    }

    /** `cleanup_task` */
    method CleanupTask(id: string, chat: Key)
      modifies this
      ensures Value() == Next(old(Value()), Callback(id, chat))
    {
      tasks := tasks - {id};
      taskMetadata := taskMetadata - {id};
      if Truthy(chat) && chat in chatTasks && id in chatTasks[chat] {
        chatTasks := chatTasks[chat := Remove(chatTasks[chat], id)];
        if chatTasks[chat] == [] {
          chatTasks := chatTasks - {chat};
          assert chatTasks == old(chatTasks) - {chat};
        }
      }
    }

    /** `create_task` with the id that `uuid4` draws. */
    method CreateTask(id: string, chat: Key, blocksCompletion: bool)
      modifies this
      ensures Value() == Next(old(Value()), Create(id, chat, blocksCompletion))
    {
      tasks := tasks + {id};
      taskMetadata := taskMetadata[id := Meta(Some(chat), Some(blocksCompletion))];
      if chat in chatTasks && chatTasks[chat] != [] {
        chatTasks := chatTasks[chat := chatTasks[chat] + [id]];
      } else {
        assert [] + [id] == [id];
        chatTasks := chatTasks[chat := [id]];
      }
    }

    /** `set_current_task_blocks_completion`; `current` is the running task, if it is a known one. */
    method SetCurrentTaskBlocksCompletion(current: Option<string>, blocksCompletion: bool) returns (found: bool)
      modifies `taskMetadata
      ensures Value() == Next(old(Value()), SetFlag(current, blocksCompletion))
      ensures found <==> current.Some? && current.value in tasks
    {
      if current.None? {
        return false;
      }
      found := current.value in tasks;
      if found {
        var metadata := if current.value in taskMetadata then taskMetadata[current.value] else Meta(None, None);
        taskMetadata := taskMetadata[current.value := metadata.(blocks := Some(blocksCompletion))];
      }
    }

    /** `stop_task`; `awaited` is what comes of awaiting the task after the request to cancel it. */
    method StopTask(id: string, awaited: Awaited) returns (result: StopResult)
      modifies `tasks
      ensures result == if id !in old(tasks) then NotFound
                        else match awaited
                             case Cancelled => StopResult.Stopped
                             case Finished => NotStopped
                             case OwnException => Reraised
      ensures Value() == if result == StopResult.Stopped then Next(old(Value()), Step.Stopped(id)) else old(Value())
    {
      if id !in tasks {
        return NotFound;
      }
      match awaited {
        case Cancelled =>
          tasks := tasks - {id};
          return StopResult.Stopped;
        case Finished =>
          return NotStopped;
        case OwnException =>
          return Reraised;
      }
    }

    /** `list_task_ids_by_chat_id` */
    method ListTaskIdsByChatId(chat: Key, blocksCompletionOnly: bool) returns (ids: seq<string>)
      ensures ids == if blocksCompletionOnly then Blocking(AllOf(chatTasks, chat), taskMetadata)
                     else AllOf(chatTasks, chat)
    {
      var all := if chat in chatTasks then chatTasks[chat] else [];
      if !blocksCompletionOnly {
        return all;
      }
      ids := [];
      for n := 0 to |all|
        invariant ids == Blocking(all[..n], taskMetadata)
      {
        assert all[..n + 1][..n] == all[..n];
        if all[n] !in taskMetadata || taskMetadata[all[n]].blocks != Some(false) {
          ids := ids + [all[n]];
        }
      }
      assert all[..|all|] == all;
    }
  }

  function AllOf(m: map<Key, seq<string>>, chat: Key): seq<string> {
    if chat in m then m[chat] else []
  }

  /** Ids whose flag is set or missing. */
  function Blocking(ids: seq<string>, meta: map<string, Meta>): seq<string> {
    if ids == [] then []
    else
      var id := ids[|ids| - 1];
      Blocking(ids[..|ids| - 1], meta) + if id !in meta || meta[id].blocks != Some(false) then [id] else []
  }

  /** They are listed in their order. */
  lemma {:induction false} BlockingAt(ids: seq<string>, meta: map<string, Meta>) returns (at: seq<nat>)
    ensures |at| == |Blocking(ids, meta)|
    ensures forall i, j :: 0 <= i < j < |at| ==> at[i] < at[j]
    ensures forall i :: 0 <= i < |at| ==> at[i] < |ids| && ids[at[i]] == Blocking(ids, meta)[i]
    ensures forall p :: p in at <==> 0 <= p < |ids| && (ids[p] !in meta || meta[ids[p]].blocks != Some(false))
  {
    at := [];
    if ids != [] {
      var n := |ids| - 1;
      at := BlockingAt(ids[..n], meta);
      assert ids == ids[..n] + [ids[n]];
      if ids[n] !in meta || meta[ids[n]].blocks != Some(false) {
        at := at + [n];
      }
    }
  }

  lemma {:induction false} BlockingMembers(ids: seq<string>, meta: map<string, Meta>, id: string)
    ensures id in Blocking(ids, meta) <==> id in ids && (id !in meta || meta[id].blocks != Some(false))
  {
    if ids != [] {
      var n := |ids| - 1;
      BlockingMembers(ids[..n], meta, id);
      assert ids == ids[..n] + [ids[n]];
    }
  }

  /** The tasks that keep a chat waiting are its live ones whose flag is up; without a chat id,
    * finished tasks count as well.
    */
  lemma BlockingIsExact(steps: seq<Step>, chat: Key, id: string)
    requires PossibleRun(steps)
    ensures
      var s, l := Run(steps), History(steps);
      id in Blocking(AllOf(s.chatTasks, chat), s.meta) <==>
        || (id in l.live && l.live[id].chat == chat && l.live[id].blocks)
        || (id !in l.live && !Truthy(chat) && (id, chat) in l.created)
  {
    EveryRun(steps);
    var s, l := Run(steps), History(steps);
    var ids := Listed(l.created, l.live.Keys, chat);
    assert ListIs(s.chatTasks, chat, ids);
    assert AllOf(s.chatTasks, chat) == ids;
    BlockingMembers(ids, s.meta, id);
    ListedMembers(l.created, l.live.Keys, chat, id);
    if id in l.live && (id, chat) in l.created {
      OneChat(l, id, chat, l.live[id].chat);
    }
  }
}
