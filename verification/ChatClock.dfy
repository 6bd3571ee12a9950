/** The logical clock of backend/open_webui/models/chats.py.  Whatever the wall clock does, the
  * stored `updated_at` values order each user's chats like a list in which every write moves
  * its chat to the front.
  */
module ChatClock {
  import opened Collections
  import opened Wrappers

  /** A chat row, apart from its `updated_at`. */
  datatype Chat = Chat(
    userId: string, body: string, pinned: bool, archived: bool, folderId: Option<string>, shareId: Option<string>
  )

  datatype Row = Row(chat: Chat, updatedAt: int)

  datatype Form = Form(id: string, body: string, pinned: bool, folderId: Option<string>)

  datatype Change = Body(body: string) | TogglePinned | ToggleArchived | MoveTo(folderId: Option<string>)

  /** The committing operations.  Ids drawn by `uuid4`, and the row an unordered `first()` returns,
    * are parameters.
    */
  datatype Op =
    | Insert(user: string, form: Form)
    | Touch(id: string, change: Change)
    | Share(chatId: string, uuid: string)
    | UpdateShared(chatId: string, first: Option<string>, uuid: string)
    | Replace(user: string, forms: seq<Form>)
    | SetShare(id: string, share: Option<string>)
    | ArchiveAll(user: string)
    | MoveAll(user: string, from: string, to: Option<string>)
    | Delete(ids: set<string>)

  // ---------- what an operation does, time aside ----------

  function NewChat(user: string, form: Form): Chat {
    Chat(user, form.body, form.pinned, false, form.folderId, None)
  }

  function Changed(c: Chat, change: Change): Chat {
    match change
    case Body(body) => c.(body := body)
    case TogglePinned => c.(pinned := !c.pinned)
    case ToggleArchived => c.(archived := !c.archived)
    case MoveTo(folderId) => c.(folderId := folderId, pinned := false)
  }

  function SharedUser(chatId: string): string {
    "shared-" + chatId
  }

  function Owned(cs: map<string, Chat>, user: string): set<string> {
    set id | id in cs && cs[id].userId == user
  }

  /** The public copies of a user's chats. */
  function Copies(cs: map<string, Chat>, user: string): set<string> {
    set id, original | id in cs && original in cs && cs[original].userId == user
                       && cs[id].userId == SharedUser(original) :: id
  }

  function FormIds(forms: seq<Form>): seq<string> {
    seq(|forms|, i requires 0 <= i < |forms| => forms[i].id)
  }

  function AddAll(cs: map<string, Chat>, user: string, forms: seq<Form>): map<string, Chat> {
    if forms == [] then cs
    else
      var last := forms[|forms| - 1];
      AddAll(cs, user, forms[..|forms| - 1])[last.id := NewChat(user, last)]
  }

  function Kept(cs: map<string, Chat>, user: string): map<string, Chat> {
    cs - (Owned(cs, user) + Copies(cs, user))
  }

  /** The new ids break no primary key. */
  predicate Replaceable(cs: map<string, Chat>, user: string, forms: seq<Form>) {
    Distinct(FormIds(forms)) && forall form :: form in forms ==> form.id !in Kept(cs, user)
  }

  predicate ShareTaken(cs: map<string, Chat>, share: string, id: string) {
    exists other :: other in cs && other != id && cs[other].shareId == Some(share)
  }

  function Shared(cs: map<string, Chat>, chatId: string, uuid: string): (map<string, Chat>, seq<string>) {
    if chatId !in cs || uuid in cs then (cs, [])
    else if cs[chatId].shareId.Some? && cs[chatId].shareId.value != "" then (cs, [])
    else
      var copied := cs[uuid := Chat(SharedUser(chatId), cs[chatId].body, false, false, None, None)];
      if ShareTaken(copied, uuid, chatId) then (copied, [uuid])
      else (copied[chatId := cs[chatId].(shareId := Some(uuid))], [uuid])
  }

  /** The chats after an operation, and those it stamps, in the order in which it does.  A missing
    * row or a violated constraint leaves the table as it was.
    */
  function Decide(cs: map<string, Chat>, op: Op): (map<string, Chat>, seq<string>) {
    match op
    case Insert(user, form) =>
      if form.id in cs then (cs, []) else (cs[form.id := NewChat(user, form)], [form.id])
    case Touch(id, change) =>
      if id !in cs then (cs, []) else (cs[id := Changed(cs[id], change)], [id])
    case Share(chatId, uuid) => Shared(cs, chatId, uuid)
    case UpdateShared(chatId, first, uuid) =>
      if chatId !in cs then (cs, [])
      else if first.None? then Shared(cs, chatId, uuid)
      else if first.value !in cs then (cs, [])
      else (cs[first.value := cs[first.value].(body := cs[chatId].body)], [first.value])
    case Replace(user, forms) =>
      if Replaceable(cs, user, forms) then (AddAll(Kept(cs, user), user, forms), FormIds(forms)) else (cs, [])
    case SetShare(id, share) =>
      if id !in cs || (share.Some? && ShareTaken(cs, share.value, id)) then (cs, [])
      else (cs[id := cs[id].(shareId := share)], [])
    case ArchiveAll(user) =>
      (map id | id in cs :: if cs[id].userId == user then cs[id].(archived := true) else cs[id], [])
    case MoveAll(user, from, to) =>
      (map id | id in cs ::
        if cs[id].userId == user && cs[id].folderId == Some(from) then cs[id].(folderId := to) else cs[id], [])
    case Delete(ids) => (cs - ids, [])
  }

  // ---------- the clock ----------

  /** `m` is the `MAX(updated_at)` over the rows of this user among `ids`. */
  ghost predicate IsLatest(rows: map<string, Row>, ids: set<string>, user: string, m: Option<int>) {
    && (forall id :: id in ids && id in rows && rows[id].chat.userId == user ==>
          m.Some? && rows[id].updatedAt <= m.value)
    && (m.Some? ==> exists id :: id in ids && id in rows && rows[id].chat.userId == user
                                 && rows[id].updatedAt == m.value)
  }

  lemma {:induction false} LatestExists(rows: map<string, Row>, ids: set<string>, user: string) returns (m: Option<int>)
    ensures IsLatest(rows, ids, user, m)
    decreases |ids|
  {
    if ids == {} {
      m := None;
    } else {
      var id :| id in ids;
      m := LatestExists(rows, ids - {id}, user);
      if id in rows && rows[id].chat.userId == user && (m.None? || m.value < rows[id].updatedAt) {
        m := Some(rows[id].updatedAt);
      }
      assert forall x :: x in ids ==> x == id || x in ids - {id};
    }
  }

  ghost function Latest(rows: map<string, Row>, user: string): (m: Option<int>)
    ensures IsLatest(rows, rows.Keys, user, m)
  {
    assert exists m :: IsLatest(rows, rows.Keys, user, m) by {
      var m := LatestExists(rows, rows.Keys, user);
    }
    var m :| IsLatest(rows, rows.Keys, user, m);
    m
  }

  /** One more than the latest stamp, or than zero where there is none, unless the wall clock is past it. */
  function Tick(latest: Option<int>, now: int): int {
    var known := if latest.Some? then latest.value else 0;
    if known >= now then known + 1 else now
  }

  ghost function Stamp(rows: map<string, Row>, user: string, now: int): int {
    Tick(Latest(rows, user), now)
  }

  /** A stamp is later than the reading of the clock allows, and than every row of the user. */
  lemma StampIsNewest(rows: map<string, Row>, user: string, now: int, id: string)
    requires id in rows && rows[id].chat.userId == user
    ensures Stamp(rows, user, now) >= now && rows[id].updatedAt < Stamp(rows, user, now)
  {
    assert id in rows.Keys;
  }

  /** It is the least such number, and one for a user without rows before 1970: no clock runs ahead without
    * need.
    */
  lemma StampIsLeast(rows: map<string, Row>, user: string, now: int, t: int)
    requires now <= t && (t >= 1 || exists id :: id in rows && rows[id].chat.userId == user)
    requires forall id :: id in rows && rows[id].chat.userId == user ==> rows[id].updatedAt < t
    ensures Stamp(rows, user, now) <= t
    ensures (forall id :: id in rows ==> rows[id].chat.userId != user) ==>
              Stamp(rows, user, now) == if now > 0 then now else 1
  {
    var latest := Latest(rows, user);
    if latest.Some? {
      var id :| id in rows.Keys && rows[id].chat.userId == user && rows[id].updatedAt == latest.value;
    }
  }

  function Chats(rows: map<string, Row>): map<string, Chat> {
    map id | id in rows :: rows[id].chat
  }

  function IndexOf(s: seq<string>, x: string): (i: nat)
    requires x in s
    ensures i < |s| && s[i] == x
  {
    if s[0] == x then 0 else 1 + IndexOf(s[1..], x)
  }

  /** Bulk replacement counts up from the reading of the clock; the other writers ask the clock. */
  ghost function StampFor(rows: map<string, Row>, op: Op, stamped: seq<string>, user: string, id: string, now: int): int
    requires id in stamped
  {
    if op.Replace? then now + IndexOf(stamped, id) else Stamp(rows, user, now)
  }

  /** The table after an operation. */
  ghost function Apply(rows: map<string, Row>, op: Op, now: int): map<string, Row> {
    var (cs, stamped) := Decide(Chats(rows), op);
    map id | id in cs ::
      Row(cs[id],
          if id in stamped then StampFor(rows, op, stamped, cs[id].userId, id, now)
          else if id in rows then rows[id].updatedAt else 0)
  }

  // ---------- the list that the clock implements ----------

  function Reverse(s: seq<string>): (r: seq<string>)
    ensures |r| == |s| && forall i :: 0 <= i < |s| ==> r[i] == s[|s| - 1 - i]
  {
    seq(|s|, i requires 0 <= i < |s| => s[|s| - 1 - i])
  }

  function Keep(s: seq<string>, ids: set<string>): seq<string> {
    if s == [] then []
    else (if s[0] in ids then [s[0]] else []) + Keep(s[1..], ids)
  }

  /** Ids of chats, most recent first, no clock in sight. */
  datatype Recency = Recency(chats: map<string, Chat>, ids: seq<string>)

  /** What is stamped goes to the front; what is left keeps its order. */
  function Advance(r: Recency, op: Op): Recency {
    var (cs, stamped) := Decide(r.chats, op);
    Recency(cs, Reverse(stamped) + Keep(r.ids, cs.Keys - (set x | x in stamped)))
  }

  /** The table holds these chats, and within each user `updated_at` falls strictly along the list. */
  ghost predicate Implements(rows: map<string, Row>, r: Recency) {
    && Chats(rows) == r.chats
    && Distinct(r.ids)
    && (forall id :: id in r.ids <==> id in rows)
    && Falling(rows, r.ids)
  }

  ghost predicate Falling(rows: map<string, Row>, ids: seq<string>) {
    forall i, j :: 0 <= i < j < |ids| ==> Later(rows, ids[i], ids[j])
  }

  predicate Later(rows: map<string, Row>, x: string, y: string) {
    x in rows && y in rows && rows[x].chat.userId == rows[y].chat.userId ==> rows[x].updatedAt > rows[y].updatedAt
  }

  lemma {:induction false} KeepMembers(s: seq<string>, ids: set<string>)
    ensures forall x :: x in Keep(s, ids) <==> x in s && x in ids
  {
    if s != [] {
      KeepMembers(s[1..], ids);
      assert s == [s[0]] + s[1..];
    }
  }

  /** Two kept elements come from two positions in the same order. */
  lemma {:induction false} KeepOrder(s: seq<string>, ids: set<string>, i: nat, j: nat) returns (p: nat, q: nat)
    requires i < j < |Keep(s, ids)|
    ensures p < q < |s| && s[p] == Keep(s, ids)[i] && s[q] == Keep(s, ids)[j]
  {
    var d := if s[0] in ids then 1 else 0;
    var rest := Keep(s[1..], ids);
    assert Keep(s, ids) == (if s[0] in ids then [s[0]] else []) + rest;
    if i < d {
      assert rest[j - d] in rest;
      KeepMembers(s[1..], ids);
      var k :| 0 <= k < |s[1..]| && s[1..][k] == rest[j - d];
      p, q := 0, k + 1;
    } else {
      p, q := KeepOrder(s[1..], ids, i - d, j - d);
      p, q := p + 1, q + 1;
    }
  }

  // ---------- what `Decide` guarantees ----------

  lemma {:induction false} AddAllMembers(cs: map<string, Chat>, user: string, forms: seq<Form>)
    ensures var all := AddAll(cs, user, forms);
      && (forall id :: id in all <==> id in cs || id in FormIds(forms))
      && (forall id :: id in FormIds(forms) ==> all[id].userId == user)
      && (forall id :: id in cs && id !in FormIds(forms) ==> all[id] == cs[id])
  {
    if forms != [] {
      var init := forms[..|forms| - 1];
      AddAllMembers(cs, user, init);
      assert FormIds(forms) == FormIds(init) + [forms[|forms| - 1].id];
    }
  }

  /** Only what is stamped is new or changes hands; a replacement stamps all that the user has. */
  ghost predicate Sane(cs: map<string, Chat>, op: Op, after: map<string, Chat>, stamped: seq<string>) {
    && Distinct(stamped)
    && (forall id :: id in stamped ==> id in after)
    && (forall id :: id in after && id !in stamped ==> id in cs && after[id].userId == cs[id].userId)
    && (op.Replace? && stamped != [] ==> forall id :: id in after ==> (after[id].userId == op.user <==> id in stamped))
    && (!op.Replace? ==> |stamped| <= 1)
  }

  lemma ReplaceableIsDistinct(cs: map<string, Chat>, user: string, forms: seq<Form>)
    ensures Replaceable(cs, user, forms) ==> Distinct(FormIds(forms))
  {
  }

  lemma SharedIsSane(cs: map<string, Chat>, op: Op)
    requires !op.Replace?
    ensures forall chatId, uuid {:trigger Shared(cs, chatId, uuid)} ::
              var (after, stamped) := Shared(cs, chatId, uuid); Sane(cs, op, after, stamped)
  {
  }

  lemma DecideIsSane(cs: map<string, Chat>, op: Op)
    ensures var (after, stamped) := Decide(cs, op); Sane(cs, op, after, stamped)
  {
    hide AddAll, Shared, Replaceable;
    if op.Replace? {
      AddAllMembers(Kept(cs, op.user), op.user, op.forms);
      ReplaceableIsDistinct(cs, op.user, op.forms);
    } else {
      SharedIsSane(cs, op);
    }
  }

  // ---------- the table implements the list ----------

  /** One operation, whatever the clock reads. */
  lemma ApplyImplements(rows: map<string, Row>, r: Recency, op: Op, now: int)
    requires Implements(rows, r)
    ensures Implements(Apply(rows, op, now), Advance(r, op))
  {
    hide Decide, Falling;
    var (cs, stamped) := Decide(r.chats, op);
    DecideIsSane(r.chats, op);
    assert Chats(Apply(rows, op, now)) == cs;
    AdvancedIds(r, op);
    forall i, j | 0 <= i < j < |Advance(r, op).ids|
      ensures Later(Apply(rows, op, now), Advance(r, op).ids[i], Advance(r, op).ids[j])
    {
      AdvancedOrder(rows, r, op, now, i, j);
    }
    PairsFall(Apply(rows, op, now), Advance(r, op).ids);
  }

  lemma PairsFall(rows: map<string, Row>, ids: seq<string>)
    requires forall i, j :: 0 <= i < j < |ids| ==> Later(rows, ids[i], ids[j])
    ensures Falling(rows, ids)
  {
  }

  /** Where two entries of the new list come from: both stamped, the later one first;
    * both kept, in their old order; or the first stamped and the second kept.
    */
  lemma WhereFrom(r: Recency, op: Op, i: nat, j: nat) returns (p: nat, q: nat)
    requires i < j < |Advance(r, op).ids|
    ensures
      var (cs, stamped) := Decide(r.chats, op);
      var x, y := Advance(r, op).ids[i], Advance(r, op).ids[j];
      || (q < p < |stamped| && stamped[p] == x && stamped[q] == y)
      || (p < q < |r.ids| && r.ids[p] == x && r.ids[q] == y
          && x in cs && x !in stamped && y in cs && y !in stamped)
      || (x in stamped && y in cs && y !in stamped)
  {
    hide Decide, Keep;
    var (cs, stamped) := Decide(r.chats, op);
    var ids := cs.Keys - (set x | x in stamped);
    var front, kept := Reverse(stamped), Keep(r.ids, ids);
    assert Advance(r, op).ids == front + kept;
    hide Advance;
    KeepMembers(r.ids, ids);
    ReverseMembers(stamped);
    p, q := 0, 0;
    if |front| <= i {
      assert kept[i - |front|] in kept && kept[j - |front|] in kept;
      p, q := KeepOrder(r.ids, ids, i - |front|, j - |front|);
    } else if j < |front| {
      p, q := |stamped| - 1 - i, |stamped| - 1 - j;
    } else {
      assert front[i] in front && kept[j - |front|] in kept;
    }
  }

  /** The list after an operation names each remaining chat once. */
  lemma AdvancedIds(r: Recency, op: Op)
    requires Distinct(r.ids) && forall id :: id in r.ids <==> id in r.chats
    ensures Distinct(Advance(r, op).ids)
    ensures forall id :: id in Advance(r, op).ids <==> id in Decide(r.chats, op).0
  {
    hide Decide;
    var (cs, stamped) := Decide(r.chats, op);
    DecideIsSane(r.chats, op);
    forall i, j | 0 <= i < j < |Advance(r, op).ids|
      ensures Advance(r, op).ids[i] != Advance(r, op).ids[j]
    {
      hide Advance;
      var p, q := WhereFrom(r, op, i, j);
    }
    var ids := cs.Keys - (set x | x in stamped);
    KeepMembers(r.ids, ids);
    ReverseMembers(stamped);
    assert forall id :: id in Advance(r, op).ids <==> id in Reverse(stamped) || id in Keep(r.ids, ids);
  }

  lemma AdvancedOrder(rows: map<string, Row>, r: Recency, op: Op, now: int, i: nat, j: nat)
    requires Implements(rows, r) && i < j < |Advance(r, op).ids|
    ensures Later(Apply(rows, op, now), Advance(r, op).ids[i], Advance(r, op).ids[j])
  {
    hide Decide, Apply, Falling, Advance;
    var stamped := Decide(r.chats, op).1;
    var x, y := Advance(r, op).ids[i], Advance(r, op).ids[j];
    var p, q := WhereFrom(r, op, i, j);
    if x in stamped && y in stamped {
      StampedInOrder(rows, r.chats, op, now, q, p);
    } else if x in stamped {
      StampedIsLater(rows, r.chats, op, now, x, y);
    } else {
      FallingAt(rows, r.ids, p, q);
      KeptStays(rows, r.chats, op, now, x);
      KeptStays(rows, r.chats, op, now, y);
    }
  }

  lemma ReverseMembers(s: seq<string>)
    ensures forall x :: x in Reverse(s) <==> x in s
  {
    forall x | x in s
      ensures x in Reverse(s)
    {
      var i :| 0 <= i < |s| && s[i] == x;
      assert Reverse(s)[|s| - 1 - i] == x;
    }
  }

  lemma KeptStays(rows: map<string, Row>, cs: map<string, Chat>, op: Op, now: int, x: string)
    requires Chats(rows) == cs
    requires var (after, stamped) := Decide(cs, op); x in after && x !in stamped
    ensures x in rows && x in Apply(rows, op, now)
    ensures Apply(rows, op, now)[x].updatedAt == rows[x].updatedAt
    ensures Apply(rows, op, now)[x].chat.userId == rows[x].chat.userId
  {
    hide Decide;
    DecideIsSane(cs, op);
    assert x in cs ==> x in rows && rows[x].chat == cs[x];
  }

  /** A replacement stamps in ascending order. */
  lemma StampedInOrder(rows: map<string, Row>, cs: map<string, Chat>, op: Op, now: int, i: nat, j: nat)
    requires Chats(rows) == cs && i < j < |Decide(cs, op).1|
    ensures var stamped := Decide(cs, op).1; Later(Apply(rows, op, now), stamped[j], stamped[i])
  {
    hide Decide;
    var (after, stamped) := Decide(cs, op);
    DecideIsSane(cs, op);
    assert IndexOf(stamped, stamped[i]) == i;
    assert IndexOf(stamped, stamped[j]) == j;
  }

  /** What an operation stamps is then later than what it leaves alone. */
  lemma StampedIsLater(rows: map<string, Row>, cs: map<string, Chat>, op: Op, now: int, x: string, y: string)
    requires Chats(rows) == cs
    requires var (after, stamped) := Decide(cs, op); x in stamped && y in after && y !in stamped
    ensures Later(Apply(rows, op, now), x, y)
  {
    var (after, stamped) := Decide(cs, op);
    DecideIsSane(cs, op);
    if after[x].userId == after[y].userId && !op.Replace? {
      assert y in rows && rows[y].chat == cs[y];
      StampIsNewest(rows, after[x].userId, now, y);
    }
  }

  // ---------- runs ----------

  ghost function Run(ops: seq<Op>, clock: seq<int>): map<string, Row>
    requires |clock| == |ops|
  {
    if ops == [] then map[]
    else
      var n := |ops| - 1;
      Apply(Run(ops[..n], clock[..n]), ops[n], clock[n])
  }

  function Replay(ops: seq<Op>): Recency {
    if ops == [] then Recency(map[], []) else Advance(Replay(ops[..|ops| - 1]), ops[|ops| - 1])
  }

  /** After any run, under any clock, the table implements the replayed list. */
  lemma {:induction false} RunImplements(ops: seq<Op>, clock: seq<int>)
    requires |clock| == |ops|
    ensures Implements(Run(ops, clock), Replay(ops))
  {
    if ops != [] {
      var n := |ops| - 1;
      RunImplements(ops[..n], clock[..n]);
      ApplyImplements(Run(ops[..n], clock[..n]), Replay(ops[..n]), ops[n], clock[n]);
    }
  }

  /** In every reachable state the `updated_at` of one user's chats are pairwise distinct. */
  lemma StampsAreDistinct(ops: seq<Op>, clock: seq<int>, x: string, y: string)
    requires |clock| == |ops|
    requires var rows := Run(ops, clock);
             x in rows && y in rows && x != y && rows[x].chat.userId == rows[y].chat.userId
    ensures Run(ops, clock)[x].updatedAt != Run(ops, clock)[y].updatedAt
  {
    RunImplements(ops, clock);
    var rows, ids := Run(ops, clock), Replay(ops).ids;
    var i :| 0 <= i < |ids| && ids[i] == x;
    var j :| 0 <= j < |ids| && ids[j] == y;
    if i < j {
      assert Later(rows, x, y);
    } else {
      assert Later(rows, y, x);
    }
  }

  /** The chat just inserted or touched is strictly the newest of its user. */
  lemma TouchedIsNewest(rows: map<string, Row>, op: Op, now: int, x: string, y: string)
    requires !op.Replace?
    requires x in Decide(Chats(rows), op).1
    requires var next := Apply(rows, op, now);
             y in next && y != x && next[y].chat.userId == Decide(Chats(rows), op).0[x].userId
    ensures x in Apply(rows, op, now) && Apply(rows, op, now)[x].updatedAt > Apply(rows, op, now)[y].updatedAt
    ensures Apply(rows, op, now)[x].updatedAt >= now
  {
    var (after, stamped) := Decide(Chats(rows), op);
    DecideIsSane(Chats(rows), op);
    assert stamped == [x];
    StampedIsLater(rows, Chats(rows), op, now, x, y);
  }

  lemma OwnIsNotKept(cs: map<string, Chat>, user: string)
    ensures forall id :: id in Kept(cs, user) ==> Kept(cs, user)[id].userId != user
  {
  }

  /** Bulk replacement gives the user distinct stamps even if there were none before. */
  lemma ReplaceRestoresOrder(rows: map<string, Row>, user: string, forms: seq<Form>, now: int, x: string, y: string)
    requires Replaceable(Chats(rows), user, forms)
    requires var next := Apply(rows, Replace(user, forms), now);
             x in next && y in next && x != y && next[x].chat.userId == user == next[y].chat.userId
    ensures Apply(rows, Replace(user, forms), now)[x].updatedAt != Apply(rows, Replace(user, forms), now)[y].updatedAt
  {
    hide Owned, Copies, AddAll, StampFor;
    var cs, op := Chats(rows), Replace(user, forms);
    var stamped := Decide(cs, op).1;
    AddAllMembers(Kept(cs, user), user, forms);
    OwnIsNotKept(cs, user);
    assert x in stamped && y in stamped;
    var i, j := IndexOf(stamped, x), IndexOf(stamped, y);
    if i < j {
      StampedInOrder(rows, cs, op, now, i, j);
    } else {
      StampedInOrder(rows, cs, op, now, j, i);
    }
  }

  // ---------- what `ORDER BY updated_at DESC` returns ----------

  /** A listing of one user's chats that a database may return for the query. */
  ghost predicate ListedByTime(rows: map<string, Row>, user: string, listed: seq<string>) {
    && Distinct(listed)
    && (forall id :: id in listed <==> id in rows && rows[id].chat.userId == user)
    && forall i, j {:trigger listed[i], listed[j]} ::
         0 <= i < j < |listed| && listed[i] in rows && listed[j] in rows ==>
         rows[listed[i]].updatedAt >= rows[listed[j]].updatedAt
  }

  /** After any run there is one such listing, and no clock reading has a say in it. */
  lemma ListingIgnoresTheClock(
    ops: seq<Op>, clock: seq<int>, other: seq<int>, user: string, a: seq<string>, b: seq<string>
  )
    requires |clock| == |ops| == |other|
    requires ListedByTime(Run(ops, clock), user, a) && ListedByTime(Run(ops, other), user, b)
    ensures a == b && Chats(Run(ops, clock)) == Chats(Run(ops, other))
  {
    RunImplements(ops, clock);
    RunImplements(ops, other);
    var r := Replay(ops);
    ListedInOrder(Run(ops, clock), r, user, a);
    ListedInOrder(Run(ops, other), r, user, b);
    SameOrder(r.ids, a, b);
  }

  /** `listed` follows the order of `ids`. */
  ghost predicate Follows(ids: seq<string>, listed: seq<string>) {
    forall i, j :: 0 <= i < j < |listed| ==> Before(ids, listed[i], listed[j])
  }

  ghost predicate Before(ids: seq<string>, x: string, y: string) {
    exists p, q :: 0 <= p < q < |ids| && ids[p] == x && ids[q] == y
  }

  lemma ListedInOrder(rows: map<string, Row>, r: Recency, user: string, listed: seq<string>)
    requires Implements(rows, r) && ListedByTime(rows, user, listed)
    ensures Follows(r.ids, listed)
    ensures forall id :: id in listed <==> id in r.chats && r.chats[id].userId == user
  {
    assert forall id :: id in rows <==> id in r.chats;
    assert forall id :: id in rows ==> rows[id].chat == r.chats[id];
    forall i, j | 0 <= i < j < |listed|
      ensures Before(r.ids, listed[i], listed[j])
    {
      assert listed[i] in listed && listed[j] in listed;
      var p :| 0 <= p < |r.ids| && r.ids[p] == listed[i];
      var q :| 0 <= q < |r.ids| && r.ids[q] == listed[j];
      EarlierIsLater(rows, r.ids, p, q);
    }
  }

  lemma EarlierIsLater(rows: map<string, Row>, ids: seq<string>, p: nat, q: nat)
    requires Falling(rows, ids) && p < |ids| && q < |ids| && ids[p] in rows && ids[q] in rows
    requires p != q && rows[ids[p]].chat.userId == rows[ids[q]].chat.userId
    requires rows[ids[p]].updatedAt >= rows[ids[q]].updatedAt
    ensures p < q
  {
    hide Falling;
    if q < p {
      FallingAt(rows, ids, q, p);
    }
  }

  lemma FallingAt(rows: map<string, Row>, ids: seq<string>, i: nat, j: nat)
    requires Falling(rows, ids) && i < j < |ids|
    ensures Later(rows, ids[i], ids[j])
  {
  }

  lemma {:induction false} SameOrder(ids: seq<string>, a: seq<string>, b: seq<string>)
    requires Distinct(ids) && Follows(ids, a) && Follows(ids, b) && Distinct(a) && Distinct(b)
    requires forall x :: x in a <==> x in b
    ensures a == b
  {
    hide Before;
    if a == [] && b == [] {
    } else if a == [] {
      SameHead(ids, b, a);
    } else {
      SameHead(ids, a, b);
      assert forall i, j :: 0 <= i < j < |a[1..]| ==> Before(ids, a[1..][i], a[1..][j]);
      assert forall i, j :: 0 <= i < j < |b[1..]| ==> Before(ids, b[1..][i], b[1..][j]);
      TailMembers(a);
      TailMembers(b);
      SameOrder(ids, a[1..], b[1..]);
    }
  }

  lemma BeforeIsAsymmetric(ids: seq<string>, x: string, y: string)
    requires Distinct(ids) && Before(ids, x, y)
    ensures !Before(ids, y, x)
  {
  }

  lemma SameHead(ids: seq<string>, a: seq<string>, b: seq<string>)
    requires a != [] && Distinct(ids) && Follows(ids, a) && Follows(ids, b)
    requires forall x :: x in a <==> x in b
    ensures b != [] && b[0] == a[0]
  {
    hide Before;
    assert a[0] in a;
    var k :| 0 <= k < |b| && b[k] == a[0];
    assert b[0] in b;
    var m :| 0 <= m < |a| && a[m] == b[0];
    if k > 0 && m > 0 {
      BeforeIsAsymmetric(ids, a[0], a[m]);
    }
  }

  lemma TailMembers(a: seq<string>)
    requires a != [] && Distinct(a)
    ensures forall x :: x in a[1..] <==> x in a && x != a[0]
  {
    forall x
      ensures x in a[1..] <==> x in a && x != a[0]
    {
      assert a == [a[0]] + a[1..];
      if x in a[1..] {
        var i :| 0 <= i < |a[1..]| && a[1..][i] == x;
        assert a[0] != a[i + 1];
      }
    }
  }
}
