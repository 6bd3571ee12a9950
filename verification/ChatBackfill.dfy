/** `_backfill_chat_messages_from_chat_blob` of backend/open_webui/runtime_migrations.py: message
  * rows rebuilt from the histories stored in chat rows, under ids that must be unique.
  */
module ChatBackfill {
  import opened Collections
  import opened Wrappers

  /** A message object.  `role` and `id` are empty where the field is missing or false; `storable` says
    * that none of the conversions and bindings of its other fields raises.
    */
  datatype Message = Message(role: string, id: string, body: string, storable: bool)

  /** An entry of `history["messages"]`; `None` is a value that is not an object. */
  datatype Entry = Entry(key: string, message: Option<Message>)

  /** A chat row; rows are read in ascending order of id.  A blob without a dictionary of messages has no
    * entries; `dated` says that the time of creation converts to an integer.
    */
  datatype ChatRow = ChatRow(id: string, userId: string, dated: bool, entries: seq<Entry>)

  datatype Row = Row(id: string, chatId: string, userId: string, role: string, body: string)

  /** A message object with a role, and the id it asks for. */
  datatype Item = Item(chatId: string, userId: string, base: string, role: string, body: string, storable: bool)

  function ItemOf(chat: ChatRow, e: Entry): seq<Item> {
    if e.message.None? || e.message.value.role == "" then []
    else
      var m := e.message.value;
      [Item(chat.id, chat.userId, if m.id != "" then m.id else e.key, m.role, m.body, m.storable)]
  }

  function ItemsOf(chat: ChatRow, n: nat): seq<Item>
    requires n <= |chat.entries|
  {
    if n == 0 then [] else ItemsOf(chat, n - 1) + ItemOf(chat, chat.entries[n - 1])
  }

  /** Everything to be inserted, in the order in which the loops come to it. */
  function Items(chats: seq<ChatRow>): seq<Item> {
    if chats == [] then []
    else
      var last := chats[|chats| - 1];
      Items(chats[..|chats| - 1]) + ItemsOf(last, |last.entries|)
  }

  function Prefixed(item: Item): string {
    item.chatId + ":" + item.base
  }

  /** The ids given out.  An id already given out is prefixed with the chat's. */
  function Assigned(items: seq<Item>): (ids: seq<string>)
    ensures |ids| == |items|
  {
    if items == [] then []
    else
      var last := items[|items| - 1];
      var before := Assigned(items[..|items| - 1]);
      before + [NextId(before, last)]
  }

  function RowsOf(items: seq<Item>, ids: seq<string>): seq<Row>
    requires |ids| == |items|
  {
    seq(|items|, i requires 0 <= i < |items| =>
      Row(ids[i], items[i].chatId, items[i].userId, items[i].role, items[i].body))
  }

  /** The id the next item is given. */
  function NextId(ids: seq<string>, item: Item): string {
    if item.base in ids then Prefixed(item) else item.base
  }

  lemma AssignedSnoc(items: seq<Item>, item: Item)
    ensures Assigned(items + [item]) == Assigned(items) + [NextId(Assigned(items), item)]
  {
    assert (items + [item])[..|items + [item]| - 1] == items;
  }

  lemma DistinctSnoc(ids: seq<string>, id: string)
    ensures Distinct(ids + [id]) <==> Distinct(ids) && id !in ids
  {
    var all := ids + [id];
    if Distinct(all) {
      assert forall i, j :: 0 <= i < j < |ids| ==> all[i] == ids[i] && all[j] == ids[j];
      assert forall i :: 0 <= i < |ids| ==> all[i] == ids[i] && all[i] != all[|ids|];
    }
  }

  // ---------- what is inserted ----------

  /** A place in the chats: which chat, and which entry of it. */
  datatype Place = Place(chat: nat, entry: nat)

  predicate Before(a: Place, b: Place) {
    a.chat < b.chat || (a.chat == b.chat && a.entry < b.entry)
  }

  /** There is a message object with a role. */
  predicate HasMessage(chats: seq<ChatRow>, p: Place) {
    && p.chat < |chats| && p.entry < |chats[p.chat].entries|
    && var message := chats[p.chat].entries[p.entry].message; message.Some? && message.value.role != ""
  }

  /** The item has everything from its own place; the id it asks for is the message's, or else its key. */
  predicate IsItemAt(chats: seq<ChatRow>, item: Item, p: Place) {
    && HasMessage(chats, p)
    && var chat := chats[p.chat];
       var message := chat.entries[p.entry].message.value;
       && item.chatId == chat.id && item.userId == chat.userId
       && item.role == message.role && item.body == message.body && item.storable == message.storable
       && (message.id != "" ==> item.base == message.id)
       && (message.id == "" ==> item.base == chat.entries[p.entry].key)
  }

  /** One item for each message object with a role, chat by chat and entry by entry. */
  ghost predicate AreItems(chats: seq<ChatRow>, items: seq<Item>, at: seq<Place>) {
    && |at| == |items|
    && (forall i, j :: 0 <= i < j < |at| ==> Before(at[i], at[j]))
    && (forall i :: 0 <= i < |at| ==> IsItemAt(chats, items[i], at[i]))
    && forall p :: HasMessage(chats, p) ==> p in at
  }

  /** The same for the first `n` entries of the last chat. */
  ghost predicate AreItemsUpTo(chats: seq<ChatRow>, n: nat, items: seq<Item>, at: seq<Place>) {
    && chats != [] && |at| == |items|
    && (forall i, j :: 0 <= i < j < |at| ==> Before(at[i], at[j]))
    && (forall i :: 0 <= i < |at| ==> IsItemAt(chats, items[i], at[i]) && Before(at[i], Place(|chats| - 1, n)))
    && forall p :: HasMessage(chats, p) && Before(p, Place(|chats| - 1, n)) ==> p in at
  }

  lemma OneMoreEntry(chats: seq<ChatRow>, n: nat, items: seq<Item>, at: seq<Place>)
    requires AreItemsUpTo(chats, n, items, at) && n < |chats[|chats| - 1].entries|
    ensures
      var chat := chats[|chats| - 1];
      var more := ItemOf(chat, chat.entries[n]);
      && (more == [] ==> AreItemsUpTo(chats, n + 1, items, at))
      && (more != [] ==> AreItemsUpTo(chats, n + 1, items + more, at + [Place(|chats| - 1, n)]))
  {
    var here := Place(|chats| - 1, n);
    forall p | HasMessage(chats, p) && Before(p, Place(|chats| - 1, n + 1))
      ensures p == here || Before(p, here)
    {
    }
  }

  lemma {:induction false} EntriesAre(chats: seq<ChatRow>, n: nat, before: seq<Item>, at0: seq<Place>)
    returns (at: seq<Place>)
    requires chats != [] && AreItemsUpTo(chats, 0, before, at0) && n <= |chats[|chats| - 1].entries|
    ensures AreItemsUpTo(chats, n, before + ItemsOf(chats[|chats| - 1], n), at)
  {
    hide AreItemsUpTo;
    var chat := chats[|chats| - 1];
    at := at0;
    if n == 0 {
      assert before + [] == before;
    } else {
      at := EntriesAre(chats, n - 1, before, at0);
      var items, more := before + ItemsOf(chat, n - 1), ItemOf(chat, chat.entries[n - 1]);
      OneMoreEntry(chats, n - 1, items, at);
      assert items + more == before + (ItemsOf(chat, n - 1) + more);
      if more != [] {
        at := at + [Place(|chats| - 1, n - 1)];
      } else {
        assert items + more == items;
      }
    }
  }

  lemma AnotherChat(chats: seq<ChatRow>, items: seq<Item>, at: seq<Place>)
    requires chats != [] && AreItems(chats[..|chats| - 1], items, at)
    ensures AreItemsUpTo(chats, 0, items, at)
  {
    var init := chats[..|chats| - 1];
    forall p | HasMessage(chats, p) && Before(p, Place(|chats| - 1, 0))
      ensures HasMessage(init, p)
    {
      assert init[p.chat] == chats[p.chat];
    }
  }

  lemma AllEntries(chats: seq<ChatRow>, items: seq<Item>, at: seq<Place>)
    requires chats != [] && AreItemsUpTo(chats, |chats[|chats| - 1].entries|, items, at)
    ensures AreItems(chats, items, at)
  {
  }

  /** The items are the messages, each once and in order. */
  lemma {:induction false} ItemsAreMessages(chats: seq<ChatRow>) returns (at: seq<Place>)
    ensures AreItems(chats, Items(chats), at)
  {
    at := [];
    if chats != [] {
      hide AreItems, AreItemsUpTo, ItemsOf;
      var init, last := chats[..|chats| - 1], chats[|chats| - 1];
      at := ItemsAreMessages(init);
      AnotherChat(chats, Items(init), at);
      at := EntriesAre(chats, |last.entries|, Items(init), at);
      AllEntries(chats, Items(chats), at);
    }
  }

  /** Each id is the one asked for, unless an earlier row has it; then it is prefixed with the chat's. */
  lemma {:induction false} AssignedIs(items: seq<Item>, i: nat)
    requires i < |items|
    ensures Assigned(items)[i]
            == if items[i].base in Assigned(items)[..i] then items[i].chatId + ":" + items[i].base else items[i].base
    decreases |items|
  {
    var n := |items| - 1;
    var before := Assigned(items[..n]);
    if i < n {
      AssignedIs(items[..n], i);
      assert Assigned(items)[..i] == before[..i];
    } else {
      assert Assigned(items)[..n] == before;
    }
  }

  /** The rows made of these items. */
  predicate AreRows(items: seq<Item>, table: seq<Row>) {
    && |table| == |items|
    && (forall i, j :: 0 <= i < j < |table| ==> table[i].id != table[j].id)
    && forall i :: 0 <= i < |table| ==>
         && table[i].chatId == items[i].chatId && table[i].userId == items[i].userId
         && table[i].role == items[i].role && table[i].body == items[i].body
         && table[i].id == if exists j :: 0 <= j < i && table[j].id == items[i].base
                           then items[i].chatId + ":" + items[i].base else items[i].base
  }

  lemma RowsAreRows(items: seq<Item>)
    requires Distinct(Assigned(items))
    ensures AreRows(items, RowsOf(items, Assigned(items)))
  {
    hide Assigned;
    var ids := Assigned(items);
    var table := RowsOf(items, ids);
    assert forall i :: 0 <= i < |table| ==> table[i].id == ids[i];
    forall i | 0 <= i < |table|
      ensures table[i].id == if exists j :: 0 <= j < i && table[j].id == items[i].base
                             then items[i].chatId + ":" + items[i].base else items[i].base
    {
      AssignedIs(items, i);
      if items[i].base in ids[..i] {
        var j :| 0 <= j < i && ids[..i][j] == items[i].base;
        assert table[j].id == items[i].base;
      }
      if j :| 0 <= j < i && table[j].id == items[i].base {
        assert ids[..i][j] == items[i].base;
      }
    }
  }

  /** Nothing raises: every value can be stored, and no id is given out twice. */
  predicate Accepted(items: seq<Item>) {
    Distinct(Assigned(items)) && AllStorable(items)
  }

  predicate AllStorable(items: seq<Item>) {
    forall i :: 0 <= i < |items| ==> items[i].storable
  }

  // ---------- the loops ----------

  /** The temporary table and `seen_ids` once these items are in. */
  ghost predicate Holds(items: seq<Item>, rows: seq<Row>, seen: set<string>) {
    && rows == RowsOf(items, Assigned(items))
    && Accepted(items)
    && forall id :: id in seen <==> id in Assigned(items)
  }

  /** One insertion. */
  lemma InsertionHolds(items: seq<Item>, rows: seq<Row>, seen: set<string>, item: Item, rowId: string)
    requires Holds(items, rows, seen)
    requires rowId == if item.base in seen then Prefixed(item) else item.base
    ensures rowId !in seen && item.storable ==>
              Holds(items + [item], rows + [Row(rowId, item.chatId, item.userId, item.role, item.body)], seen + {rowId})
    ensures rowId in seen || !item.storable ==> !Accepted(items + [item])
  {
    hide Distinct;
    var ids := Assigned(items);
    AssignedSnoc(items, item);
    DistinctSnoc(ids, rowId);
    assert RowsOf(items + [item], ids + [rowId])
        == RowsOf(items, ids) + [Row(rowId, item.chatId, item.userId, item.role, item.body)];
    assert (items + [item])[|items|] == item;
  }

  /** The inner loop.  `None` where a conversion raises or an insertion breaks the primary key. */
  method InsertMessages(chat: ChatRow, rows: seq<Row>, seen: set<string>, ghost items: seq<Item>)
    returns (more: Option<seq<Row>>, ids: set<string>)
    requires Holds(items, rows, seen)
    ensures var all := items + ItemsOf(chat, |chat.entries|);
      && (more.Some? ==> Holds(all, more.value, ids))
      && (more.None? ==> !Accepted(all))
  {
    hide Holds, Accepted, Assigned;
    var table := rows;
    ids := seen;
    assert items + [] == items;
    for n := 0 to |chat.entries|
      invariant Holds(items + ItemsOf(chat, n), table, ids)
    {
      ghost var all := items + ItemsOf(chat, n);
      var message := chat.entries[n].message;
      if message.None? || message.value.role == "" {
        assert ItemsOf(chat, n + 1) == ItemsOf(chat, n) + [] == ItemsOf(chat, n);
      } else {
        var base := if message.value.id != "" then message.value.id else chat.entries[n].key;
        var m := message.value;
        ghost var item := Item(chat.id, chat.userId, base, m.role, m.body, m.storable);
        assert items + (ItemsOf(chat, n) + [item]) == all + [item];
        var rowId := base;
        if rowId in ids {
          rowId := chat.id + ":" + rowId;
        }
        InsertionHolds(all, table, ids, item, rowId);
        if rowId in ids || !m.storable {
          FailsForGood(items, chat, n + 1);
          return None, ids;
        }
        ids := ids + {rowId};
        table := table + [Row(rowId, chat.id, chat.userId, m.role, m.body)];
      }
    }
    more := Some(table);
  }

  /** Ids once given out twice stay so. */
  lemma {:induction false} AssignedPrefix(items: seq<Item>, more: seq<Item>)
    ensures Assigned(items) <= Assigned(items + more)
    ensures Distinct(Assigned(items + more)) ==> Distinct(Assigned(items))
    decreases |more|
  {
    hide Distinct, NextId;
    if more == [] {
      assert items + more == items;
    } else {
      var init := more[..|more| - 1];
      assert items + more == (items + init) + [more[|more| - 1]];
      AssignedPrefix(items, init);
      AssignedSnoc(items + init, more[|more| - 1]);
      DistinctSnoc(Assigned(items + init), NextId(Assigned(items + init), more[|more| - 1]));
    }
  }

  lemma {:induction false} ItemsGrow(chat: ChatRow, n: nat, m: nat)
    requires n <= m <= |chat.entries|
    ensures ItemsOf(chat, n) <= ItemsOf(chat, m)
    decreases m
  {
    if n < m {
      ItemsGrow(chat, n, m - 1);
    }
  }

  /** Nor is a failure undone by what would have come later. */
  lemma AcceptedPrefix(items: seq<Item>, more: seq<Item>)
    requires Accepted(items + more)
    ensures Accepted(items)
  {
    AssignedPrefix(items, more);
    forall i | 0 <= i < |items|
      ensures items[i].storable
    {
      assert (items + more)[i] == items[i];
    }
  }

  lemma FailsForGood(items: seq<Item>, chat: ChatRow, n: nat)
    requires n <= |chat.entries| && !Accepted(items + ItemsOf(chat, n))
    ensures !Accepted(items + ItemsOf(chat, |chat.entries|))
  {
    hide Accepted;
    var here, all := ItemsOf(chat, n), ItemsOf(chat, |chat.entries|);
    ItemsGrow(chat, n, |chat.entries|);
    assert items + all == (items + here) + all[|here|..];
    if Accepted((items + here) + all[|here|..]) {
      AcceptedPrefix(items + here, all[|here|..]);
    }
  }

  lemma NothingHolds()
    ensures Holds([], [], {})
  {
  }

  lemma HoldsAll(items: seq<Item>, rows: seq<Row>, seen: set<string>)
    requires Holds(items, rows, seen)
    ensures Accepted(items) && rows == RowsOf(items, Assigned(items))
  {
  }

  predicate AllDated(chats: seq<ChatRow>) {
    forall i :: 0 <= i < |chats| ==> chats[i].dated
  }

  /** One row for each message object with a role, in order and under an id of its own. */
  ghost predicate IsBackfill(chats: seq<ChatRow>, table: seq<Row>) {
    exists items, at :: AreItems(chats, items, at) && AreRows(items, table)
  }

  lemma BackfillHolds(chats: seq<ChatRow>)
    requires Accepted(Items(chats))
    ensures IsBackfill(chats, RowsOf(Items(chats), Assigned(Items(chats))))
  {
    hide AreItems, AreRows;
    var at := ItemsAreMessages(chats);
    RowsAreRows(Items(chats));
  }

  /** The outer loop: a row for each message object with a role, or the failure of the migration. */
  method Backfill(chats: seq<ChatRow>) returns (table: Option<seq<Row>>)
    ensures table == if AllDated(chats) && Accepted(Items(chats))
                     then Some(RowsOf(Items(chats), Assigned(Items(chats)))) else None
    ensures table.Some? ==> IsBackfill(chats, table.value)
  {
    hide Holds, Accepted, Assigned, RowsOf, IsBackfill;
    var rows: seq<Row>, seen: set<string> := [], {};
    NothingHolds();
    assert chats[..0] == [];
    for n := 0 to |chats|
      invariant Holds(Items(chats[..n]), rows, seen)
      invariant AllDated(chats[..n])
    {
      assert chats[..n + 1][..n] == chats[..n];
      if !chats[n].dated {
        return None;
      }
      var more, ids := InsertMessages(chats[n], rows, seen, Items(chats[..n]));
      if more.None? {
        ChatFails(chats, n + 1);
        return None;
      }
      rows, seen := more.value, ids;
    }
    assert chats[..|chats|] == chats;
    HoldsAll(Items(chats), rows, seen);
    BackfillHolds(chats);
    table := Some(rows);
  }

  lemma {:induction false} ChatFails(chats: seq<ChatRow>, n: nat)
    requires n <= |chats| && !Accepted(Items(chats[..n]))
    ensures !Accepted(Items(chats))
    decreases |chats|
  {
    hide Accepted;
    if n == |chats| {
      assert chats[..n] == chats;
    } else {
      var init, last := chats[..|chats| - 1], chats[|chats| - 1];
      assert init[..n] == chats[..n];
      ChatFails(init, n);
      if Accepted(Items(init) + ItemsOf(last, |last.entries|)) {
        AcceptedPrefix(Items(init), ItemsOf(last, |last.entries|));
      }
    }
  }

  // ---------- when the ids are distinct ----------

  predicate NoColon(items: seq<Item>) {
    forall i :: 0 <= i < |items| ==> ':' !in items[i].chatId && ':' !in items[i].base
  }

  /** An earlier item asks for the same id. */
  predicate Repeats(items: seq<Item>, i: int)
    requires 0 <= i < |items|
  {
    exists j :: 0 <= j < i && items[j].base == items[i].base
  }

  /** No chat repeats one id twice. */
  predicate RepeatedOncePerChat(items: seq<Item>) {
    forall i, j :: 0 <= i < j < |items| && Repeats(items, i) && Repeats(items, j) ==>
      items[i].chatId != items[j].chatId || items[i].base != items[j].base
  }

  lemma PrefixedHasColon(item: Item)
    ensures ':' in Prefixed(item)
  {
    assert Prefixed(item)[|item.chatId|] == ':';
  }

  /** Without colons, exactly the repeated ids are prefixed. */
  lemma {:induction false} AssignedAt(items: seq<Item>, i: nat)
    requires NoColon(items) && i < |items|
    ensures Assigned(items)[i] == if Repeats(items, i) then Prefixed(items[i]) else items[i].base
  {
    hide Assigned, Prefixed;
    var ids := Assigned(items);
    AssignedIs(items, i);
    assert items[i].chatId + ":" + items[i].base == Prefixed(items[i]) by {
      PrefixedIs(items[i]);
    }
    forall j | 0 <= j < i
      ensures ids[j] == if Repeats(items, j) then Prefixed(items[j]) else items[j].base
      ensures ':' in Prefixed(items[j])
    {
      AssignedAt(items, j);
      PrefixedHasColon(items[j]);
    }
    if Repeats(items, i) {
      FirstOccurrence(items, i);
      var j :| 0 <= j <= i && items[j].base == items[i].base && !Repeats(items, j);
      assert ids[..i][j] == items[i].base;
    }
  }

  lemma PrefixedIs(item: Item)
    ensures Prefixed(item) == item.chatId + ":" + item.base
  {
  }

  lemma {:induction false} FirstOccurrence(items: seq<Item>, i: nat)
    requires i < |items|
    ensures exists j :: 0 <= j <= i && items[j].base == items[i].base && !Repeats(items, j)
  {
    if Repeats(items, i) {
      var j :| 0 <= j < i && items[j].base == items[i].base;
      FirstOccurrence(items, j);
    }
  }

  lemma FirstColon(a: Item)
    requires ':' !in a.chatId
    ensures Prefixed(a)[|a.chatId|] == ':' && forall k :: 0 <= k < |a.chatId| ==> Prefixed(a)[k] != ':'
  {
    assert forall k :: 0 <= k < |a.chatId| ==> Prefixed(a)[k] == a.chatId[k] && a.chatId[k] in a.chatId;
  }

  /** Of two ids without colons, the parts of a prefixed one can be told apart. */
  lemma PrefixedIsInjective(a: Item, b: Item)
    requires ':' !in a.chatId && ':' !in b.chatId && Prefixed(a) == Prefixed(b)
    ensures a.chatId == b.chatId && a.base == b.base
  {
    var p, q := Prefixed(a), Prefixed(b);
    var m, n := |a.chatId|, |b.chatId|;
    FirstColon(a);
    FirstColon(b);
    assert p[..m] == a.chatId && q[..n] == b.chatId;
    assert p[m + 1..] == a.base && q[n + 1..] == b.base;
  }

  lemma ColonTells(a: Item, b: Item)
    requires ':' !in b.base
    ensures Prefixed(a) != b.base
  {
    assert Prefixed(a)[|a.chatId|] == ':';
  }

  /** Without colons in ids, all rows get distinct ids exactly when no chat repeats one id twice. */
  lemma DistinctIff(items: seq<Item>)
    requires NoColon(items)
    ensures Distinct(Assigned(items)) <==> RepeatedOncePerChat(items)
  {
    forall i, j | 0 <= i < j < |items|
      ensures Assigned(items)[i] == Assigned(items)[j] <==>
                Repeats(items, i) && Repeats(items, j)
                && items[i].chatId == items[j].chatId && items[i].base == items[j].base
    {
      AssignedAt(items, i);
      AssignedAt(items, j);
      ColonTells(items[i], items[j]);
      ColonTells(items[j], items[i]);
      if Prefixed(items[i]) == Prefixed(items[j]) {
        PrefixedIsInjective(items[i], items[j]);
      }
    }
  }

  /** No two messages of one chat ask for one id. */
  predicate DistinctWithinChats(items: seq<Item>) {
    forall i, j :: 0 <= i < j < |items| ==> items[i].chatId != items[j].chatId || items[i].base != items[j].base
  }

  /** So ids may repeat across chats at will: the backfill inserts one row per message object with a
    * role, in order, under distinct ids.
    */
  lemma AcrossChats(items: seq<Item>)
    requires NoColon(items) && DistinctWithinChats(items)
    ensures Distinct(Assigned(items))
  {
    DistinctIff(items);
  }

  /** Ids without colons, and distinct ones among the messages of the chat. */
  predicate WellNamed(chat: ChatRow) {
    NoColon(ItemsOf(chat, |chat.entries|)) && DistinctWithinChats(ItemsOf(chat, |chat.entries|))
  }

  predicate DistinctChats(chats: seq<ChatRow>) {
    forall i, j :: 0 <= i < j < |chats| ==> chats[i].id != chats[j].id
  }

  lemma {:induction false} ItemsNameTheChat(chat: ChatRow, n: nat, item: Item)
    requires n <= |chat.entries| && item in ItemsOf(chat, n)
    ensures item.chatId == chat.id
  {
    if item in ItemsOf(chat, n - 1) {
      ItemsNameTheChat(chat, n - 1, item);
    }
  }

  lemma {:induction false} ItemsNameAChat(chats: seq<ChatRow>, item: Item)
    requires item in Items(chats)
    ensures exists i :: 0 <= i < |chats| && item.chatId == chats[i].id
  {
    var init, last := chats[..|chats| - 1], chats[|chats| - 1];
    if item in Items(init) {
      ItemsNameAChat(init, item);
      var i :| 0 <= i < |init| && item.chatId == init[i].id;
      assert chats[i] == init[i];
    } else {
      ItemsNameTheChat(last, |last.entries|, item);
    }
  }

  lemma {:induction false} ItemsAreApart(chats: seq<ChatRow>)
    requires DistinctChats(chats) && forall chat :: chat in chats ==> WellNamed(chat)
    ensures NoColon(Items(chats)) && DistinctWithinChats(Items(chats))
  {
    if chats != [] {
      var init, last := chats[..|chats| - 1], chats[|chats| - 1];
      ItemsAreApart(init);
      var before, more := Items(init), ItemsOf(last, |last.entries|);
      assert WellNamed(last);
      forall i, j | 0 <= i < |before| && 0 <= j < |more|
        ensures before[i].chatId != more[j].chatId
      {
        ItemsNameAChat(init, before[i]);
        ItemsNameTheChat(last, |last.entries|, more[j]);
      }
    }
  }

  /** Given distinct chat ids, distinct ids within each chat and no colons, the backfill succeeds exactly
    * when every value can be stored.
    */
  lemma BackfillSucceedsIff(chats: seq<ChatRow>)
    requires DistinctChats(chats) && forall chat :: chat in chats ==> WellNamed(chat)
    ensures Accepted(Items(chats)) <==> AllStorable(Items(chats))
  {
    ItemsAreApart(chats);
    AcrossChats(Items(chats));
  }

  /** A plain message of a chat that asks for an id. */
  function Asking(chatId: string, base: string): Item {
    Item(chatId, "u", base, "user", "", true)
  }

  /** With a colon that is no longer so: three chats, in the ascending order of ids in which they are
    * read, each with one message.
    */
  lemma ColonCollides()
    ensures
      var items := [Asking("a", "c:m"), Asking("b", "m"), Asking("c", "m")];
      DistinctWithinChats(items) && !Distinct(Assigned(items))
  {
    var x, y, z := Asking("a", "c:m"), Asking("b", "m"), Asking("c", "m");
    AssignedSnoc([], x);
    AssignedSnoc([x], y);
    AssignedSnoc([x, y], z);
    assert [] + [x] == [x] && [x] + [y] == [x, y] && [x, y] + [z] == [x, y, z];
    assert Prefixed(z) == "c:m";
    assert Assigned([x, y, z]) == ["c:m", "m"] + ["c:m"];
    assert ["c:m", "m"][0] == "c:m";
    DistinctSnoc(["c:m", "m"], "c:m");
  }
}
