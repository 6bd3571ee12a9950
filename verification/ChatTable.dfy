/** The writers of backend/open_webui/models/chats.py, each refining one step of the clock. */
module ChatTable {
  import opened Collections
  import opened Wrappers
  import opened ChatClock

  lemma LatestIsUnique(rows: map<string, Row>, user: string, m: Option<int>)
    requires IsLatest(rows, rows.Keys, user, m)
    ensures m == Latest(rows, user)
  {
  }

  lemma {:induction false} AddAllExtends(cs: map<string, Chat>, user: string, forms: seq<Form>, n: nat)
    requires n < |forms|
    ensures AddAll(cs, user, forms[..n + 1]) == AddAll(cs, user, forms[..n])[forms[n].id := NewChat(user, forms[n])]
  {
    assert forms[..n + 1][..n] == forms[..n];
  }

  predicate NewIds(table: map<string, Row>, forms: seq<Form>) {
    Distinct(FormIds(forms)) && forall form :: form in forms ==> form.id !in table
  }

  /** The table with a row per form, stamped `now`, `now + 1`, ... */
  ghost predicate Extended(table: map<string, Row>, user: string, forms: seq<Form>, now: int, after: map<string, Row>) {
    && Chats(after) == AddAll(Chats(table), user, forms)
    && (forall i :: 0 <= i < |forms| ==> forms[i].id in after && after[forms[i].id].updatedAt == now + i)
    && (forall id :: id in after && id !in FormIds(forms) ==> id in table && after[id] == table[id])
  }

  lemma ExtendedByOne(
    table: map<string, Row>, user: string, forms: seq<Form>, now: int, after: map<string, Row>, n: nat
  )
    requires n < |forms| && Extended(table, user, forms[..n], now, after) && forms[n].id !in after
    ensures Extended(table, user, forms[..n + 1], now, after[forms[n].id := Row(NewChat(user, forms[n]), now + n)])
  {
    hide AddAll, NewChat;
    var more := after[forms[n].id := Row(NewChat(user, forms[n]), now + n)];
    AddAllExtends(Chats(table), user, forms, n);
    assert Chats(more) == Chats(after)[forms[n].id := NewChat(user, forms[n])];
    assert FormIds(forms[..n + 1]) == FormIds(forms[..n]) + [forms[n].id];
    forall i | 0 <= i < n
      ensures forms[i].id in more && more[forms[i].id].updatedAt == now + i
    {
      assert forms[..n][i] == forms[i];
    }
  }

  lemma NewIdsExtend(table: map<string, Row>, user: string, forms: seq<Form>, now: int, after: map<string, Row>, n: nat)
    requires n < |forms| && Extended(table, user, forms[..n], now, after) && NewIds(table, forms[..n])
    ensures NewIds(table, forms[..n + 1]) <==> forms[n].id !in after
  {
    var ids := FormIds(forms[..n]);
    assert FormIds(forms[..n + 1]) == ids + [forms[n].id];
    assert forms[..n + 1] == forms[..n] + [forms[n]];
    AddAllMembers(Chats(table), user, forms[..n]);
    assert forms[n].id in after <==> forms[n].id in Chats(after);
    if forms[n].id in ids {
      var i :| 0 <= i < n && ids[i] == forms[n].id;
      assert FormIds(forms[..n + 1])[i] == FormIds(forms[..n + 1])[n];
    }
  }

  lemma NewIdsPrefix(table: map<string, Row>, forms: seq<Form>, n: nat)
    requires n <= |forms| && NewIds(table, forms)
    ensures NewIds(table, forms[..n])
  {
    forall i, j | 0 <= i < j < n
      ensures FormIds(forms[..n])[i] != FormIds(forms[..n])[j]
    {
      assert FormIds(forms)[i] != FormIds(forms)[j];
    }
  }

  /** Adding the new rows of a bulk replacement to what the deletions left. */
  method AddRows(table: map<string, Row>, user: string, forms: seq<Form>, now: int)
    returns (after: map<string, Row>, unique: bool)
    ensures unique <==> NewIds(table, forms)
    ensures unique ==> Extended(table, user, forms, now, after)
  {
    hide NewIds;
    after, unique := table, true;
    NothingAdded(table, user, forms, now);
    for n := 0 to |forms|
      invariant unique ==> NewIds(table, forms[..n]) && Extended(table, user, forms[..n], now, after)
      invariant !unique ==> !NewIds(table, forms)
    {
      if unique {
        NewIdsExtend(table, user, forms, now, after, n);
        if forms[n].id in after {
          if NewIds(table, forms) {
            NewIdsPrefix(table, forms, n + 1);
          }
          unique := false;
        } else {
          ExtendedByOne(table, user, forms, now, after, n);
        }
      }
      after := after[forms[n].id := Row(NewChat(user, forms[n]), now + n)];
    }
    assert forms[..|forms|] == forms;
  }

  lemma NothingAdded(table: map<string, Row>, user: string, forms: seq<Form>, now: int)
    ensures NewIds(table, forms[..0]) && Extended(table, user, forms[..0], now, table)
  {
  }

  /** A chat without a share id gets a copy under its own user, and the copy's id, if none has it already. */
  ghost predicate IsShared(
    before: map<string, Row>, chatId: string, uuid: string, now: int, after: map<string, Row>
  ) {
    if chatId !in before || uuid in before || before[chatId].chat.shareId !in {None, Some("")} then after == before
    else
      var chat := before[chatId].chat;
      var copy := Chat("shared-" + chatId, chat.body, false, false, None, None);
      var copied := before[uuid := Row(copy, Stamp(before, "shared-" + chatId, now))];
      var taken := exists other :: other in before && other != chatId && before[other].chat.shareId == Some(uuid);
      after == if taken then copied
               else copied[chatId := Row(chat.(shareId := Some(uuid)), before[chatId].updatedAt)]
  }

  /** The row is the user's, or a shared copy of one of the user's chats. */
  predicate OwnOrCopy(rows: map<string, Row>, user: string, id: string)
    requires id in rows
  {
    var owner := rows[id].chat.userId;
    owner == user || exists o :: o in rows && rows[o].chat.userId == user && owner == "shared-" + o
  }

  /** No new id is given twice, or is that of a row that stays. */
  predicate NoneTaken(rows: map<string, Row>, user: string, forms: seq<Form>) {
    && (forall i, j :: 0 <= i < j < |forms| ==> forms[i].id != forms[j].id)
    && forall i :: 0 <= i < |forms| && forms[i].id in rows ==> OwnOrCopy(rows, user, forms[i].id)
  }

  /** What a bulk replacement makes of a table: the user's rows and the shared copies of them go, each form
    * gets a row, in order one second apart, and every other row stays as it was.
    */
  ghost predicate IsReplaced(
    before: map<string, Row>, user: string, forms: seq<Form>, now: int, after: map<string, Row>
  ) {
    && (forall id :: id in after <==>
          (id in before && !OwnOrCopy(before, user, id)) || exists i :: 0 <= i < |forms| && forms[i].id == id)
    && (forall id :: id in before && !OwnOrCopy(before, user, id) ==> id in after && after[id] == before[id])
    && (forall i :: 0 <= i < |forms| ==>
          forms[i].id in after
          && after[forms[i].id]
             == Row(Chat(user, forms[i].body, forms[i].pinned, false, forms[i].folderId, None), now + i))
  }

  class Table {
    var rows: map<string, Row>

    constructor ()
      ensures rows == map[]
    {
      rows := map[];
    }

    /** `_next_user_chat_timestamp`; the loop is the `MAX` aggregate. */
    method NextUserChatTimestamp(user: string, now: int) returns (t: int)
      ensures t == Stamp(rows, user, now)
    {
      var rest := rows.Keys;
      var latest: Option<int> := None;
      while rest != {}
        invariant rest <= rows.Keys && IsLatest(rows, rows.Keys - rest, user, latest)
        decreases |rest|
      {
        var id :| id in rest;
        if rows[id].chat.userId == user && (latest.None? || latest.value < rows[id].updatedAt) {
          latest := Some(rows[id].updatedAt);
        }
        assert rows.Keys - (rest - {id}) == (rows.Keys - rest) + {id};
        rest := rest - {id};
      }
      assert rows.Keys - {} == rows.Keys;
      LatestIsUnique(rows, user, latest);
      var known := match latest case None => 0 case Some(v) => v;
      t := if known >= now then known + 1 else now;
    }

    /** `insert_new_chat` and `import_chat` */
    method InsertChat(user: string, form: Form, now: int) returns (added: bool)
      modifies this
      ensures rows == Apply(old(rows), Insert(user, form), now)
      ensures added <==> form.id !in old(rows)
      ensures !added ==> rows == old(rows)
      ensures added ==>
        var chat := Chat(user, form.body, form.pinned, false, form.folderId, None);
        rows == old(rows)[form.id := Row(chat, Stamp(old(rows), user, now))]
    {
      hide Apply, IsLatest;
      var t := NextUserChatTimestamp(user, now);
      added := form.id !in rows;
      if added {
        rows := rows[form.id := Row(NewChat(user, form), t)];
      }
      SameTable(old(rows), Insert(user, form), now, rows);
    }

    /** `update_chat_by_id` */
    method UpdateChatById(id: string, body: string, now: int) returns (found: bool)
      modifies this
      ensures rows == Apply(old(rows), Touch(id, Body(body)), now) && (found <==> id in old(rows))
      ensures !found ==> rows == old(rows)
      ensures found ==>
        var chat := old(rows)[id].chat;
        rows == old(rows)[id := Row(chat.(body := body), Stamp(old(rows), chat.userId, now))]
    {
      hide Apply, IsLatest;
      found := id in rows;
      if found {
        var chat := rows[id].chat;
        var t := NextUserChatTimestamp(chat.userId, now);
        rows := rows[id := Row(chat.(body := body), t)];
      }
      SameTable(old(rows), Touch(id, Body(body)), now, rows);
    }

    /** `toggle_chat_pinned_by_id` */
    method ToggleChatPinnedById(id: string, now: int) returns (found: bool)
      modifies this
      ensures rows == Apply(old(rows), Touch(id, TogglePinned), now) && (found <==> id in old(rows))
      ensures !found ==> rows == old(rows)
      ensures found ==>
        var chat := old(rows)[id].chat;
        rows == old(rows)[id := Row(chat.(pinned := !chat.pinned), Stamp(old(rows), chat.userId, now))]
    {
      hide Apply, IsLatest;
      found := id in rows;
      if found {
        var chat := rows[id].chat;
        var t := NextUserChatTimestamp(chat.userId, now);
        rows := rows[id := Row(chat.(pinned := !chat.pinned), t)];
      }
      SameTable(old(rows), Touch(id, TogglePinned), now, rows);
    }

    /** `toggle_chat_archive_by_id` */
    method ToggleChatArchiveById(id: string, now: int) returns (found: bool)
      modifies this
      ensures rows == Apply(old(rows), Touch(id, ToggleArchived), now) && (found <==> id in old(rows))
      ensures !found ==> rows == old(rows)
      ensures found ==>
        var chat := old(rows)[id].chat;
        rows == old(rows)[id := Row(chat.(archived := !chat.archived), Stamp(old(rows), chat.userId, now))]
    {
      hide Apply, IsLatest;
      found := id in rows;
      if found {
        var chat := rows[id].chat;
        var t := NextUserChatTimestamp(chat.userId, now);
        rows := rows[id := Row(chat.(archived := !chat.archived), t)];
      }
      SameTable(old(rows), Touch(id, ToggleArchived), now, rows);
    }

    /** `update_chat_folder_id_by_id_and_user_id`: filing a chat also unpins it. */
    method UpdateChatFolderId(id: string, folderId: Option<string>, now: int) returns (found: bool)
      modifies this
      ensures rows == Apply(old(rows), Touch(id, MoveTo(folderId)), now) && (found <==> id in old(rows))
      ensures !found ==> rows == old(rows)
      ensures found ==>
        var chat := old(rows)[id].chat;
        rows == old(rows)[id := Row(chat.(folderId := folderId, pinned := false), Stamp(old(rows), chat.userId, now))]
    {
      hide Apply, IsLatest;
      found := id in rows;
      if found {
        var chat := rows[id].chat;
        var t := NextUserChatTimestamp(chat.userId, now);
        rows := rows[id := Row(chat.(folderId := folderId, pinned := false), t)];
      }
      SameTable(old(rows), Touch(id, MoveTo(folderId)), now, rows);
    }

    /** `insert_shared_chat_by_chat_id`: the copy is one commit, the link to it another. */
    method InsertSharedChat(chatId: string, uuid: string, now: int)
      modifies this
      ensures rows == Apply(old(rows), Share(chatId, uuid), now)
      ensures IsShared(old(rows), chatId, uuid, now, rows)
    {
      hide Apply, IsLatest;
      ShareExactly(rows, chatId, uuid, now);
      if chatId in rows && uuid !in rows {
        var chat := rows[chatId].chat;
        if chat.shareId.None? || chat.shareId.value == "" {
          var user := SharedUser(chatId);
          var t := NextUserChatTimestamp(user, now);
          rows := rows[uuid := Row(Chat(user, chat.body, false, false, None, None), t)];
          assert forall other :: other in old(rows) ==> other in rows && rows[other] == old(rows)[other];
          if !exists other :: other in rows && other != chatId && rows[other].chat.shareId == Some(uuid) {
            rows := rows[chatId := rows[chatId].(chat := chat.(shareId := Some(uuid)))];
          }
        }
      }
    }

    /** `update_shared_chat_by_chat_id`; `first` is what the query for a copy returns. */
    method UpdateSharedChat(chatId: string, first: Option<string>, uuid: string, now: int)
      modifies this
      ensures rows == Apply(old(rows), UpdateShared(chatId, first, uuid), now)
      ensures first.None? ==> IsShared(old(rows), chatId, uuid, now, rows)
      ensures first.Some? && (chatId !in old(rows) || first.value !in old(rows)) ==> rows == old(rows)
      ensures first.Some? && chatId in old(rows) && first.value in old(rows) ==>
        var copy := old(rows)[first.value].chat;
        rows == old(rows)[first.value := Row(copy.(body := old(rows)[chatId].chat.body),
                                             Stamp(old(rows), copy.userId, now))]
    {
      hide Apply, IsLatest, IsShared;
      if first.None? {
        SharedAlike(rows, chatId, uuid, now);
        InsertSharedChat(chatId, uuid, now);
        return;
      }
      if chatId in rows && first.value in rows {
        var copy := rows[first.value].chat;
        var t := NextUserChatTimestamp(copy.userId, now);
        rows := rows[first.value := Row(copy.(body := rows[chatId].chat.body), t)];
      }
      SameTable(old(rows), UpdateShared(chatId, first, uuid), now, rows);
    }

    /** The rows that a bulk replacement leaves: not the user's, nor the shared copies of them. */
    method Remaining(user: string) returns (left: map<string, Row>)
      ensures Chats(left) == Kept(Chats(rows), user)
      ensures forall id :: id in left ==> id in rows && left[id] == rows[id]
      ensures forall id :: id in left <==> id in rows && !OwnOrCopy(rows, user, id)
    {
      hide OwnOrCopy, Kept;
      KeptMembers(rows, user);
      var owned := set id | id in rows && rows[id].chat.userId == user;
      var sharedUsers := set id | id in owned :: SharedUser(id);
      SharedUsersAre(rows, user, sharedUsers);
      left := rows - owned - (set id | id in rows && rows[id].chat.userId in sharedUsers);
    }

    /** `replace_chats_by_user_id`: one transaction, rolled back when a key is taken. */
    method ReplaceChats(user: string, forms: seq<Form>, now: int) returns (done: bool)
      modifies this
      ensures rows == Apply(old(rows), Replace(user, forms), now)
      ensures done <==> Replaceable(Chats(old(rows)), user, forms)
      ensures done <==> NoneTaken(old(rows), user, forms)
      ensures done ==> IsReplaced(old(rows), user, forms, now, rows)
      ensures !done ==> rows == old(rows)
    {
      hide Apply, IsLatest, Extended, NewIds, Replaceable, Chats, Kept, AddAll, NoneTaken, IsReplaced;
      ReplaceExactly(rows, user, forms, now);
      var left := Remaining(user);
      var table;
      table, done := AddRows(left, user, forms, now);
      NewIdsReplace(rows, user, forms, left);
      if done {
        ReplacedTable(rows, user, forms, now, left, table);
        rows := table;
      } else {
        NothingReplaced(rows, user, forms, now);
      }
    }

    /** `delete_chat_by_id` */
    method DeleteChatById(id: string, now: int)
      modifies this
      ensures var copies := set x | x in old(rows) && old(rows)[x].chat.userId == SharedUser(id);
              rows == Apply(old(rows), Delete(copies + {id}), now)
      ensures forall x :: x in rows <==> x in old(rows) && x != id && old(rows)[x].chat.userId != "shared-" + id
      ensures forall x :: x in rows ==> rows[x] == old(rows)[x]
    {
      hide Apply, IsLatest;
      ghost var copies := set x | x in rows && rows[x].chat.userId == SharedUser(id);
      rows := rows - {id};
      rows := rows - (set x | x in rows && rows[x].chat.userId == SharedUser(id));
      SameTable(old(rows), Delete(copies + {id}), now, rows);
    }

    /** `delete_chats_by_user_id` */
    method DeleteChatsByUserId(user: string, now: int)
      modifies this
      ensures var cs := Chats(old(rows)); rows == Apply(old(rows), Delete(Owned(cs, user) + Copies(cs, user)), now)
      ensures forall id :: id in rows <==> id in old(rows) && !OwnOrCopy(old(rows), user, id)
      ensures forall id :: id in rows ==> rows[id] == old(rows)[id]
    {
      hide Apply, IsLatest, Owned, Copies, Chats, OwnOrCopy;
      DeleteAllExactly(rows, user, now);
      var sharedUsers := set id | id in rows && rows[id].chat.userId == user :: SharedUser(id);
      SharedUsersAre(rows, user, sharedUsers);
      rows := rows - (set id | id in rows && rows[id].chat.userId in sharedUsers);
      rows := rows - (set id | id in rows && rows[id].chat.userId == user);
    }
  }

  lemma SharedUsersAre(rows: map<string, Row>, user: string, sharedUsers: set<string>)
    requires sharedUsers == set id | id in rows && rows[id].chat.userId == user :: SharedUser(id)
    ensures forall id :: id in rows ==>
              (OwnOrCopy(rows, user, id) <==> rows[id].chat.userId == user || rows[id].chat.userId in sharedUsers)
  {
  }

  lemma KeptMembers(rows: map<string, Row>, user: string)
    ensures forall id :: id in Kept(Chats(rows), user) <==> id in rows && !OwnOrCopy(rows, user, id)
    ensures forall id :: id in Kept(Chats(rows), user) ==> Kept(Chats(rows), user)[id] == rows[id].chat
  {
    var cs := Chats(rows);
    forall id | id in rows
      ensures id in Copies(cs, user)
              <==> exists o :: o in rows && rows[o].chat.userId == user && rows[id].chat.userId == "shared-" + o
    {
      assert forall o :: o in cs ==> cs[o].userId == rows[o].chat.userId;
    }
  }

  lemma DeleteAllExactly(rows: map<string, Row>, user: string, now: int)
    ensures
      var cs := Chats(rows);
      var next := Apply(rows, Delete(Owned(cs, user) + Copies(cs, user)), now);
      && (forall id :: id in next <==> id in rows && !OwnOrCopy(rows, user, id))
      && (forall id :: id in next ==> next[id] == rows[id])
  {
    hide Owned, Copies, OwnOrCopy;
    assert Decide(Chats(rows), Delete(Owned(Chats(rows), user) + Copies(Chats(rows), user)))
           == (Kept(Chats(rows), user), []);
    KeptMembers(rows, user);
  }

  lemma TakenByOthers(rows: map<string, Row>, copied: map<string, Row>, chatId: string, uuid: string)
    requires uuid !in rows && uuid in copied && copied == rows[uuid := copied[uuid]]
    requires copied[uuid].chat.shareId == None
    ensures ShareTaken(Chats(copied), uuid, chatId)
            <==> exists other :: other in rows && other != chatId && rows[other].chat.shareId == Some(uuid)
  {
    forall other
      ensures other in Chats(copied) && Chats(copied)[other].shareId == Some(uuid)
              <==> other in rows && rows[other].chat.shareId == Some(uuid)
    {
    }
  }

  lemma ShareExactly(rows: map<string, Row>, chatId: string, uuid: string, now: int)
    ensures IsShared(rows, chatId, uuid, now, Apply(rows, Share(chatId, uuid), now))
  {
    hide Stamp, Apply;
    var op := Share(chatId, uuid);
    if chatId !in rows || uuid in rows || rows[chatId].chat.shareId !in {None, Some("")} {
      assert Decide(Chats(rows), op) == (Chats(rows), []);
      SameTable(rows, op, now, rows);
    } else {
      var chat := rows[chatId].chat;
      var copy := Chat("shared-" + chatId, chat.body, false, false, None, None);
      var copied := rows[uuid := Row(copy, Stamp(rows, "shared-" + chatId, now))];
      assert Chats(copied) == Chats(rows)[uuid := copy];
      TakenByOthers(rows, copied, chatId, uuid);
      if ShareTaken(Chats(copied), uuid, chatId) {
        SameTable(rows, op, now, copied);
      } else {
        SameTable(rows, op, now, copied[chatId := Row(chat.(shareId := Some(uuid)), rows[chatId].updatedAt)]);
      }
    }
  }

  lemma {:induction false} AddAllLast(cs: map<string, Chat>, user: string, forms: seq<Form>, i: nat)
    requires i < |forms| && Distinct(FormIds(forms))
    ensures forms[i].id in AddAll(cs, user, forms) && AddAll(cs, user, forms)[forms[i].id] == NewChat(user, forms[i])
  {
    var n := |forms| - 1;
    if i < n {
      assert FormIds(forms)[i] != FormIds(forms)[n];
      assert FormIds(forms[..n]) == FormIds(forms)[..n];
      AddAllLast(cs, user, forms[..n], i);
    }
  }

  lemma ReplaceableIff(rows: map<string, Row>, user: string, forms: seq<Form>)
    ensures Replaceable(Chats(rows), user, forms) <==> NoneTaken(rows, user, forms)
  {
    hide Kept;
    KeptMembers(rows, user);
    assert forall i :: 0 <= i < |forms| ==> FormIds(forms)[i] == forms[i].id;
    assert forall i :: 0 <= i < |forms| ==> forms[i] in forms;
  }

  /** What `Replace` does to a table, in terms of its rows. */
  lemma ReplaceExactly(rows: map<string, Row>, user: string, forms: seq<Form>, now: int)
    ensures Replaceable(Chats(rows), user, forms) <==> NoneTaken(rows, user, forms)
    ensures Replaceable(Chats(rows), user, forms) ==>
              IsReplaced(rows, user, forms, now, Apply(rows, Replace(user, forms), now))
    ensures !Replaceable(Chats(rows), user, forms) ==> Apply(rows, Replace(user, forms), now) == rows
  {
    ReplaceableIff(rows, user, forms);
    if Replaceable(Chats(rows), user, forms) {
      ReplacesRows(rows, user, forms, now);
    } else {
      NothingReplaced(rows, user, forms, now);
    }
  }

  /** Where the form with this id is, and what becomes of it. */
  lemma FormRow(rows: map<string, Row>, user: string, forms: seq<Form>, now: int, i: nat)
    requires Replaceable(Chats(rows), user, forms) && i < |forms|
    ensures var next := Apply(rows, Replace(user, forms), now);
      && forms[i].id in next
      && next[forms[i].id] == Row(Chat(user, forms[i].body, forms[i].pinned, false, forms[i].folderId, None), now + i)
  {
    hide Kept, AddAll;
    var kept, ids := Kept(Chats(rows), user), FormIds(forms);
    assert ids[i] in ids && IndexOf(ids, ids[i]) == i;
    AddAllMembers(kept, user, forms);
    AddAllLast(kept, user, forms, i);
  }

  lemma ReplacesRows(rows: map<string, Row>, user: string, forms: seq<Form>, now: int)
    requires Replaceable(Chats(rows), user, forms)
    ensures IsReplaced(rows, user, forms, now, Apply(rows, Replace(user, forms), now))
  {
    hide AddAll, OwnOrCopy, Kept, IndexOf;
    var kept, ids := Kept(Chats(rows), user), FormIds(forms);
    KeptMembers(rows, user);
    AddAllMembers(kept, user, forms);
    forall i | 0 <= i < |forms|
      ensures ids[i] == forms[i].id && forms[i].id !in kept
    {
      assert forms[i] in forms;
    }
    KeptRows(rows, user, forms, now);
    hide Apply;
    forall i | 0 <= i < |forms|
      ensures forms[i].id in Apply(rows, Replace(user, forms), now)
              && Apply(rows, Replace(user, forms), now)[forms[i].id]
                 == Row(Chat(user, forms[i].body, forms[i].pinned, false, forms[i].folderId, None), now + i)
    {
      FormRow(rows, user, forms, now, i);
    }
  }

  lemma KeptRows(rows: map<string, Row>, user: string, forms: seq<Form>, now: int)
    requires Replaceable(Chats(rows), user, forms)
    ensures var next := Apply(rows, Replace(user, forms), now);
      && (forall id :: id in next <==> id in Kept(Chats(rows), user) || id in FormIds(forms))
      && (forall id :: id in Kept(Chats(rows), user) ==> next[id] == rows[id])
  {
    hide AddAll;
    var kept := Kept(Chats(rows), user);
    AddAllMembers(kept, user, forms);
    forall id | id in FormIds(forms)
      ensures id !in kept
    {
      var i :| 0 <= i < |forms| && forms[i].id == id;
      assert forms[i] in forms;
    }
  }

  /** The operations that stamp nothing, row by row. */
  lemma QuietExactly(rows: map<string, Row>, op: Op, now: int, id: string)
    requires op.SetShare? || op.ArchiveAll? || op.MoveAll? || op.Delete?
    ensures var next := Apply(rows, op, now);
      && (id in next <==> id in rows && !(op.Delete? && id in op.ids))
      && (id in next ==>
            var chat := rows[id].chat;
            && next[id].updatedAt == rows[id].updatedAt
            && next[id].chat
               == match op
                  case SetShare(x, share) =>
                    var taken := exists y :: y in rows && y != x && rows[y].chat.shareId == share && share.Some?;
                    if id == x && !taken then chat.(shareId := share) else chat
                  case ArchiveAll(user) => if chat.userId == user then chat.(archived := true) else chat
                  case MoveAll(user, from, to) =>
                    if chat.userId == user && chat.folderId == Some(from) then chat.(folderId := to) else chat
                  case Delete(_) => chat)
  {
    var cs := Chats(rows);
    if op.SetShare? && op.share.Some? {
      assert ShareTaken(cs, op.share.value, op.id)
             <==> exists y :: y in rows && y != op.id && rows[y].chat.shareId == op.share by {
        forall y
          ensures y in cs && cs[y].shareId == op.share <==> y in rows && rows[y].chat.shareId == op.share
        {
        }
      }
    }
  }

  lemma NewIdsReplace(rows: map<string, Row>, user: string, forms: seq<Form>, left: map<string, Row>)
    requires Chats(left) == Kept(Chats(rows), user)
    ensures NewIds(left, forms) <==> Replaceable(Chats(rows), user, forms)
  {
    assert forall id :: id in left <==> id in Chats(left);
  }

  lemma ReplacedTable(
    rows: map<string, Row>, user: string, forms: seq<Form>, now: int, left: map<string, Row>, table: map<string, Row>
  )
    requires Chats(left) == Kept(Chats(rows), user) && Replaceable(Chats(rows), user, forms)
    requires forall id :: id in left ==> id in rows && left[id] == rows[id]
    requires Extended(left, user, forms, now, table)
    ensures table == Apply(rows, Replace(user, forms), now)
  {
    var cs, stamped := AddAll(Kept(Chats(rows), user), user, forms), FormIds(forms);
    assert Decide(Chats(rows), Replace(user, forms)) == (cs, stamped);
    assert Chats(table) == cs;
    SameTable(rows, Replace(user, forms), now, table);
  }

  lemma NothingReplaced(rows: map<string, Row>, user: string, forms: seq<Form>, now: int)
    requires !Replaceable(Chats(rows), user, forms)
    ensures Apply(rows, Replace(user, forms), now) == rows
  {
    hide Replaceable, AddAll;
    SameTable(rows, Replace(user, forms), now, rows);
  }

  /** A missing copy is inserted as if it had been asked for. */
  lemma SharedAlike(rows: map<string, Row>, chatId: string, uuid: string, now: int)
    ensures Apply(rows, UpdateShared(chatId, None, uuid), now) == Apply(rows, Share(chatId, uuid), now)
  {
    hide Shared, Latest;
    assert chatId !in Chats(rows) ==> Shared(Chats(rows), chatId, uuid) == (Chats(rows), []) by {
      NotShared(Chats(rows), chatId, uuid);
    }
    assert Decide(Chats(rows), UpdateShared(chatId, None, uuid)) == Decide(Chats(rows), Share(chatId, uuid));
  }

  lemma NotShared(cs: map<string, Chat>, chatId: string, uuid: string)
    ensures chatId !in cs ==> Shared(cs, chatId, uuid) == (cs, [])
  {
  }

  /** Two ways to write one table: row by row, or chats and stamps apart. */
  lemma SameTable(before: map<string, Row>, op: Op, now: int, after: map<string, Row>)
    requires var (cs, stamped) := Decide(Chats(before), op);
      && (forall id :: id in after <==> id in cs)
      && (forall id :: id in after ==> after[id].chat == cs[id])
      && (forall id :: id in after && id in stamped ==>
            after[id].updatedAt == StampFor(before, op, stamped, cs[id].userId, id, now))
      && (forall id :: id in after && id !in stamped ==> id in before && after[id].updatedAt == before[id].updatedAt)
    ensures after == Apply(before, op, now)
  {
  }
}
