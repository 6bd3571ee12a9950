/** backend/open_webui/models/folders.py: recursive deletion and listing of a folder's
  * subtree, and the chats and message rows that go with it
  * (backend/open_webui/models/chats.py).
  */
module FolderStore {
  import opened Wrappers
  import opened FolderForest

  datatype Chat = Chat(id: string, userId: string, folderId: Option<string>)

  datatype ChatMessage = ChatMessage(id: string, chatId: string)

  // ---------- chats and messages of a set of folders ----------

  predicate FiledIn(c: Chat, user: string, folders: set<string>) {
    c.userId == user && c.folderId.Some? && c.folderId.value in folders
  }

  function ChatsOutside(cs: seq<Chat>, user: string, folders: set<string>): seq<Chat> {
    if cs == [] then []
    else (if FiledIn(cs[0], user, folders) then [] else [cs[0]]) + ChatsOutside(cs[1..], user, folders)
  }

  function ChatIds(cs: seq<Chat>, user: string, folders: set<string>): set<string> {
    set c | c in cs && FiledIn(c, user, folders) :: c.id
  }

  function MessagesOutside(ms: seq<ChatMessage>, chatIds: set<string>): seq<ChatMessage> {
    if ms == [] then []
    else (if ms[0].chatId in chatIds then [] else [ms[0]]) + MessagesOutside(ms[1..], chatIds)
  }

  lemma {:induction false} ChatsOutsideTwice(cs: seq<Chat>, user: string, a: set<string>, b: set<string>)
    ensures ChatsOutside(ChatsOutside(cs, user, a), user, b) == ChatsOutside(cs, user, a + b)
  {
    if cs != [] {
      ChatsOutsideTwice(cs[1..], user, a, b);
      var rest := ChatsOutside(cs[1..], user, a);
      assert ChatsOutside(cs, user, a) == if FiledIn(cs[0], user, a) then rest else [cs[0]] + rest;
      assert ([cs[0]] + rest)[1..] == rest;
    }
  }

  lemma {:induction false} ChatsOutsideMembers(cs: seq<Chat>, user: string, folders: set<string>)
    ensures forall c :: c in ChatsOutside(cs, user, folders) <==> c in cs && !FiledIn(c, user, folders)
  {
    if cs != [] {
      ChatsOutsideMembers(cs[1..], user, folders);
      assert cs == [cs[0]] + cs[1..];
    }
  }

  lemma {:induction false} MessagesOutsideTwice(ms: seq<ChatMessage>, a: set<string>, b: set<string>)
    ensures MessagesOutside(MessagesOutside(ms, a), b) == MessagesOutside(ms, a + b)
  {
    if ms != [] {
      MessagesOutsideTwice(ms[1..], a, b);
      var rest := MessagesOutside(ms[1..], a);
      assert MessagesOutside(ms, a) == if ms[0].chatId in a then rest else [ms[0]] + rest;
      assert ([ms[0]] + rest)[1..] == rest;
    }
  }

  lemma {:induction false} NothingOutside(cs: seq<Chat>, ms: seq<ChatMessage>, user: string)
    ensures ChatsOutside(cs, user, {}) == cs && MessagesOutside(ms, {}) == ms
    decreases |cs| + |ms|
  {
    if cs != [] {
      NothingOutside(cs[1..], ms, user);
    } else if ms != [] {
      NothingOutside(cs, ms[1..], user);
    }
  }

  /** The chats and messages left when those filed in the folders are gone. */
  function Purged(
    cs: seq<Chat>, ms: seq<ChatMessage>, user: string, folders: set<string>
  ): (seq<Chat>, seq<ChatMessage>) {
    (ChatsOutside(cs, user, folders), MessagesOutside(ms, ChatIds(cs, user, folders)))
  }

  lemma PurgedTwice(cs: seq<Chat>, ms: seq<ChatMessage>, user: string, a: set<string>, b: set<string>)
    ensures var (cs', ms') := Purged(cs, ms, user, a);
            Purged(cs', ms', user, b) == Purged(cs, ms, user, a + b)
  {
    var (cs', ms') := Purged(cs, ms, user, a);
    ChatsOutsideTwice(cs, user, a, b);
    MessagesOutsideTwice(ms, ChatIds(cs, user, a), ChatIds(cs', user, b));
    ChatsOutsideMembers(cs, user, a);
    assert ChatIds(cs, user, a) + ChatIds(cs', user, b) == ChatIds(cs, user, a + b) by {
      forall c | c in cs && FiledIn(c, user, a + b)
        ensures c.id in ChatIds(cs, user, a) + ChatIds(cs', user, b)
      {
        if !FiledIn(c, user, a) {
          assert c in cs';
        }
      }
    }
  }

  lemma PurgedNothing(cs: seq<Chat>, ms: seq<ChatMessage>, user: string)
    ensures Purged(cs, ms, user, {}) == (cs, ms)
  {
    NothingOutside(cs, ms, user);
    assert ChatIds(cs, user, {}) == {};
  }

  /** What becomes of chats and messages, with or without `delete_chats`. */
  function PurgedIf(
    deleteChats: bool, cs: seq<Chat>, ms: seq<ChatMessage>, user: string, folders: set<string>
  ): (seq<Chat>, seq<ChatMessage>) {
    if deleteChats then Purged(cs, ms, user, folders) else (cs, ms)
  }

  lemma PurgedIfTwice(
    deleteChats: bool, cs: seq<Chat>, ms: seq<ChatMessage>, user: string, a: set<string>, b: set<string>
  )
    ensures var (cs', ms') := PurgedIf(deleteChats, cs, ms, user, a);
            PurgedIf(deleteChats, cs', ms', user, b) == PurgedIf(deleteChats, cs, ms, user, a + b)
  {
    PurgedTwice(cs, ms, user, a, b);
  }

  // ---------- the tables ----------

  /** The user's folders filed directly in `parent`, in table order. */
  function Children(fs: seq<Folder>, user: string, parent: string): seq<Folder> {
    if fs == [] then []
    else
      (if fs[0].userId == user && fs[0].parent == Some(parent) then [fs[0]] else [])
      + Children(fs[1..], user, parent)
  }

  lemma {:induction false} ChildrenMembers(fs: seq<Folder>, user: string, parent: string)
    ensures forall f :: f in Children(fs, user, parent) <==> f in fs && f.userId == user && f.parent == Some(parent)
  {
    if fs != [] {
      ChildrenMembers(fs[1..], user, parent);
      assert fs == [fs[0]] + fs[1..];
    }
  }

  lemma {:induction false} ChildrenDistinct(fs: seq<Folder>, user: string, parent: string)
    requires DistinctIds(fs)
    ensures DistinctIds(Children(fs, user, parent))
  {
    if fs != [] {
      ChildrenDistinct(fs[1..], user, parent);
      ChildrenMembers(fs[1..], user, parent);
      var rest := Children(fs[1..], user, parent);
      forall j | 0 <= j < |rest|
        ensures rest[j].id != fs[0].id
      {
        assert rest[j] in rest;
      }
    }
  }

  /** The subtrees of the first `n` children, the children included. */
  ghost function Cleared(fs: seq<Folder>, user: string, children: seq<Folder>, n: nat): set<string>
    requires n <= |children|
  {
    if n == 0 then {} else Cleared(fs, user, children, n - 1) + AtOrBelow(fs, user, children[n - 1].id)
  }

  lemma {:induction false} ClearedMembers(fs: seq<Folder>, user: string, children: seq<Folder>, n: nat, x: string)
    requires n <= |children|
    ensures x in Cleared(fs, user, children, n) <==> exists j :: 0 <= j < n && x in AtOrBelow(fs, user, children[j].id)
  {
    if n > 0 {
      ClearedMembers(fs, user, children, n - 1, x);
    }
  }

  /** All children cleared is the whole subtree. */
  lemma AllCleared(fs: seq<Folder>, user: string, parent: string)
    ensures var children := Children(fs, user, parent);
            Cleared(fs, user, children, |children|) == Below(fs, user, parent)
  {
    hide Below, Under, Cleared, Children;
    var children := Children(fs, user, parent);
    ChildrenMembers(fs, user, parent);
    forall x
      ensures x in Cleared(fs, user, children, |children|) <==> x in Below(fs, user, parent)
    {
      ClearedMembers(fs, user, children, |children|, x);
      BelowMember(fs, user, x, parent);
      if j :| 0 <= j < |children| && x in AtOrBelow(fs, user, children[j].id) {
        assert children[j] in children;
        EdgeIsUnder(fs, user, children[j].id, parent);
        BelowMember(fs, user, x, children[j].id);
        if x != children[j].id {
          UnderIsTransitive(fs, user, x, children[j].id, parent);
        }
      }
      if Under(fs, user, x, parent) {
        var c := LastStep(fs, user, x, parent);
        var f :| f in fs && f.id == c && f.userId == user && f.parent == Some(parent);
        assert f in children;
        var j :| 0 <= j < |children| && children[j] == f;
        BelowMember(fs, user, x, c);
      }
    }
  }

  /** The next child's subtree is still whole when the earlier ones are gone. */
  lemma NextChildIsWhole(fs: seq<Folder>, user: string, parent: string, n: nat)
    requires Forest(fs, user) && n < |Children(fs, user, parent)|
    ensures
      var children := Children(fs, user, parent);
      var c := children[n].id;
      && Edge(fs, user, c, parent)
      && AtOrBelow(fs, user, c) !! Cleared(fs, user, children, n)
      && Below(Without(fs, Cleared(fs, user, children, n)), user, c) == Below(fs, user, c)
      && |Below(fs, user, c)| < |Below(fs, user, parent)|
  {
    var children := Children(fs, user, parent);
    var c := children[n];
    ChildrenMembers(fs, user, parent);
    ChildrenDistinct(fs, user, parent);
    assert c in children;
    forall x | x in AtOrBelow(fs, user, c.id)
      ensures x !in Cleared(fs, user, children, n)
    {
      ClearedMembers(fs, user, children, n, x);
      forall j | 0 <= j < n
        ensures x !in AtOrBelow(fs, user, children[j].id)
      {
        assert children[j] in children;
        SiblingsAreApart(fs, user, parent, c.id, children[j].id, x);
      }
    }
    BelowWithout(fs, user, Cleared(fs, user, children, n), c.id);
    ChildIsSmaller(fs, user, parent, c.id);
  }

  // ---------- what a deletion leaves ----------

  /** The message belongs to a chat that goes. */
  predicate Doomed(cs: seq<Chat>, user: string, folders: set<string>, m: ChatMessage) {
    exists c :: c in cs && FiledIn(c, user, folders) && c.id == m.chatId
  }

  lemma {:induction false} ChatsOutsideCount(cs: seq<Chat>, user: string, folders: set<string>, c: Chat)
    ensures multiset(ChatsOutside(cs, user, folders))[c] == if FiledIn(c, user, folders) then 0 else multiset(cs)[c]
  {
    if cs != [] {
      ChatsOutsideCount(cs[1..], user, folders, c);
      assert cs == [cs[0]] + cs[1..];
    }
  }

  lemma {:induction false} MessagesOutsideCount(ms: seq<ChatMessage>, chatIds: set<string>, m: ChatMessage)
    ensures multiset(MessagesOutside(ms, chatIds))[m] == if m.chatId in chatIds then 0 else multiset(ms)[m]
  {
    if ms != [] {
      MessagesOutsideCount(ms[1..], chatIds, m);
      assert ms == [ms[0]] + ms[1..];
    }
  }

  lemma {:induction false} WithoutCount(fs: seq<Folder>, ids: set<string>, f: Folder)
    ensures multiset(Without(fs, ids))[f] == if f.id in ids then 0 else multiset(fs)[f]
  {
    if fs != [] {
      WithoutCount(fs[1..], ids, f);
      assert fs == [fs[0]] + fs[1..];
    }
  }

  /** A chat goes exactly when it is the user's and filed in a doomed folder; a message goes exactly when it
    * belongs to such a chat; every other row stays as often as it was there.
    */
  lemma PurgedExactly(cs: seq<Chat>, ms: seq<ChatMessage>, user: string, folders: set<string>)
    ensures
      var (cs', ms') := Purged(cs, ms, user, folders);
      && (forall c :: multiset(cs')[c] == if FiledIn(c, user, folders) then 0 else multiset(cs)[c])
      && (forall m :: multiset(ms')[m] == if Doomed(cs, user, folders, m) then 0 else multiset(ms)[m])
  {
    forall c
      ensures multiset(ChatsOutside(cs, user, folders))[c] == if FiledIn(c, user, folders) then 0 else multiset(cs)[c]
    {
      ChatsOutsideCount(cs, user, folders, c);
    }
    var ids := ChatIds(cs, user, folders);
    forall m
      ensures multiset(MessagesOutside(ms, ids))[m] == if Doomed(cs, user, folders, m) then 0 else multiset(ms)[m]
    {
      MessagesOutsideCount(ms, ids, m);
    }
  }

  lemma WithoutExactly(fs: seq<Folder>, ids: set<string>)
    ensures forall f :: multiset(Without(fs, ids))[f] == if f.id in ids then 0 else multiset(fs)[f]
  {
    forall f
      ensures multiset(Without(fs, ids))[f] == if f.id in ids then 0 else multiset(fs)[f]
    {
      WithoutCount(fs, ids, f);
    }
  }

  /** No folder of another user is filed in one of the user's. */
  lemma OthersAreSafe(fs: seq<Folder>, user: string, id: string)
    requires DistinctIds(fs) && exists f :: f in fs && f.id == id && f.userId == user
    ensures forall f :: f in fs && f.userId != user ==> f in Without(fs, AtOrBelow(fs, user, id))
  {
    WithoutMembers(fs, AtOrBelow(fs, user, id));
    forall f | f in fs && f.userId != user
      ensures f.id !in AtOrBelow(fs, user, id)
    {
      BelowMember(fs, user, f.id, id);
      if Under(fs, user, f.id, id) {
        var p := FirstStep(fs, user, f.id, id);
      }
    }
  }

  /** No folder of the user that remains is filed in one that is gone. */
  lemma NoOrphans(fs: seq<Folder>, user: string, id: string, f: Folder, p: string)
    requires DistinctIds(fs) && f in Without(fs, AtOrBelow(fs, user, id)) && f.userId == user && f.parent == Some(p)
    ensures p !in AtOrBelow(fs, user, id)
  {
    WithoutMembers(fs, AtOrBelow(fs, user, id));
    EdgeIsUnder(fs, user, f.id, p);
    BelowMember(fs, user, p, id);
    BelowMember(fs, user, f.id, id);
    if p in AtOrBelow(fs, user, id) && p != id {
      UnderIsTransitive(fs, user, f.id, p, id);
    }
  }

  class Store {
    var folders: seq<Folder>
    var chats: seq<Chat>
    var messages: seq<ChatMessage>

    constructor (fs: seq<Folder>, cs: seq<Chat>, ms: seq<ChatMessage>)
      ensures folders == fs && chats == cs && messages == ms
    {
      folders, chats, messages := fs, cs, ms;
    }

    /** `insert_new_folder` with the id that `uuid4` draws; a taken id is the logged exception. */
    method InsertNewFolder(id: string, user: string, name: string, parent: Option<string>) returns (added: bool)
      modifies `folders
      ensures added <==> forall f :: f in old(folders) ==> f.id != id
      ensures folders == if added then old(folders) + [Folder(id, user, parent, name)] else old(folders)
    {
      if exists f :: f in folders && f.id == id {
        return false;
      }
      folders := folders + [Folder(id, user, parent, name)];
      added := true;
    }

    /** `update_folder_parent_id_by_id_and_user_id`; the loop is the query for the row. */
    method UpdateFolderParentId(id: string, user: string, parent: Option<string>) returns (found: bool)
      requires DistinctIds(folders)
      modifies `folders
      ensures found <==> exists f :: f in old(folders) && f.id == id && f.userId == user
      ensures folders == Reparent(old(folders), user, id, parent)
      ensures |folders| == |old(folders)|
      ensures forall i :: 0 <= i < |folders| ==>
        if old(folders)[i].id == id && old(folders)[i].userId == user
        then folders[i] == old(folders)[i].(parent := parent) else folders[i] == old(folders)[i]
    {
      for i := 0 to |folders|
        invariant folders == old(folders)
        invariant forall j :: 0 <= j < i ==> !(folders[j].id == id && folders[j].userId == user)
      {
        if folders[i].id == id && folders[i].userId == user {
          folders := folders[i := folders[i].(parent := parent)];
          return true;
        }
      }
      found := false;
    }

    /** `delete_chats_by_user_id_and_folder_id` */
    method DeleteChatsIn(user: string, folderId: string)
      modifies `chats, `messages
      ensures (chats, messages) == Purged(old(chats), old(messages), user, {folderId})
    {
      var ids := ChatIds(chats, user, {folderId});
      if ids != {} {
        messages := MessagesOutside(messages, ids);
      } else {
        NothingOutside([], messages, user);
      }
      chats := ChatsOutside(chats, user, {folderId});
    }

    /** The inner `delete_children`. */
    method DeleteChildren(user: string, id: string, deleteChats: bool)
      requires Forest(folders, user)
      modifies this
      ensures folders == Without(old(folders), Below(old(folders), user, id))
      ensures (chats, messages)
              == PurgedIf(deleteChats, old(chats), old(messages), user, Below(old(folders), user, id))
      ensures !deleteChats ==> chats == old(chats) && messages == old(messages)
      ensures deleteChats ==>
        (chats, messages) == Purged(old(chats), old(messages), user, Below(old(folders), user, id))
      decreases |Below(folders, user, id)|
    {
      ghost var fs, cs, ms := folders, chats, messages;
      var children := Children(folders, user, id);
      WithoutNothing(fs);
      PurgedNothing(cs, ms, user);
      for n := 0 to |children|
        invariant folders == Without(fs, Cleared(fs, user, children, n))
        invariant (chats, messages) == PurgedIf(deleteChats, cs, ms, user, Cleared(fs, user, children, n))
      {
        NextChildIsWhole(fs, user, id, n);
        DeleteChild(user, children[n].id, deleteChats, Cleared(fs, user, children, n), fs, cs, ms);
      }
      AllCleared(fs, user, id);
    }

    /** The body of the loop over the children, when `cleared` is gone already. */
    method DeleteChild(
      user: string, child: string, deleteChats: bool, ghost cleared: set<string>,
      ghost fs: seq<Folder>, ghost cs: seq<Chat>, ghost ms: seq<ChatMessage>
    )
      requires Forest(fs, user) && Below(Without(fs, cleared), user, child) == Below(fs, user, child)
      requires folders == Without(fs, cleared)
      requires (chats, messages) == PurgedIf(deleteChats, cs, ms, user, cleared)
      modifies this
      ensures folders == Without(fs, cleared + AtOrBelow(fs, user, child))
      ensures (chats, messages) == PurgedIf(deleteChats, cs, ms, user, cleared + AtOrBelow(fs, user, child))
      ensures !deleteChats ==> chats == old(chats) && messages == old(messages)
      ensures deleteChats ==> (chats, messages) == Purged(cs, ms, user, cleared + AtOrBelow(fs, user, child))
      decreases |Below(fs, user, child)| + 1, 0
    {
      ghost var below := Below(fs, user, child);
      ForestWithout(fs, user, cleared);
      if deleteChats {
        PurgedIfTwice(deleteChats, cs, ms, user, cleared, {child});
        DeleteChatsIn(user, child);
      }
      assert (chats, messages) == PurgedIf(deleteChats, cs, ms, user, cleared + {child});
      DeleteChildren(user, child, deleteChats);
      WithoutTwice(fs, cleared, below);
      WithoutTwice(fs, cleared + below, {child});
      folders := Without(folders, {child});
      assert cleared + below + {child} == cleared + AtOrBelow(fs, user, child);
      PurgedIfTwice(deleteChats, cs, ms, user, cleared + {child}, below);
      assert cleared + {child} + below == cleared + AtOrBelow(fs, user, child);
    }

    /** `delete_folder_by_id_and_user_id`: the folder and everything filed in it go, and with
      * `delete_chats` the chats filed in any of them and those chats' messages; nothing else does.
      */
    method DeleteFolder(id: string, user: string, deleteChats: bool) returns (found: bool)
      requires Forest(folders, user)
      modifies this
      ensures found <==> exists f :: f in old(folders) && f.id == id && f.userId == user
      ensures !found ==> folders == old(folders) && chats == old(chats) && messages == old(messages)
      ensures found ==> folders == Without(old(folders), AtOrBelow(old(folders), user, id))
      ensures found ==>
        var doomed := AtOrBelow(old(folders), user, id);
        forall f :: multiset(folders)[f] == if f.id in doomed then 0 else multiset(old(folders))[f]
      ensures found ==>
        (chats, messages) == PurgedIf(deleteChats, old(chats), old(messages), user, AtOrBelow(old(folders), user, id))
      ensures !deleteChats ==> chats == old(chats) && messages == old(messages)
      ensures found && deleteChats ==>
        var doomed := AtOrBelow(old(folders), user, id);
        && (forall c :: multiset(chats)[c] == if FiledIn(c, user, doomed) then 0 else multiset(old(chats))[c])
        && (forall m :: multiset(messages)[m]
                        == if Doomed(old(chats), user, doomed, m) then 0 else multiset(old(messages))[m])
      ensures forall f :: f in old(folders) && f.userId != user ==> f in folders
      ensures Forest(folders, user)
    {
      found := exists f :: f in folders && f.id == id && f.userId == user;
      if !found {
        return;
      }
      hide Purged, Without, FiledIn, Doomed;
      ghost var doomed := AtOrBelow(folders, user, id);
      PurgedExactly(chats, messages, user, doomed);
      WithoutExactly(folders, doomed);
      if found {
        OthersAreSafe(folders, user, id);
      }
      WithoutNothing(folders);
      PurgedNothing(chats, messages, user);
      DeleteChild(user, id, deleteChats, {}, folders, chats, messages);
      assert {} + AtOrBelow(old(folders), user, id) == AtOrBelow(old(folders), user, id);
      ForestWithout(old(folders), user, AtOrBelow(old(folders), user, id));
    }
  }
}
