/** backend/open_webui/models/users.py: `patch_user_settings_by_id`, a deep merge under an
  * optimistic revision check. A call commits as one step.
  */
module UserSettings {
  import opened Numbers
  import opened Wrappers
  import opened Json
  import opened DeepMerge

  const REVISION: string := "revision"

  datatype User = User(settings: Json, updatedAt: int)

  /** One call's arguments, with the clock reading it makes. */
  datatype Patch = Patch(userId: string, updated: Json, expected: Option<int>, replace: set<Path>, now: int)

  /** `Failed` is the `None` of a missing user or a swallowed exception. */
  datatype Outcome = Updated(user: User) | Conflict(currentRevision: int) | Failed

  /** Python's `int()` truncates toward zero. */
  function Truncate(d: Finite): int {
    if d.exponent >= 0 then d.mantissa * Pow2(d.exponent)
    else if d.mantissa >= 0 then d.mantissa / Pow2(-d.exponent)
    else -(-d.mantissa / Pow2(-d.exponent))
  }

  /** The stored revision as an integer, zero where it is missing or false; `None` where the conversion
    * raises.  `parseInt` converts strings.
    */
  function Revision(settings: Object, parseInt: string -> Option<int>): Option<int> {
    if REVISION !in settings || !Truthy(settings[REVISION]) then Some(0)
    else
      match settings[REVISION]
      case Int(i) => Some(i)
      case Float(d) => Some(Truncate(d))
      case Bool(_) => Some(1)
      case Str(s) => parseInt(s)
      case _ => None
  }

  /** What `int(settings.get("revision") or 0)` gives: an integer is itself, whatever is missing or false is
    * zero, and a list or an object raises.
    */
  lemma RevisionOfValue(settings: Object, parseInt: string -> Option<int>)
    ensures REVISION !in settings ==> Revision(settings, parseInt) == Some(0)
    ensures REVISION in settings ==>
              match settings[REVISION]
              case Null => Revision(settings, parseInt) == Some(0)
              case Bool(b) => Revision(settings, parseInt) == Some(if b then 1 else 0)
              case Int(i) => Revision(settings, parseInt) == Some(i)
              case Float(d) => Revision(settings, parseInt) == Some(Truncate(d))
              case Str(s) => Revision(settings, parseInt) == if s == "" then Some(0) else parseInt(s)
              case Arr(items) => Revision(settings, parseInt) == if items == [] then Some(0) else None
              case Obj(fields) => Revision(settings, parseInt) == if fields == map[] then Some(0) else None
  {
    assert Pow2(0) == 1;
  }

  lemma TruncateIsTowardZero(d: Finite)
    requires d.exponent < 0
    ensures var unit, n := Pow2(-d.exponent), Truncate(d);
      if d.mantissa >= 0 then n * unit <= d.mantissa < (n + 1) * unit else (n - 1) * unit < d.mantissa <= n * unit
  {
  }

  /** The settings a successful patch stores. */
  function Stored(settings: Object, patch: Patch, revision: int): Object {
    Merge(settings, AsDict(patch.updated), patch.replace, [])[REVISION := Int(revision + 1)]
  }

  /** The revision is the next one.  Everywhere else: what the patch does not touch is as it was; its leaves
    * and what it has at replaced paths are as it says; and its other branches are merged key by key, or take
    * the place of what is no branch.
    */
  ghost predicate IsPatched(settings: Object, patch: Patch, revision: int, after: Object) {
    && REVISION in after && after[REVISION] == Int(revision + 1)
    && forall q: Path :: q != [] && q[0] != REVISION ==> PatchedAt(settings, patch, after, q)
  }

  ghost predicate PatchedAt(settings: Object, patch: Patch, after: Object, q: Path) {
    var update := AsDict(patch.updated);
    var (was, said, now) := (Get(settings, q), Get(update, q), Get(after, q));
    && (Untouched(update, q, patch.replace, []) ==> now == was)
    && (said.Some? && (!said.value.Obj? || q in patch.replace) ==> now == said)
    && (said.Some? && said.value.Obj? && (forall i :: 0 < i <= |q| ==> q[..i] !in patch.replace) ==>
          if was.Some? && was.value.Obj?
          then now.Some? && now.value.Obj? && now.value.fields.Keys == was.value.fields.Keys + said.value.fields.Keys
          else now == said)
  }

  lemma GetOverride(o: Object, value: Json, q: Path)
    requires q != [] && q[0] != REVISION
    ensures Get(o[REVISION := value], q) == Get(o, q)
  {
  }

  /** A success stores the patched settings. */
  lemma StoredIsPatched(settings: Object, patch: Patch, revision: int)
    ensures IsPatched(settings, patch, revision, Stored(settings, patch, revision))
  {
    var update, after := AsDict(patch.updated), Stored(settings, patch, revision);
    var merged := Merge(settings, update, patch.replace, []);
    forall q: Path | q != [] && q[0] != REVISION
      ensures PatchedAt(settings, patch, after, q)
    {
      GetOverride(merged, Int(revision + 1), q);
      var said := Get(update, q);
      assert [] + q == q && forall i :: 0 < i <= |q| ==> [] + q[..i] == q[..i];
      if Untouched(update, q, patch.replace, []) {
        UntouchedIsKept(settings, update, q, patch.replace, []);
      }
      if said.Some? && (!said.value.Obj? || q in patch.replace) {
        PatchIsContained(settings, update, q, patch.replace, []);
      }
      if said.Some? && said.value.Obj? && forall i :: 0 < i <= |q| ==> q[..i] !in patch.replace {
        BranchIsMerged(settings, update, q, patch.replace, []);
      }
    }
  }

  type Users = map<string, User>

  function Apply(users: Users, patch: Patch, parseInt: string -> Option<int>): (Users, Outcome) {
    if patch.userId !in users then (users, Failed)
    else
      var settings := AsDict(users[patch.userId].settings);
      match Revision(settings, parseInt)
      case None => (users, Failed)
      case Some(current) =>
        if patch.expected.Some? && patch.expected.value != current then (users, Conflict(current))
        else
          var user := User(Obj(Stored(settings, patch, current)), patch.now);
          (users[patch.userId := user], Updated(user))
  }

  class UsersTable {
    var users: Users

    constructor (rows: Users)
      ensures users == rows
    {
      users := rows;
    }

    method PatchUserSettingsById(patch: Patch, parseInt: string -> Option<int>) returns (outcome: Outcome)
      modifies this
      ensures (users, outcome) == Apply(old(users), patch, parseInt)
      ensures !outcome.Updated? ==> users == old(users)
      ensures outcome.Failed? <==>
              patch.userId !in old(users) || Revision(SettingsOf(old(users), patch.userId), parseInt).None?
      ensures outcome.Conflict? ==>
              patch.expected.Some? && patch.expected.value != outcome.currentRevision
              && Revision(SettingsOf(old(users), patch.userId), parseInt) == Some(outcome.currentRevision)
      ensures outcome.Updated? ==>
              && users == old(users)[patch.userId := outcome.user] && outcome.user.updatedAt == patch.now
              && var current := Revision(SettingsOf(old(users), patch.userId), parseInt);
                 current.Some? && (patch.expected.None? || patch.expected == current)
                 && outcome.user.settings.Obj?
                 && IsPatched(SettingsOf(old(users), patch.userId), patch, current.value, outcome.user.settings.fields)
    {
      if patch.userId !in users {
        return Failed;
      }
      var settings := AsDict(users[patch.userId].settings);
      var revision := Revision(settings, parseInt);
      if revision.None? {
        return Failed;
      }
      if patch.expected.Some? && patch.expected.value != revision.value {
        return Conflict(revision.value);
      }
      var next := DeepMergeDict(settings, AsDict(patch.updated), patch.replace, []);
      next := next[REVISION := Int(revision.value + 1)];
      var user := User(Obj(next), patch.now);
      users := users[patch.userId := user];
      outcome := Updated(user);
      StoredIsPatched(settings, patch, revision.value);
    }
  }

  // ---------- runs ----------

  function After(users: Users, patches: seq<Patch>, parseInt: string -> Option<int>): Users {
    if patches == [] then users
    else Apply(After(users, patches[..|patches| - 1], parseInt), patches[|patches| - 1], parseInt).0
  }

  /** Call `i` of a run succeeds for this user. */
  predicate Succeeds(users: Users, patches: seq<Patch>, i: nat, userId: string, parseInt: string -> Option<int>)
    requires i < |patches|
  {
    patches[i].userId == userId && Apply(After(users, patches[..i], parseInt), patches[i], parseInt).1.Updated?
  }

  /** The successful patches of one user, in commit order. */
  function Successes(users: Users, patches: seq<Patch>, userId: string, parseInt: string -> Option<int>): seq<Patch> {
    if patches == [] then []
    else
      var n := |patches| - 1;
      Successes(users, patches[..n], userId, parseInt)
      + if Succeeds(users, patches, n, userId, parseInt) then [patches[n]] else []
  }

  /** Patches applied one after the other, with no check at all. */
  function FoldPatches(settings: Object, patches: seq<Patch>, revision: int): Object {
    if patches == [] then settings
    else
      var n := |patches| - 1;
      Stored(FoldPatches(settings, patches[..n], revision), patches[n], revision + n)
  }

  function SettingsOf(users: Users, userId: string): Object
    requires userId in users
  {
    AsDict(users[userId].settings)
  }

  /** The revision and settings of one user, seen as a pair. */
  ghost predicate Stands(
    users: Users, userId: string, settings: Object, revision: int, parseInt: string -> Option<int>
  ) {
    userId in users && SettingsOf(users, userId) == settings && Revision(settings, parseInt) == Some(revision)
  }

  /** A call changes a user's settings only by succeeding for that user. */
  lemma ApplyStep(
    users: Users, patch: Patch, userId: string, settings: Object, revision: int, parseInt: string -> Option<int>
  )
    requires Stands(users, userId, settings, revision, parseInt)
    ensures
      var (after, outcome) := Apply(users, patch, parseInt);
      if patch.userId == userId && outcome.Updated?
      then Stands(after, userId, Stored(settings, patch, revision), revision + 1, parseInt)
      else Stands(after, userId, settings, revision, parseInt)
  {
  }

  /** Whatever the interleaving: the revision grows by one for each successful patch and by
    * nothing else, and the settings are the fold of the successful patches in commit order.
    */
  lemma {:induction false} RunLaw(users: Users, patches: seq<Patch>, userId: string, parseInt: string -> Option<int>)
    requires userId in users && Revision(SettingsOf(users, userId), parseInt).Some?
    ensures
      var settings := SettingsOf(users, userId);
      var before := Revision(settings, parseInt).value;
      var successes := Successes(users, patches, userId, parseInt);
      Stands(After(users, patches, parseInt), userId,
             FoldPatches(settings, successes, before), before + |successes|, parseInt)
  {
    hide After, Successes, Succeeds, Apply, Stands, FoldPatches, Stored, Revision;
    if patches == [] {
      NoCalls(users, userId, parseInt);
    } else {
      var n := |patches| - 1;
      var settings := SettingsOf(users, userId);
      var before := Revision(settings, parseInt).value;
      var earlier := Successes(users, patches[..n], userId, parseInt);
      RunLaw(users, patches[..n], userId, parseInt);
      OneMoreCall(users, patches, userId, parseInt);
      ApplyStep(After(users, patches[..n], parseInt), patches[n], userId,
                FoldPatches(settings, earlier, before), before + |earlier|, parseInt);
      FoldAppend(settings, earlier, patches[n], before);
      assert earlier + [] == earlier;
    }
  }

  lemma NoCalls(users: Users, userId: string, parseInt: string -> Option<int>)
    requires userId in users && Revision(SettingsOf(users, userId), parseInt).Some?
    ensures
      var settings := SettingsOf(users, userId);
      var before := Revision(settings, parseInt).value;
      && Successes(users, [], userId, parseInt) == []
      && Stands(After(users, [], parseInt), userId, FoldPatches(settings, [], before), before, parseInt)
  {
  }

  lemma OneMoreCall(users: Users, patches: seq<Patch>, userId: string, parseInt: string -> Option<int>)
    requires patches != []
    ensures
      var n := |patches| - 1;
      var (after, outcome) := Apply(After(users, patches[..n], parseInt), patches[n], parseInt);
      && After(users, patches, parseInt) == after
      && Successes(users, patches, userId, parseInt)
         == Successes(users, patches[..n], userId, parseInt)
            + if patches[n].userId == userId && outcome.Updated? then [patches[n]] else []
  {
    hide Apply;
  }

  lemma FoldAppend(settings: Object, patches: seq<Patch>, patch: Patch, revision: int)
    ensures FoldPatches(settings, patches + [patch], revision)
            == Stored(FoldPatches(settings, patches, revision), patch, revision + |patches|)
  {
    assert (patches + [patch])[..|patches|] == patches;
  }

  /** The number of successes before a call. */
  function Count(users: Users, patches: seq<Patch>, i: nat, userId: string, parseInt: string -> Option<int>): nat
    requires i <= |patches|
  {
    |Successes(users, patches[..i], userId, parseInt)|
  }

  lemma CountStep(users: Users, patches: seq<Patch>, i: nat, userId: string, parseInt: string -> Option<int>)
    requires i < |patches|
    ensures Count(users, patches, i + 1, userId, parseInt)
            == Count(users, patches, i, userId, parseInt)
               + if Succeeds(users, patches, i, userId, parseInt) then 1 else 0
  {
    assert patches[..i + 1][..i] == patches[..i];
  }

  lemma {:induction false} CountGrows(
    users: Users, patches: seq<Patch>, i: nat, j: nat, userId: string, parseInt: string -> Option<int>
  )
    requires i <= j <= |patches|
    ensures Count(users, patches, i, userId, parseInt) <= Count(users, patches, j, userId, parseInt)
    decreases j
  {
    if i < j {
      CountGrows(users, patches, i, j - 1, userId, parseInt);
      CountStep(users, patches, j - 1, userId, parseInt);
    }
  }

  /** A patch that succeeds expected the initial revision plus the successes before it. */
  lemma ExpectedOfSuccess(users: Users, patches: seq<Patch>, i: nat, userId: string, parseInt: string -> Option<int>)
    requires userId in users && Revision(SettingsOf(users, userId), parseInt).Some?
    requires i < |patches| && patches[i].expected.Some? && Succeeds(users, patches, i, userId, parseInt)
    ensures patches[i].expected.value
            == Revision(SettingsOf(users, userId), parseInt).value + Count(users, patches, i, userId, parseInt)
  {
    RunLaw(users, patches[..i], userId, parseInt);
  }

  /** Of the patches of one user that expect the same revision, at most one succeeds. */
  lemma OneWinnerPerRevision(
    users: Users, patches: seq<Patch>, userId: string, parseInt: string -> Option<int>, i: nat, j: nat
  )
    requires userId in users && Revision(SettingsOf(users, userId), parseInt).Some?
    requires i < j < |patches| && Succeeds(users, patches, i, userId, parseInt)
    requires patches[i].expected.Some? && patches[i].expected == patches[j].expected
    ensures !Succeeds(users, patches, j, userId, parseInt)
  {
    ExpectedOfSuccess(users, patches, i, userId, parseInt);
    CountStep(users, patches, i, userId, parseInt);
    CountGrows(users, patches, i + 1, j, userId, parseInt);
    if Succeeds(users, patches, j, userId, parseInt) {
      ExpectedOfSuccess(users, patches, j, userId, parseInt);
    }
  }

  /** A patch never sets the revision itself. */
  lemma RevisionIsNotPatched(settings: Object, patch: Patch, revision: int, parseInt: string -> Option<int>)
    ensures Stored(settings, patch, revision)[REVISION] == Int(revision + 1)
    ensures Revision(Stored(settings, patch, revision), parseInt) == Some(revision + 1)
  {
  }
}
