/** The plugin lock: which revision of each plugin is active, and which ones it can go back to. */
module PluginLock {
  import opened Outcomes

  datatype Revision = Revision(commit: string, contentSha256: string, checkoutPath: string, requestedRef: string)

  type Key = (string, string)

  function KeyOf(r: Revision): Key {
    (r.commit, r.contentSha256)
  }

  function Keys(rs: seq<Revision>): set<Key> {
    set r | r in rs :: KeyOf(r)
  }

  /** `origin` stands for the source and the subdirectory, which never change. */
  datatype Record = Record(origin: string, active: Revision, prefix: string, prefixOverride: Option<string>,
                           history: seq<Revision>, pending: Option<string>)

  type Lock = map<string, Record>

  const REMOVE := "remove"

  /** The resource prefix that the manifest in a checkout declares; None when it is missing or invalid. */
  type Manifests = Revision -> Option<string>

  // ----- `_prepend_unique_revision` -----

  /** The first revision of each key, without the excluded key. */
  function Unique(rs: seq<Revision>, excluded: Key): seq<Revision>
    decreases |rs|
  {
    if rs == [] then [] else
      var front := Unique(rs[..|rs| - 1], excluded);
      var last := rs[|rs| - 1];
      if KeyOf(last) == excluded || KeyOf(last) in Keys(front) then front else front + [last]
  }

  method PrependUniqueRevision(revision: Revision, history: seq<Revision>, exclude: Revision)
      returns (result: seq<Revision>)
    ensures result == Unique([revision] + history, KeyOf(exclude))
  {
    var values := [revision] + history;
    result := [];
    var seen: set<Key> := {};
    for i := 0 to |values|
      invariant result == Unique(values[..i], KeyOf(exclude))
      invariant seen == Keys(result)
    {
      assert values[..i + 1][..i] == values[..i];
      var key := KeyOf(values[i]);
      if key == KeyOf(exclude) || key in seen {
        continue;
      }
      KeysSnoc(result, values[i]);
      seen := seen + {key};
      result := result + [values[i]];
    }
    assert values[..|values|] == values;
  }

  lemma KeysSnoc(rs: seq<Revision>, r: Revision)
    ensures Keys(rs + [r]) == Keys(rs) + {KeyOf(r)}
  {
    assert forall x :: x in rs + [r] <==> x in rs || x == r;
  }

  ghost predicate Distinct(rs: seq<Revision>) {
    forall i, j :: 0 <= i < j < |rs| ==> KeyOf(rs[i]) != KeyOf(rs[j])
  }

  /** The history keeps every key but the excluded one, each once. */
  lemma {:induction false} UniqueKeys(rs: seq<Revision>, excluded: Key)
    ensures Keys(Unique(rs, excluded)) == Keys(rs) - {excluded}
    ensures Distinct(Unique(rs, excluded))
    ensures forall r :: r in Unique(rs, excluded) ==> r in rs
    decreases |rs|
  {
    if rs != [] {
      var front, last := rs[..|rs| - 1], rs[|rs| - 1];
      UniqueKeys(front, excluded);
      assert rs == front + [last];
      KeysSnoc(front, last);
      KeysSnoc(Unique(front, excluded), last);
      var kept := Unique(front, excluded);
      assert forall r :: r in kept ==> KeyOf(r) in Keys(kept);
    }
  }

  lemma {:induction false} UniqueOfDistinct(rs: seq<Revision>, excluded: Key)
    requires Distinct(rs) && excluded !in Keys(rs)
    ensures Unique(rs, excluded) == rs
    decreases |rs|
  {
    if rs != [] {
      var front, last := rs[..|rs| - 1], rs[|rs| - 1];
      assert rs == front + [last];
      KeysSnoc(front, last);
      UniqueOfDistinct(front, excluded);
      assert forall r :: r in front ==> KeyOf(r) != KeyOf(last);
    }
  }

  // ----- the operations -----

  predicate Available(lock: Lock, id: string, prefix: string) {
    prefix != "" ==> forall owner :: owner in lock && owner != id ==> lock[owner].prefix != prefix
  }

  function EffectivePrefix(declared: string, prefixOverride: Option<string>): string {
    match prefixOverride case Some(p) => p case None => declared
  }

  /** What `git` and the manifest give for a requested revision. */
  function Prefixed(lock: Lock, id: string, r: Revision, prefixOverride: Option<string>,
                    manifests: Manifests): Outcome<string> {
    match manifests(r)
    case None => Raised
    case Some(declared) =>
      var p := EffectivePrefix(declared, prefixOverride);
      if Available(lock, id, p) then Ok(p) else Raised
  }

  function Install(lock: Lock, id: string, origin: string, fetched: Outcome<Revision>, prefixOverride: Option<string>,
                   manifests: Manifests): Outcome<Lock> {
    if id in lock then Raised else
      var r :- fetched;
      var p :- Prefixed(lock, id, r, prefixOverride, manifests);
      Ok(lock[id := Record(origin, r, p, prefixOverride, [], Some("install"))])
  }

  function Update(lock: Lock, id: string, origin: string, fetched: Outcome<Revision>,
                  manifests: Manifests): Outcome<Lock> {
    if id !in lock || origin != lock[id].origin then Raised else
      var c := lock[id];
      var r :- fetched;
      var p :- Prefixed(lock, id, r, c.prefixOverride, manifests);
      Ok(lock[id := c.(active := r, prefix := p, history := Unique([c.active] + c.history, KeyOf(r)),
                       pending := Some("update"))])
  }

  /** The newest revision of the history, or the newest with a commit. */
  function Target(history: seq<Revision>, commit: Option<string>): Option<Revision> {
    if history == [] then None
    else if commit.None? || history[0].commit == commit.value then Some(history[0])
    else Target(history[1..], commit)
  }

  function Others(history: seq<Revision>, r: Revision): seq<Revision> {
    if history == [] then []
    else (if history[0] == r then [] else [history[0]]) + Others(history[1..], r)
  }

  /** `usable` says which checkouts are there and pass the preflight. */
  function Rollback(lock: Lock, id: string, commit: Option<string>, usable: set<Revision>,
                    manifests: Manifests): Outcome<Lock> {
    if id !in lock then Raised else
      var c := lock[id];
      match Target(c.history, commit)
      case None => Raised
      case Some(t) =>
        if t !in usable then Raised else
          var p :- Prefixed(lock, id, t, c.prefixOverride, manifests);
          Ok(lock[id := c.(active := t, prefix := p, history := Unique([c.active] + Others(c.history, t), KeyOf(t)),
                           pending := Some("rollback"))])
  }

  function SetPending(lock: Lock, id: string, action: Option<string>): Outcome<Lock> {
    if id !in lock then Raised else Ok(lock[id := lock[id].(pending := action)])
  }

  function ApplyPending(lock: Lock): Lock {
    map id | id in lock && lock[id].pending != Some(REMOVE) :: lock[id].(pending := None)
  }

  class PluginStore {
    var records: Lock
    const manifests: Manifests

    constructor (manifests: Manifests)
      ensures records == map[] && this.manifests == manifests
    {
      records, this.manifests := map[], manifests;
    }

    method EnsurePrefixAvailable(id: string, prefix: string) returns (ok: bool)
      ensures ok == Available(records, id, prefix)
    {
      if prefix == "" {
        return true;
      }
      var rest := records.Keys;
      while rest != {}
        invariant rest <= records.Keys
        invariant forall owner :: owner in records.Keys - rest && owner != id ==> records[owner].prefix != prefix
      {
        var owner :| owner in rest;
        rest := rest - {owner};
        if owner != id && records[owner].prefix == prefix {
          return false;
        }
      }
      ok := true;
    }

    method InstallPlugin(id: string, origin: string, fetched: Outcome<Revision>, prefixOverride: Option<string>)
        returns (r: Outcome<Record>)
      modifies this
      ensures r.Ok? <==> Install(old(records), id, origin, fetched, prefixOverride, manifests).Ok?
      ensures records == if r.Ok? then Install(old(records), id, origin, fetched, prefixOverride, manifests).value
              else old(records)
    {
      if id in records || fetched.Raised? || manifests(fetched.value).None? {
        return Raised;
      }
      var prefix := EffectivePrefix(manifests(fetched.value).value, prefixOverride);
      var ok := EnsurePrefixAvailable(id, prefix);
      if !ok {
        return Raised;
      }
      var record := Record(origin, fetched.value, prefix, prefixOverride, [], Some("install"));
      records := records[id := record];
      r := Ok(record);
    }

    method UpdatePlugin(id: string, origin: string, fetched: Outcome<Revision>) returns (r: Outcome<Record>)
      modifies this
      ensures r.Ok? <==> Update(old(records), id, origin, fetched, manifests).Ok?
      ensures records == if r.Ok? then Update(old(records), id, origin, fetched, manifests).value else old(records)
    {
      if id !in records || origin != records[id].origin || fetched.Raised? || manifests(fetched.value).None? {
        return Raised;
      }
      var current := records[id];
      var prefix := EffectivePrefix(manifests(fetched.value).value, current.prefixOverride);
      var ok := EnsurePrefixAvailable(id, prefix);
      if !ok {
        return Raised;
      }
      var history := PrependUniqueRevision(current.active, current.history, fetched.value);
      var record := Record(current.origin, fetched.value, prefix, current.prefixOverride, history, Some("update"));
      records := records[id := record];
      r := Ok(record);
    }

    method RollbackPlugin(id: string, commit: Option<string>, usable: set<Revision>) returns (r: Outcome<Record>)
      modifies this
      ensures r.Ok? <==> Rollback(old(records), id, commit, usable, manifests).Ok?
      ensures records == if r.Ok? then Rollback(old(records), id, commit, usable, manifests).value else old(records)
    {
      if id !in records {
        return Raised;
      }
      var current := records[id];
      var target := Target(current.history, commit);
      if target.None? || target.value !in usable || manifests(target.value).None? {
        return Raised;
      }
      var prefix := EffectivePrefix(manifests(target.value).value, current.prefixOverride);
      var ok := EnsurePrefixAvailable(id, prefix);
      if !ok {
        return Raised;
      }
      var history := PrependUniqueRevision(current.active, Others(current.history, target.value), target.value);
      var record := Record(current.origin, target.value, prefix, current.prefixOverride, history, Some("rollback"));
      records := records[id := record];
      r := Ok(record);
    }

    method ApplyPendingActions()
      modifies this
      ensures records == ApplyPending(old(records))
    {
      var applied: Lock := map[];
      var changed := false;
      var rest := records.Keys;
      while rest != {}
        invariant rest <= records.Keys
        invariant records == old(records)
        invariant forall id :: id in applied <==> id in records.Keys - rest && records[id].pending != Some(REMOVE)
        invariant forall id :: id in applied ==> applied[id] == records[id].(pending := None)
        invariant !changed ==> forall id :: id in records.Keys - rest ==> records[id].pending.None?
      {
        var id :| id in rest;
        rest := rest - {id};
        var record := records[id];
        if record.pending == Some(REMOVE) {
          changed := true;
          continue;
        }
        if record.pending.Some? {
          changed := true;
          record := record.(pending := None);
        }
        applied := applied[id := record];
      }
      if changed {
        records := applied;
      }
      assert records == ApplyPending(old(records));
    }
  }

  // ----- every lock that can be reached -----

  /** All revisions of a plugin are told apart by commit and content. */
  ghost predicate ValidRecord(c: Record) {
    Distinct([c.active] + c.history)
  }

  ghost predicate PrefixesDistinct(lock: Lock) {
    forall a, b :: a in lock && b in lock && a != b && lock[a].prefix != "" ==> lock[a].prefix != lock[b].prefix
  }

  /** Also, every prefix is the override or what the active checkout declares. */
  ghost predicate Valid(lock: Lock, manifests: Manifests) {
    && PrefixesDistinct(lock)
    && forall id :: id in lock ==>
         && ValidRecord(lock[id])
         && manifests(lock[id].active).Some?
         && lock[id].prefix == EffectivePrefix(manifests(lock[id].active).value, lock[id].prefixOverride)
  }

  function AllKeys(c: Record): set<Key> {
    Keys([c.active] + c.history)
  }

  lemma DistinctTail(r: Revision, rs: seq<Revision>)
    ensures Distinct([r] + rs) ==> Distinct(rs) && forall x :: x in rs ==> KeyOf(x) != KeyOf(r)
  {
    var all := [r] + rs;
    if Distinct(all) {
      forall i, j | 0 <= i < j < |rs|
        ensures KeyOf(rs[i]) != KeyOf(rs[j])
      {
        assert all[i + 1] == rs[i] && all[j + 1] == rs[j];
      }
      forall x | x in rs
        ensures KeyOf(x) != KeyOf(r)
      {
        var i :| 0 <= i < |rs| && rs[i] == x;
        assert all[i + 1] == x && all[0] == r;
      }
    }
  }

  lemma DistinctCons(r: Revision, rs: seq<Revision>)
    requires Distinct(rs) && forall x :: x in rs ==> KeyOf(x) != KeyOf(r)
    ensures Distinct([r] + rs)
  {
    var all := [r] + rs;
    assert forall i :: 0 < i < |all| ==> all[i] == rs[i - 1] && all[i] in rs;
  }

  lemma AllKeysSplit(r: Revision, rs: seq<Revision>)
    ensures Keys([r] + rs) == Keys(rs) + {KeyOf(r)}
    ensures Distinct([r] + rs) <==> Distinct(rs) && KeyOf(r) !in Keys(rs)
  {
    hide Distinct;
    assert forall x :: x in [r] + rs <==> x in rs || x == r;
    DistinctTail(r, rs);
    if Distinct(rs) && KeyOf(r) !in Keys(rs) {
      assert forall x :: x in rs ==> KeyOf(x) in Keys(rs);
      DistinctCons(r, rs);
    }
  }

  /** Updating records the new revision and drops none; the history stays free of repetitions. */
  lemma UpdateKeeps(c: Record, r: Revision)
    requires ValidRecord(c)
    ensures var h := Unique([c.active] + c.history, KeyOf(r));
            Distinct([r] + h) && Keys([r] + h) == AllKeys(c) + {KeyOf(r)}
  {
    var h := Unique([c.active] + c.history, KeyOf(r));
    UniqueKeys([c.active] + c.history, KeyOf(r));
    AllKeysSplit(r, h);
  }

  lemma {:induction false} TargetInHistory(history: seq<Revision>, commit: Option<string>)
    requires Target(history, commit).Some?
    ensures Target(history, commit).value in history
    ensures commit.Some? ==> Target(history, commit).value.commit == commit.value
  {
    if !(commit.None? || history[0].commit == commit.value) {
      TargetInHistory(history[1..], commit);
    }
  }

  lemma {:induction false} OthersAre(history: seq<Revision>, r: Revision)
    ensures forall x :: x in Others(history, r) <==> x in history && x != r
    decreases |history|
  {
    if history != [] {
      OthersAre(history[1..], r);
      assert history == [history[0]] + history[1..];
    }
  }

  // ----- what becomes active, and what it can go back to -----

  /** The revisions but those of one key, in order. */
  function Without(rs: seq<Revision>, key: Key): seq<Revision> {
    if rs == [] then [] else (if KeyOf(rs[0]) == key then [] else [rs[0]]) + Without(rs[1..], key)
  }

  lemma {:induction false} WithoutConcat(a: seq<Revision>, b: seq<Revision>, key: Key)
    ensures Without(a + b, key) == Without(a, key) + Without(b, key)
  {
    if a == [] {
      assert a + b == b;
    } else {
      assert (a + b)[1..] == a[1..] + b;
      WithoutConcat(a[1..], b, key);
    }
  }

  lemma {:induction false} UniqueIsWithout(rs: seq<Revision>, key: Key)
    requires Distinct(rs)
    ensures Unique(rs, key) == Without(rs, key)
    decreases |rs|
  {
    if rs != [] {
      var front, last := rs[..|rs| - 1], rs[|rs| - 1];
      assert rs == front + [last];
      UniqueIsWithout(front, key);
      UniqueKeys(front, key);
      WithoutConcat(front, [last], key);
      assert Without([last], key) == if KeyOf(last) == key then [] else [last];
      forall r | r in front
        ensures KeyOf(r) != KeyOf(last)
      {
      }
    }
  }

  lemma {:induction false} OthersIsWithout(history: seq<Revision>, t: Revision)
    requires Distinct(history) && t in history
    ensures Others(history, t) == Without(history, KeyOf(t))
    decreases |history|
  {
    var rest := history[1..];
    assert history == [history[0]] + rest;
    AllKeysSplit(history[0], rest);
    if history[0] == t {
      NothingWithout(rest, t);
    } else {
      OthersIsWithout(rest, t);
    }
  }

  lemma {:induction false} NothingWithout(history: seq<Revision>, t: Revision)
    requires KeyOf(t) !in Keys(history)
    ensures Others(history, t) == history && Without(history, KeyOf(t)) == history
  {
    if history != [] {
      assert history == [history[0]] + history[1..];
      AllKeysSplit(history[0], history[1..]);
      assert KeyOf(history[0]) in Keys(history);
      NothingWithout(history[1..], t);
    }
  }

  /** A plugin has gone from `c` to `now`, which runs `r`: everything else it had comes behind, the last one first, and
      the prefix is the override or what `r` declares. */
  ghost predicate Activated(c: Record, now: Record, r: Revision, manifests: Manifests, action: string) {
    && now.active == r && now.pending == Some(action)
    && now.history == Without([c.active] + c.history, KeyOf(r))
    && now.origin == c.origin && now.prefixOverride == c.prefixOverride
    && manifests(r).Some? && now.prefix == (match c.prefixOverride case Some(p) => p case None => manifests(r).value)
  }

  /** A successful update runs the fetched revision, and the old active one heads the history, unless it is the same. */
  lemma UpdateActivates(lock: Lock, id: string, origin: string, fetched: Outcome<Revision>, manifests: Manifests)
    requires id in lock && ValidRecord(lock[id]) && Update(lock, id, origin, fetched, manifests).Ok?
    ensures var next := Update(lock, id, origin, fetched, manifests).value;
            && fetched.Ok? && id in next && next - {id} == lock - {id}
            && Activated(lock[id], next[id], fetched.value, manifests, "update")
            && (KeyOf(fetched.value) != KeyOf(lock[id].active) ==>
                  next[id].history != [] && next[id].history[0] == lock[id].active)
  {
    UniqueIsWithout([lock[id].active] + lock[id].history, KeyOf(fetched.value));
  }

  /** The newest revision of the history, or the newest with that commit. */
  ghost predicate Newest(history: seq<Revision>, commit: Option<string>, r: Revision) {
    exists i :: 0 <= i < |history| && history[i] == r && (commit.Some? ==> r.commit == commit.value)
      && forall j :: 0 <= j < i ==> commit.Some? && history[j].commit != commit.value
  }

  lemma {:induction false} TargetIsNewest(history: seq<Revision>, commit: Option<string>)
    requires Target(history, commit).Some?
    ensures Newest(history, commit, Target(history, commit).value)
  {
    if commit.None? || history[0].commit == commit.value {
      assert history[0] == Target(history, commit).value;
    } else {
      TargetIsNewest(history[1..], commit);
      var r := Target(history, commit).value;
      var i :| 0 <= i < |history[1..]| && history[1..][i] == r && (commit.Some? ==> r.commit == commit.value)
               && forall j :: 0 <= j < i ==> commit.Some? && history[1..][j].commit != commit.value;
      assert history[i + 1] == r;
      assert forall j :: 1 <= j < i + 1 ==> history[j] == history[1..][j - 1];
    }
  }

  /** A successful rollback runs the newest revision of the history that is asked for, and what it leaves heads the
      history. */
  lemma RollbackActivates(lock: Lock, id: string, commit: Option<string>, usable: set<Revision>, manifests: Manifests)
    requires id in lock && ValidRecord(lock[id]) && Rollback(lock, id, commit, usable, manifests).Ok?
    ensures var next := Rollback(lock, id, commit, usable, manifests).value;
            && id in next && next - {id} == lock - {id}
            && next[id].active in usable && Newest(lock[id].history, commit, next[id].active)
            && Activated(lock[id], next[id], next[id].active, manifests, "rollback")
            && next[id].history != [] && next[id].history[0] == lock[id].active
  {
    hide Newest;
    var c := lock[id];
    var t := Target(c.history, commit).value;
    TargetIsNewest(c.history, commit);
    TargetInHistory(c.history, commit);
    AllKeysSplit(c.active, c.history);
    OthersIsWithout(c.history, t);
    OthersKept(c, t);
    WithoutConcat([c.active], c.history, KeyOf(t));
  }

  lemma OthersKept(c: Record, t: Revision)
    requires ValidRecord(c) && t in c.history
    ensures Unique([c.active] + Others(c.history, t), KeyOf(t)) == [c.active] + Others(c.history, t)
    ensures Without([c.active], KeyOf(t)) == [c.active]
  {
    AllKeysSplit(c.active, c.history);
    OthersIsWithout(c.history, t);
    UniqueIsWithout(c.history, KeyOf(t));
    UniqueKeys(c.history, KeyOf(t));
    AllKeysSplit(c.active, Others(c.history, t));
    assert KeyOf(t) in Keys(c.history);
    UniqueOfDistinct([c.active] + Others(c.history, t), KeyOf(t));
  }

  /** Rolling back moves the target to the front and keeps the set of revisions exactly. */
  lemma RollbackKeeps(c: Record, t: Revision)
    requires ValidRecord(c) && t in c.history
    ensures var h := Unique([c.active] + Others(c.history, t), KeyOf(t));
            Distinct([t] + h) && Keys([t] + h) == AllKeys(c)
  {
    var kept := [c.active] + Others(c.history, t);
    UniqueKeys(kept, KeyOf(t));
    AllKeysSplit(t, Unique(kept, KeyOf(t)));
    OthersAre(c.history, t);
    AllKeysSplit(c.active, c.history);
    AllKeysSplit(c.active, Others(c.history, t));
    assert KeyOf(t) in Keys(c.history);
    forall k | k in Keys(c.history) && k != KeyOf(t)
      ensures k in Keys(Others(c.history, t))
    {
      var x :| x in c.history && KeyOf(x) == k;
      assert x in Others(c.history, t);
    }
  }

  datatype Op =
    | DoInstall(id: string, origin: string, fetched: Outcome<Revision>, prefixOverride: Option<string>)
    | DoUpdate(id: string, origin: string, fetched: Outcome<Revision>)
    | DoRollback(id: string, commit: Option<string>, usable: set<Revision>)
    | DoSetPending(id: string, action: Option<string>)
    | DoApplyPending

  function Perform(lock: Lock, op: Op, manifests: Manifests): Outcome<Lock> {
    match op
    case DoInstall(id, origin, fetched, prefixOverride) => Install(lock, id, origin, fetched, prefixOverride, manifests)
    case DoUpdate(id, origin, fetched) => Update(lock, id, origin, fetched, manifests)
    case DoRollback(id, commit, usable) => Rollback(lock, id, commit, usable, manifests)
    case DoSetPending(id, action) => SetPending(lock, id, action)
    case DoApplyPending => Ok(ApplyPending(lock))
  }

  /** An operation that raises leaves the lock as it was. */
  function Run(ops: seq<Op>, manifests: Manifests): Lock
    decreases |ops|
  {
    if ops == [] then map[] else
      var lock := Run(ops[..|ops| - 1], manifests);
      match Perform(lock, ops[|ops| - 1], manifests) case Ok(next) => next case Raised => lock
  }

  lemma ReplacedIsValid(lock: Lock, id: string, c: Record, manifests: Manifests)
    requires Valid(lock, manifests) && ValidRecord(c) && Available(lock, id, c.prefix)
    requires manifests(c.active).Some? && c.prefix == EffectivePrefix(manifests(c.active).value, c.prefixOverride)
    ensures Valid(lock[id := c], manifests)
  {
  }

  lemma PerformKeepsValid(lock: Lock, op: Op, manifests: Manifests)
    requires Valid(lock, manifests) && Perform(lock, op, manifests).Ok?
    ensures Valid(Perform(lock, op, manifests).value, manifests)
  {
    hide Distinct, Unique, Others, Target;
    match op {
      case DoInstall(id, _, fetched, _) =>
        var next := Perform(lock, op, manifests).value;
        AllKeysSplit(fetched.value, []);
        NothingRepeats();
        ReplacedIsValid(lock, id, next[id], manifests);
      case DoUpdate(id, _, fetched) =>
        var next := Perform(lock, op, manifests).value;
        UpdateKeeps(lock[id], fetched.value);
        ReplacedIsValid(lock, id, next[id], manifests);
      case DoRollback(id, commit, _) =>
        var next := Perform(lock, op, manifests).value;
        TargetInHistory(lock[id].history, commit);
        RollbackKeeps(lock[id], Target(lock[id].history, commit).value);
        ReplacedIsValid(lock, id, next[id], manifests);
      case DoSetPending(id, _) =>
        var next := Perform(lock, op, manifests).value;
        assert Available(lock, id, lock[id].prefix);
        ReplacedIsValid(lock, id, next[id], manifests);
      case DoApplyPending =>
        assert forall id :: id in ApplyPending(lock) ==>
          ApplyPending(lock)[id].active == lock[id].active && ApplyPending(lock)[id].history == lock[id].history;
    }
  }

  lemma NothingRepeats()
    ensures Distinct([]) && Keys([]) == {}
  {
  }

  /** In every lock that operations lead to, no plugin repeats a revision, the active one is not in its history, and
      no two plugins share a prefix that is not empty. */
  lemma {:induction false} RunKeepsValid(ops: seq<Op>, manifests: Manifests)
    ensures Valid(Run(ops, manifests), manifests)
    decreases |ops|
  {
    hide Valid, Perform;
    if ops == [] {
      EmptyIsValid(manifests);
    } else {
      RunKeepsValid(ops[..|ops| - 1], manifests);
      var lock := Run(ops[..|ops| - 1], manifests);
      if Perform(lock, ops[|ops| - 1], manifests).Ok? {
        PerformKeepsValid(lock, ops[|ops| - 1], manifests);
      }
    }
  }

  lemma EmptyIsValid(manifests: Manifests)
    ensures Valid(map[], manifests)
  {
  }

  /** What each operation does to the revisions of every plugin in the lock: only a removal forgets any. */
  lemma RevisionsConserved(lock: Lock, op: Op, manifests: Manifests, id: string)
    requires Valid(lock, manifests) && Perform(lock, op, manifests).Ok? && id in lock
    ensures var next := Perform(lock, op, manifests).value;
            if id !in next then op.DoApplyPending? && lock[id].pending == Some(REMOVE)
            else AllKeys(next[id]) == AllKeys(lock[id])
                                     + if op.DoUpdate? && op.id == id then {KeyOf(op.fetched.value)} else {}
  {
    hide Distinct, Unique, Others, Target;
    match op {
      case DoUpdate(i, _, fetched) => UpdateKeeps(lock[i], fetched.value);
      case DoRollback(i, commit, _) =>
        TargetInHistory(lock[i].history, commit);
        RollbackKeeps(lock[i], Target(lock[i].history, commit).value);
      case _ =>
    }
  }

  lemma {:induction false} OthersOfDistinct(r: Revision, rs: seq<Revision>)
    requires KeyOf(r) !in Keys(rs)
    ensures Others(rs, r) == rs
    decreases |rs|
  {
    if rs != [] {
      assert rs == [rs[0]] + rs[1..];
      AllKeysSplit(rs[0], rs[1..]);
      OthersOfDistinct(r, rs[1..]);
    }
  }

  lemma RollbackHistory(c: Record)
    requires ValidRecord(c) && c.history != []
    ensures Target(c.history, None) == Some(c.history[0])
    ensures Unique([c.active] + Others(c.history, c.history[0]), KeyOf(c.history[0])) == [c.active] + c.history[1..]
    ensures ValidRecord(c.(active := c.history[0], history := [c.active] + c.history[1..]))
  {
    var h, rest := c.history[0], c.history[1..];
    assert c.history == [h] + rest;
    AllKeysSplit(c.active, c.history);
    AllKeysSplit(h, rest);
    OthersOfDistinct(h, rest);
    assert Others(c.history, h) == rest;
    AllKeysSplit(c.active, rest);
    UniqueOfDistinct([c.active] + rest, KeyOf(h));
    AllKeysSplit(h, [c.active] + rest);
  }

  /** Rolling back twice without naming a commit restores the active revision, the history and the prefix, provided
      the checkout of the revision left behind is still usable. */
  lemma RollbackTwice(lock: Lock, id: string, usable: set<Revision>, manifests: Manifests)
    requires Valid(lock, manifests) && Rollback(lock, id, None, usable, manifests).Ok? && lock[id].active in usable
    ensures var once := Rollback(lock, id, None, usable, manifests).value;
            && Rollback(once, id, None, usable, manifests).Ok?
            && Rollback(once, id, None, usable, manifests).value == lock[id := lock[id].(pending := Some("rollback"))]
  {
    hide Distinct, Unique, Others;
    var c := lock[id];
    var once := Rollback(lock, id, None, usable, manifests).value;
    RollbackHistory(c);
    var d := once[id];
    assert d.history == [c.active] + c.history[1..];
    assert [d.active] + d.history[1..] == c.history;
    RollbackHistory(d);
    assert Available(once, id, c.prefix);
  }

  /** Applying pending actions twice is applying them once, and leaves none. */
  lemma ApplyPendingTwice(lock: Lock)
    ensures ApplyPending(ApplyPending(lock)) == ApplyPending(lock)
    ensures forall id :: id in ApplyPending(lock) ==> ApplyPending(lock)[id].pending.None?
  {
    forall id | id in ApplyPending(lock)
      ensures ApplyPending(lock)[id].(pending := None) == ApplyPending(lock)[id]
    {
    }
  }
}
