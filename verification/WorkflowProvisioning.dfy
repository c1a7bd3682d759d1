/** Provisioning all plugin workflows into one directory: ownership conflicts, synchronisation and deactivation. */
module WorkflowProvisioning {
  import opened Outcomes
  import opened WorkflowSync

  type Root = map<string, Directory>

  /** A source directory with a definition, in the order the roots and their directories are listed. */
  datatype Claim = Claim(owner: string, name: string, source: map<Path, Content>)

  ghost predicate ValidClaims(claims: seq<Claim>) {
    forall c :: c in claims ==> c.owner != "" && IsSource(c.source)
  }

  function At(root: Root, name: string): Directory {
    GetOr(root, name, ABSENT)
  }

  function Names(claims: seq<Claim>): set<string> {
    set c | c in claims :: c.name
  }

  /** A directory that another owner holds, or that holds a workflow nobody owns, is not to be claimed. */
  predicate Free(d: Directory, owner: string) {
    if d.marker.owner != "" then d.marker.owner == owner else DEFINITION !in d.files
  }

  /** How far the loop over the claims gets. */
  datatype Progress = Progress(root: Root, ok: bool)

  function Synced(root: Root, claims: seq<Claim>): Progress
    decreases |claims|
  {
    if claims == [] then Progress(root, true) else
      var front := claims[..|claims| - 1];
      var c := claims[|claims| - 1];
      var before := Synced(root, front);
      if !before.ok || c.name in Names(front) || !Free(At(before.root, c.name), c.owner) then before.(ok := false)
      else Progress(before.root[c.name := Sync(At(before.root, c.name), c.owner, c.source)], true)
  }

  /** Workflows of active owners that nobody claims any more are switched off. */
  function Deactivated(root: Root, claimed: set<string>, owners: set<string>): Root {
    map n | n in root
          :: if n !in claimed && root[n].marker.owner in owners
             then root[n].(marker := root[n].marker.(active := false)) else root[n]
  }

  function Provisioned(root: Root, claims: seq<Claim>, owners: set<string>): Progress {
    var p := Synced(root, claims);
    if p.ok then Progress(Deactivated(p.root, Names(claims), owners), true) else p
  }

  class WorkflowDirectory {
    var root: Root

    constructor (root: Root)
      ensures this.root == root
    {
      this.root := root;
    }

    /** The loop over the claims; a warning names each orphaned file. */
    method SyncClaims(claims: seq<Claim>) returns (ok: bool, warnings: set<(string, Path)>)
      requires ValidClaims(claims)
      modifies this
      ensures Progress(root, ok) == Synced(old(root), claims)
      ensures ok ==> Warned(root, Names(claims), warnings)
    {
      hide Sync, Free, IsSource;
      warnings := {};
      var claimed: set<string> := {};
      for i := 0 to |claims|
        invariant Synced(old(root), claims[..i]) == Progress(root, true)
        invariant claimed == Names(claims[..i])
        invariant Warned(root, claimed, warnings)
      {
        var c := claims[i];
        assert claims[..i + 1][..i] == claims[..i] && claims[..i + 1] == claims[..i] + [c];
        if c.name in claimed {
          SyncedStops(old(root), claims, i + 1);
          return false, warnings;
        }
        var d := if c.name in root then root[c.name] else ABSENT;
        if !Free(d, c.owner) {
          SyncedStops(old(root), claims, i + 1);
          return false, warnings;
        }
        var after := SyncWorkflow(d, c.owner, c.source);
        WarnedGrows(root, claimed, warnings, c.name, after);
        root := root[c.name := after];
        claimed := claimed + {c.name};
        warnings := warnings + OrphansOf(c.name, after);
        NamesGrow(claims[..i], c);
      }
      assert claims[..|claims|] == claims;
      ok := true;
    }

    /** The loop over the directories that were not claimed. */
    method Deactivate(claimed: set<string>, owners: set<string>)
      modifies this
      ensures root == Deactivated(old(root), claimed, owners)
    {
      var rest := root.Keys;
      while rest != {}
        invariant rest <= old(root).Keys == root.Keys
        invariant forall n :: n in old(root).Keys - rest ==> root[n] == Deactivated(old(root), claimed, owners)[n]
        invariant forall n :: n in rest ==> root[n] == old(root)[n]
      {
        var n :| n in rest;
        rest := rest - {n};
        if n !in claimed && root[n].marker.owner in owners {
          root := root[n := root[n].(marker := root[n].marker.(active := false))];
        }
      }
    }

    /** `provision_plugin_workflows`. */
    method Provision(claims: seq<Claim>, owners: set<string>) returns (r: Outcome<set<(string, Path)>>)
      requires ValidClaims(claims)
      modifies this
      ensures Progress(root, r.Ok?) == Provisioned(old(root), claims, owners)
      ensures r.Ok? ==> Warned(root, Names(claims), r.value)
    {
      var ok, warnings := SyncClaims(claims);
      if !ok {
        return Raised;
      }
      Deactivate(Names(claims), owners);
      r := Ok(warnings);
    }
  }

  function OrphansOf(name: string, d: Directory): set<(string, Path)> {
    set p | p in d.marker.orphans :: (name, p)
  }

  /** The warnings are exactly the orphaned files of the claimed workflows. */
  ghost predicate Warned(root: Root, claimed: set<string>, warnings: set<(string, Path)>) {
    && claimed <= root.Keys
    && forall w :: w in warnings <==> w.0 in claimed && w.1 in root[w.0].marker.orphans
  }

  lemma WarnedGrows(root: Root, claimed: set<string>, warnings: set<(string, Path)>, name: string, d: Directory)
    requires Warned(root, claimed, warnings) && name !in claimed
    ensures Warned(root[name := d], claimed + {name}, warnings + OrphansOf(name, d))
  {
  }

  lemma NamesGrow(claims: seq<Claim>, c: Claim)
    ensures Names(claims + [c]) == Names(claims) + {c.name}
  {
    assert forall x :: x in claims + [c] <==> x in claims || x == c;
    assert c in claims + [c];
  }

  lemma {:induction false} SyncedStops(root: Root, claims: seq<Claim>, i: nat)
    requires i <= |claims| && !Synced(root, claims[..i]).ok
    ensures Synced(root, claims) == Synced(root, claims[..i])
    decreases |claims|
  {
    hide Sync, Free;
    if i < |claims| {
      assert claims[..|claims| - 1][..i] == claims[..i];
      SyncedStops(root, claims[..|claims| - 1], i);
    } else {
      assert claims[..i] == claims;
    }
  }

  // ----- when it succeeds, and what it leaves -----

  ghost predicate NoConflict(root: Root, claims: seq<Claim>) {
    && (forall i, j :: 0 <= i < j < |claims| ==> claims[i].name != claims[j].name)
    && (forall c :: c in claims ==> Free(At(root, c.name), c.owner))
  }

  lemma {:induction false} SyncedElsewhere(root: Root, claims: seq<Claim>, n: string)
    requires n !in Names(claims)
    ensures At(Synced(root, claims).root, n) == At(root, n)
    ensures n in Synced(root, claims).root <==> n in root
    decreases |claims|
  {
    hide Sync, Free;
    if claims != [] {
      var front, c := claims[..|claims| - 1], claims[|claims| - 1];
      assert claims == front + [c];
      NamesGrow(front, c);
      SyncedElsewhere(root, front, n);
    }
  }

  lemma NoConflictFront(root: Root, claims: seq<Claim>)
    requires claims != []
    ensures var front, c := claims[..|claims| - 1], claims[|claims| - 1];
            NoConflict(root, claims) <==>
              NoConflict(root, front) && c.name !in Names(front) && Free(At(root, c.name), c.owner)
  {
    hide Free;
    var front, c := claims[..|claims| - 1], claims[|claims| - 1];
    assert claims == front + [c];
    assert forall x :: x in claims <==> x in front || x == c;
    if c.name in Names(front) {
      var x :| x in front && x.name == c.name;
      var i :| 0 <= i < |front| && front[i] == x;
      assert claims[i].name == claims[|front|].name;
    }
    if NoConflict(root, claims) {
      assert forall i :: 0 <= i < |front| ==> claims[i] == front[i];
    }
  }

  /** The synchronisation goes through exactly when no name is claimed twice and every claimed directory is free for
      its claimant in the state before. */
  lemma {:induction false} SyncedExactly(root: Root, claims: seq<Claim>)
    ensures Synced(root, claims).ok <==> NoConflict(root, claims)
    ensures Synced(root, claims).ok ==>
            forall c :: c in claims ==> c.name in Synced(root, claims).root
                                        && Synced(root, claims).root[c.name]
                                           == Sync(At(root, c.name), c.owner, c.source)
    decreases |claims|
  {
    hide Sync, Free, NoConflict;
    if claims == [] {
      NoClaimsNoConflict(root);
    } else {
      var front, c := claims[..|claims| - 1], claims[|claims| - 1];
      assert claims == front + [c];
      SyncedExactly(root, front);
      NoConflictFront(root, claims);
      if c.name !in Names(front) {
        SyncedElsewhere(root, front, c.name);
        assert forall x :: x in claims ==> x in front || x == c;
        assert forall x :: x in front ==> x.name in Names(front);
      }
    }
  }

  lemma NoClaimsNoConflict(root: Root)
    ensures NoConflict(root, [])
  {
  }

  /** Provisioning changes the files of a directory only by synchronising a claim on it, and only when the directory
      was its claimant's own, or empty of any workflow.  Nothing else ever loses or gains a file. */
  lemma ProvisionChangesOnlyClaims(root: Root, claims: seq<Claim>, owners: set<string>, n: string)
    requires NoConflict(root, claims)
    ensures var after := Provisioned(root, claims, owners);
            && after.ok
            && (n !in Names(claims) ==>
                  && At(after.root, n).files == At(root, n).files
                  && At(after.root, n).marker.(active := true) == At(root, n).marker.(active := true)
                  && (At(root, n).marker.owner in owners && n in root ==> !At(after.root, n).marker.active))
            && (forall c :: c in claims && c.name == n ==>
                  && Free(At(root, n), c.owner)
                  && At(after.root, n) == Sync(At(root, n), c.owner, c.source))
  {
    hide Sync, Free;
    SyncedExactly(root, claims);
    if n !in Names(claims) {
      SyncedElsewhere(root, claims, n);
    }
  }

  /** Provisioning twice with the same claims is provisioning once. */
  lemma ProvisionTwice(root: Root, claims: seq<Claim>, owners: set<string>)
    requires ValidClaims(claims) && Provisioned(root, claims, owners).ok
    ensures Provisioned(Provisioned(root, claims, owners).root, claims, owners) == Provisioned(root, claims, owners)
  {
    hide IsSource, Sync, Free;
    var once := Provisioned(root, claims, owners).root;
    SyncedExactly(root, claims);
    forall c | c in claims
      ensures c.name in once && once[c.name] == Sync(At(root, c.name), c.owner, c.source)
      ensures Free(At(once, c.name), c.owner)
      ensures Sync(At(once, c.name), c.owner, c.source) == once[c.name]
    {
      assert c.name in Names(claims);
      SyncTwice(At(root, c.name), c.owner, c.source);
      SyncOwns(At(root, c.name), c.owner, c.source);
    }
    SyncedExactly(once, claims);
    var again := Synced(once, claims).root;
    forall n
      ensures n in again <==> n in once
      ensures n in once ==> again[n] == once[n]
    {
      if n in Names(claims) {
        var c :| c in claims && c.name == n;
      } else {
        SyncedElsewhere(once, claims, n);
      }
    }
    assert again == once;
    assert Deactivated(once, Names(claims), owners) == once;
  }

  lemma SyncOwns(d: Directory, owner: string, source: map<Path, Content>)
    requires owner != ""
    ensures Free(Sync(d, owner, source), owner)
  {
  }

  /** One provisioning: what is claimed, and the owners that are active then. */
  datatype Round = Round(claims: seq<Claim>, owners: set<string>)

  function Rounds(root: Root, rounds: seq<Round>): Progress
    decreases |rounds|
  {
    if rounds == [] then Progress(root, true) else
      var before := Rounds(root, rounds[..|rounds| - 1]);
      var last := rounds[|rounds| - 1];
      if !before.ok then before else Provisioned(before.root, last.claims, last.owners)
  }

  /** The source a round claims a workflow with. */
  function SourceIn(claims: seq<Claim>, name: string): (r: Option<map<Path, Content>>)
    ensures r.None? <==> name !in Names(claims)
    ensures r.Some? ==> exists c :: c in claims && c.name == name && c.source == r.value
  {
    if claims == [] then None
    else if claims[0].name == name then
      assert claims[0] in claims;
      Some(claims[0].source)
    else SourceIn(claims[1..], name)
  }

  /** The source of the latest round that claimed a workflow; nothing when none did. */
  function Latest(rounds: seq<Round>, name: string): map<Path, Content>
    decreases |rounds|
  {
    if rounds == [] then map[] else
      match SourceIn(rounds[|rounds| - 1].claims, name)
      case Some(source) => source
      case None => Latest(rounds[..|rounds| - 1], name)
  }

  /** Over any rounds without user edits, each with its own active owners, a workflow directory holds exactly the latest
      source it was claimed with, however other workflows come and go, and while it is withdrawn and brought back. */
  lemma {:induction false} ProvisionsMirror(root: Root, rounds: seq<Round>, name: string)
    requires name !in root && (forall r :: r in rounds ==> ValidClaims(r.claims)) && Rounds(root, rounds).ok
    ensures Mirrors(At(Rounds(root, rounds).root, name), Latest(rounds, name))
    decreases |rounds|
  {
    hide IsSource, Sync, Free, Mirrors;
    if rounds == [] {
      NothingMirrors();
    } else {
      var front, last := rounds[..|rounds| - 1], rounds[|rounds| - 1];
      ProvisionsMirror(root, front, name);
      var before := Rounds(root, front).root;
      SyncedExactly(before, last.claims);
      ProvisionChangesOnlyClaims(before, last.claims, last.owners, name);
      assert last in rounds && ValidClaims(last.claims);
      if name in Names(last.claims) {
        var c :| c in last.claims && c.name == name && c.source == SourceIn(last.claims, name).value;
        SyncMirrors(At(before, name), c.owner, Latest(front, name), c.source);
      } else {
        ActiveIsNoMatter(At(before, name), At(Rounds(root, rounds).root, name), Latest(front, name));
      }
    }
  }

  lemma ActiveIsNoMatter(d: Directory, e: Directory, source: map<Path, Content>)
    requires Mirrors(d, source) && d.files == e.files
    requires d.marker.(active := true) == e.marker.(active := true)
    ensures Mirrors(e, source)
  {
  }
}
