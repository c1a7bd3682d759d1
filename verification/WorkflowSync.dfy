/** The three-way synchronisation of plugin workflows into the workflow directory. */
module WorkflowSync {
  import opened Outcomes

  /** The parts of a path relative to a workflow's directory. */
  type Path = seq<string>

  /** A file's content, standing for its hash. */
  type Content = string

  /** What was installed at a path; None when nothing ever was. */
  type Marks = map<Path, Option<Content>>

  /** `.extension.json`.  `installed` is how older markers recorded the definition. */
  datatype Marker = Marker(owner: string, active: bool, files: Marks, orphans: Marks, installed: Option<Content>)

  datatype Directory = Directory(files: map<Path, Content>, marker: Marker)

  const UNMARKED := Marker("", false, map[], map[], None)
  const ABSENT := Directory(map[], UNMARKED)
  const DEFINITION := ["definition.json"]

  /** Compiled Python files, which are nobody's. */
  predicate Generated(p: Path) {
    p != [] && ("__pycache__" in p || Compiled(p[|p| - 1]))
  }

  predicate Compiled(name: string) {
    |name| > 4 && name[|name| - 4..] in {".pyc", ".pyo"}
  }

  function Lookup<K, V>(m: map<K, V>, k: K): Option<V> {
    if k in m then Some(m[k]) else None
  }

  // ----- one file -----

  /** A file that is there and is not what was last installed is the user's. */
  predicate UsersOwn(target: Option<Content>, previous: Option<Content>) {
    target.Some? && (previous.None? || target != previous)
  }

  /** `_sync_owned_file`.  What is the user's own stays, with the record of what was installed before it, unless it is
      the source's very content, which is then taken over; anything else becomes the source's; and what becomes the
      source's is recorded as such. */
  method SyncOwnedFile(source: Content, target: Option<Content>, previous: Option<Content>)
      returns (after: Content, installed: Option<Content>)
    ensures UsersOwn(target, previous) ==> Some(after) == target
    ensures !UsersOwn(target, previous) ==> after == source
    ensures after == source ==> installed == Some(source)
    ensures after != source ==> installed == previous && installed != Some(after)
  {
    if target.None? || target == Some(source) || (previous.Some? && target == previous) {
      after, installed := source, Some(source);
    } else {
      after, installed := target.value, previous;
    }
  }

  function SyncedFile(source: Content, target: Option<Content>, previous: Option<Content>): Content {
    if UsersOwn(target, previous) then target.value else source
  }

  function SyncedMark(source: Content, target: Option<Content>, previous: Option<Content>): Option<Content> {
    if SyncedFile(source, target, previous) == source then Some(source) else previous
  }

  /** The promise of `SyncOwnedFile` leaves one outcome. */
  lemma SyncedOnly(source: Content, target: Option<Content>, previous: Option<Content>, after: Content,
                   installed: Option<Content>)
    requires UsersOwn(target, previous) ==> Some(after) == target
    requires !UsersOwn(target, previous) ==> after == source
    requires after == source ==> installed == Some(source)
    requires after != source ==> installed == previous && installed != Some(after)
    ensures after == SyncedFile(source, target, previous) && installed == SyncedMark(source, target, previous)
  {
  }

  // ----- one workflow -----

  /** The recorded files, with the definition of an older marker. */
  function Previous(m: Marker): Marks {
    if m.installed.Some? && DEFINITION !in m.files then m.files[DEFINITION := m.installed] else m.files
  }

  function PreviousAt(m: Marker, p: Path): Option<Content> {
    GetOr(Previous(m), p, None)
  }

  /** What was once installed and is no longer in the source. */
  function Stale(m: Marker, source: map<Path, Content>): Marks {
    (m.orphans + Previous(m)) - source.Keys
  }

  /** A stale file that is still as it was installed. */
  predicate Untouched(d: Directory, source: map<Path, Content>, p: Path) {
    p in d.files && p in Stale(d.marker, source) && Stale(d.marker, source)[p] == Some(d.files[p])
  }

  predicate IsOrphan(d: Directory, source: map<Path, Content>, p: Path) {
    p in Stale(d.marker, source) && p in d.files && !Generated(p) && !Untouched(d, source, p)
  }

  function SyncedFiles(d: Directory, source: map<Path, Content>): map<Path, Content> {
    map p | p in d.files.Keys + source.Keys
            && (p in source || (!Generated(p) && !Untouched(d, source, p)))
          :: if p in source then SyncedFile(source[p], Lookup(d.files, p), PreviousAt(d.marker, p)) else d.files[p]
  }

  function SyncedMarks(d: Directory, source: map<Path, Content>): Marks {
    map p | p in source :: SyncedMark(source[p], Lookup(d.files, p), PreviousAt(d.marker, p))
  }

  function Orphans(d: Directory, source: map<Path, Content>): Marks {
    map p | p in Stale(d.marker, source) && IsOrphan(d, source, p) :: Stale(d.marker, source)[p]
  }

  function Sync(d: Directory, owner: string, source: map<Path, Content>): Directory {
    Directory(SyncedFiles(d, source), Marker(owner, true, SyncedMarks(d, source), Orphans(d, source), None))
  }

  /** The source of a workflow: its definition and its scripts, without compiled files. */
  predicate IsSource(source: map<Path, Content>) {
    DEFINITION in source && forall p :: p in source ==> !Generated(p)
  }

  /** The loop over the source files. */
  method SyncSources(d: Directory, source: map<Path, Content>) returns (files: map<Path, Content>, installed: Marks)
    ensures installed == SyncedMarks(d, source)
    ensures files == AfterSources(d, source)
  {
    hide Previous, UsersOwn, SyncedFile, SyncedMark, GetOr;
    files, installed := d.files, map[];
    var previous := Previous(d.marker);
    var rest := source.Keys;
    while rest != {}
      invariant rest <= source.Keys
      invariant installed.Keys == source.Keys - rest
      invariant forall p :: p in installed ==>
                  installed[p] == SyncedMark(source[p], Lookup(d.files, p), PreviousAt(d.marker, p))
      invariant files.Keys == d.files.Keys + (source.Keys - rest)
      invariant forall p :: p in files ==>
                  files[p] == if p in source.Keys - rest
                              then SyncedFile(source[p], Lookup(d.files, p), PreviousAt(d.marker, p)) else d.files[p]
    {
      var p :| p in rest;
      rest := rest - {p};
      var after, mark := SyncOwnedFile(source[p], Lookup(files, p), GetOr(previous, p, None));
      SyncedOnly(source[p], Lookup(files, p), GetOr(previous, p, None), after, mark);
      files := files[p := after];
      installed := installed[p := mark];
    }
  }

  function AfterSources(d: Directory, source: map<Path, Content>): map<Path, Content> {
    map p | p in d.files.Keys + source.Keys
          :: if p in source then SyncedFile(source[p], Lookup(d.files, p), PreviousAt(d.marker, p)) else d.files[p]
  }

  /** The loop over the stale files, and the removal of compiled ones. */
  method DropStale(d: Directory, source: map<Path, Content>, synced: map<Path, Content>)
      returns (files: map<Path, Content>, orphans: Marks)
    requires IsSource(source) && synced == AfterSources(d, source)
    ensures files == SyncedFiles(d, source) && orphans == Orphans(d, source)
  {
    hide SyncedFile, Previous, Generated;
    files, orphans := synced, map[];
    var stale := Stale(d.marker, source);
    var rest := stale.Keys;
    while rest != {}
      invariant rest <= stale.Keys
      invariant forall p :: p in files <==>
                  p in synced && (p in stale.Keys - rest ==> !Generated(p) && !Untouched(d, source, p))
      invariant forall p :: p in files ==> files[p] == synced[p]
      invariant forall p :: p in orphans <==> p in stale.Keys - rest && IsOrphan(d, source, p)
      invariant forall p :: p in orphans ==> orphans[p] == stale[p]
    {
      var p :| p in rest;
      rest := rest - {p};
      if p in files {
        if Generated(p) || (stale[p].Some? && stale[p].value == files[p]) {
          files := files - {p};
        } else {
          orphans := orphans[p := stale[p]];
        }
      }
    }
    files := map p | p in files && !Generated(p) :: files[p];
  }

  method SyncWorkflow(d: Directory, owner: string, source: map<Path, Content>) returns (r: Directory)
    requires IsSource(source)
    ensures r == Sync(d, owner, source)
  {
    var synced, installed := SyncSources(d, source);
    var files, orphans := DropStale(d, source, synced);
    r := Directory(files, Marker(owner, true, installed, orphans, None));
  }

  // ----- without user edits, the target mirrors the source -----

  /** Everything there was installed, as it is. */
  ghost predicate Mirrors(d: Directory, source: map<Path, Content>) {
    && d.files == source
    && d.marker.files.Keys == source.Keys && (forall p :: p in source ==> d.marker.files[p] == Some(source[p]))
    && d.marker.orphans == map[] && d.marker.installed.None?
  }

  lemma SyncMirrors(d: Directory, owner: string, earlier: map<Path, Content>, source: map<Path, Content>)
    requires Mirrors(d, earlier) && IsSource(source)
    ensures Mirrors(Sync(d, owner, source), source)
  {
    forall p | p in d.files && p !in source
      ensures Untouched(d, source, p)
    {
    }
    assert forall p :: p in source ==> !UsersOwn(Lookup(d.files, p), PreviousAt(d.marker, p));
    assert SyncedFiles(d, source) == source;
    assert Orphans(d, source) == map[];
  }

  function SyncAll(d: Directory, owner: string, revisions: seq<map<Path, Content>>): Directory
    decreases |revisions|
  {
    if revisions == [] then d
    else Sync(SyncAll(d, owner, revisions[..|revisions| - 1]), owner, revisions[|revisions| - 1])
  }

  /** Over any sequence of upstream revisions, from nothing, the target is exactly the latest one: files that a
      revision drops disappear, files it brings back come back. */
  lemma {:induction false} RevisionsMirror(owner: string, revisions: seq<map<Path, Content>>)
    requires forall s :: s in revisions ==> IsSource(s)
    ensures Mirrors(SyncAll(ABSENT, owner, revisions), if revisions == [] then map[] else revisions[|revisions| - 1])
    decreases |revisions|
  {
    hide Sync, Mirrors, IsSource;
    if revisions == [] {
      NothingMirrors();
    } else {
      var front := revisions[..|revisions| - 1];
      RevisionsMirror(owner, front);
      SyncMirrors(SyncAll(ABSENT, owner, front), owner,
                  if front == [] then map[] else front[|front| - 1], revisions[|revisions| - 1]);
    }
  }

  lemma NothingMirrors()
    ensures Mirrors(ABSENT, map[])
  {
  }

  // ----- user edits survive -----

  function MarkAt(m: Marker, p: Path): Option<Content> {
    if p in Previous(m) then Previous(m)[p] else GetOr(m.orphans, p, None)
  }

  /** A file that is not what was last installed there. */
  predicate Edited(d: Directory, p: Path) {
    p in d.files && !Generated(p) && MarkAt(d.marker, p) != Some(d.files[p])
  }

  lemma SyncKeepsEdit(d: Directory, owner: string, source: map<Path, Content>, p: Path)
    requires Edited(d, p) && Lookup(source, p) != Some(d.files[p])
    ensures var e := Sync(d, owner, source);
            Edited(e, p) && e.files[p] == d.files[p]
            && (p !in source && MarkAt(d.marker, p).Some? ==> p in e.marker.orphans)
  {
  }

  /** A user's version of a file survives any number of upstream revisions, as long as none of them ships that very
      version: it is neither overwritten nor deleted, whatever was installed, dropped or brought back around it. */
  lemma {:induction false} EditsSurvive(d: Directory, owner: string, revisions: seq<map<Path, Content>>, p: Path)
    requires Edited(d, p)
    requires forall s :: s in revisions ==> Lookup(s, p) != Some(d.files[p])
    ensures var e := SyncAll(d, owner, revisions); Edited(e, p) && e.files[p] == d.files[p]
    decreases |revisions|
  {
    hide Sync, Edited;
    if revisions != [] {
      EditsSurvive(d, owner, revisions[..|revisions| - 1], p);
      SyncKeepsEdit(SyncAll(d, owner, revisions[..|revisions| - 1]), owner, revisions[|revisions| - 1], p);
    }
  }

  /** A file that is there changes exactly as its edit state says: one that the source no longer has is deleted unless
      it was edited; one that the source has becomes the source's unless it was edited into something else; and what
      becomes the source's is recorded as installed.  Only a file the source brings back after it was orphaned is left
      as it is, edited or not. */
  lemma SyncFollowsEdits(d: Directory, owner: string, source: map<Path, Content>, p: Path)
    requires IsSource(source) && p in d.files && !Generated(p)
    ensures var e := Sync(d, owner, source);
            && (p !in source ==> (p in e.files <==> Edited(d, p)))
            && (p in source && (p in Previous(d.marker) || p !in d.marker.orphans) ==>
                  (e.files[p] == source[p] <==> !Edited(d, p) || d.files[p] == source[p]))
            && (p in source && p !in Previous(d.marker) && p in d.marker.orphans ==> e.files[p] == d.files[p])
            && (p in source && e.files[p] == source[p] ==> e.marker.files[p] == Some(source[p]))
  {
    hide Generated;
  }

  /** A file that was edited is orphaned by a revision without it; the user puts the installed version back; and the
      revision that brings the file back leaves it as it is, though it is not edited. */
  lemma OrphanStandsStill(owner: string, definition: Content, first: Content, edit: Content, later: Content)
    requires first != edit && first != later
    ensures var p, without := ["run"], map[DEFINITION := definition];
            var installed := Sync(ABSENT, owner, without[p := first]);
            var orphaned := Sync(installed.(files := installed.files[p := edit]), owner, without);
            var restored := orphaned.(files := orphaned.files[p := first]);
            && installed.files[p] == first && p in orphaned.marker.orphans
            && !Edited(restored, p)
            && Sync(restored, owner, without[p := later]).files[p] == first
  {
    var p, without := ["run"], map[DEFINITION := definition];
    assert p[0] != DEFINITION[0] && !Generated(p);
    var installed := Sync(ABSENT, owner, without[p := first]);
    assert Previous(installed.marker)[p] == Some(first);
    var edited := installed.(files := installed.files[p := edit]);
    assert IsOrphan(edited, without, p);
  }

  /** Only files that were installed as they are, or are compiled, or get the source's own content, ever change. */
  lemma SyncChangesOnlyItsOwn(d: Directory, owner: string, source: map<Path, Content>, p: Path)
    requires p in d.files && Lookup(Sync(d, owner, source).files, p) != Some(d.files[p])
    ensures Generated(p) || MarkAt(d.marker, p) == Some(d.files[p])
  {
  }

  lemma SyncedAgain(d: Directory, owner: string, source: map<Path, Content>, p: Path)
    requires IsSource(source) && p in Sync(d, owner, source).files
    ensures var e := Sync(d, owner, source);
            && PreviousAt(e.marker, p) == GetOr(e.marker.files, p, None)
            && Stale(e.marker, source) == e.marker.orphans
            && (p in source ==> SyncedFile(source[p], Lookup(e.files, p), PreviousAt(e.marker, p)) == e.files[p]
                                && Some(SyncedMark(source[p], Lookup(e.files, p), PreviousAt(e.marker, p)))
                                   == Lookup(e.marker.files, p))
            && (p !in source ==> !Generated(p) && !Untouched(e, source, p))
  {
    hide Generated;
    var e := Sync(d, owner, source);
    assert Stale(e.marker, source) == e.marker.orphans;
  }

  lemma OrphansStay(d: Directory, owner: string, source: map<Path, Content>, p: Path)
    requires p in Sync(d, owner, source).marker.orphans
    ensures p in Sync(d, owner, source).files && p !in source
  {
  }

  /** Synchronising twice with one source is synchronising once. */
  lemma SyncTwice(d: Directory, owner: string, source: map<Path, Content>)
    requires IsSource(source)
    ensures Sync(Sync(d, owner, source), owner, source) == Sync(d, owner, source)
  {
    hide Generated, Stale, Previous, SyncedFile, SyncedMark, Untouched, PreviousAt;
    var e := Sync(d, owner, source);
    forall p | p in e.files
      ensures Stale(e.marker, source) == e.marker.orphans
      ensures p in source ==> SyncedFile(source[p], Lookup(e.files, p), PreviousAt(e.marker, p)) == e.files[p]
      ensures p in source ==> SyncedMark(source[p], Lookup(e.files, p), PreviousAt(e.marker, p)) == e.marker.files[p]
      ensures p !in source ==> !Generated(p) && !Untouched(e, source, p)
    {
      SyncedAgain(d, owner, source, p);
    }
    assert DEFINITION in e.files;
    forall p | p in e.marker.orphans
      ensures p in e.files && p !in source
    {
      OrphansStay(d, owner, source, p);
    }
    assert SyncedFiles(e, source) == e.files;
    assert SyncedMarks(e, source) == e.marker.files;
    assert Orphans(e, source) == e.marker.orphans;
  }
}
