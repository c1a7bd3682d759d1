/**
 References across all files of a plugin: wherever a document refers to a resource, the rewritten reference finds, among
 all rewritten files, the rewriting of what the reference found among all files.
 */
module ResourceFiles {
  import opened Json
  import opened Outcomes
  import opened ResourceIds
  import opened ResourceRewrite
  import opened ResourceReferences

  // ----- looking up among files -----

  /*
   The files of a plugin are given as a sequence of `Docs`: the n-th file of every type.  A type with fewer files is
   filled up with empty documents, which define nothing, refer to nothing and are always rewritten.
   */

  /** The definitions of a place in all files; of two with one id, the later file's counts. */
  function AllTable(files: seq<Docs>, place: Place): map<string, Value>
    decreases |files|
  {
    if files == [] then map[]
    else AllTable(files[..|files| - 1], place) + Table(files[|files| - 1], place)
  }

  function AllItems(files: seq<Docs>, place: Place): seq<Value>
    decreases |files|
  {
    if files == [] then []
    else AllItems(files[..|files| - 1], place) + Items(files[|files| - 1], place)
  }

  /** What a reference finds at a place. */
  function Find(files: seq<Docs>, place: Place, id: string): Option<Value> {
    if place.IsList() then FindItem(AllItems(files, place), id) else LookUp(AllTable(files, place), id)
  }

  /** The ids that are defined at a place. */
  ghost predicate Defines(files: seq<Docs>, place: Place, id: string) {
    if place.IsList() then exists v :: v in AllItems(files, place) && IsItem(v, id)
    else id in AllTable(files, place)
  }

  // ----- plans for files -----

  ghost predicate ToldApart(p: Plan, files: seq<Docs>, place: Place) {
    if place.IsList() then SeparatesItems(p, KindOf(place), AllItems(files, place))
    else Separates(p, KindOf(place), AllTable(files, place).Keys)
  }

  /** The plan tells the ids of every kind apart, in every file and across files. */
  ghost predicate PlannedFiles(p: Plan, files: seq<Docs>) {
    && p.Valid()
    && (forall i :: 0 <= i < |files| ==> PlannedDocs(p, files[i]))
    && (forall place :: IsPlace(place) ==> ToldApart(p, files, place))
  }

  /** A plan that was built from at least the ids that the files define tells them apart. */
  lemma BuiltPlanFits(p: Plan, ds: seq<(string, string)>, files: seq<Docs>)
    requires p.Valid() && Clean(p.prefix, ds) && p.mappings == MapDeclared(p.owner, p.prefix, ds)
    requires forall place, id :: IsPlace(place) && Defines(files, place, id) ==> (KindOf(place), id) in ds
    ensures PlannedFiles(p, files)
  {
    hide Plan.Valid, Clean, MapDeclared, Defines, ToldApart, PlannedDocs;
    forall place | IsPlace(place)
      ensures ToldApart(p, files, place)
    {
      BuiltPlanTells(p, ds, files, place);
    }
    forall i | 0 <= i < |files|
      ensures PlannedDocs(p, files[i])
    {
      EachIsPlanned(p, files, i);
    }
  }

  lemma BuiltPlanTells(p: Plan, ds: seq<(string, string)>, files: seq<Docs>, place: Place)
    requires p.Valid() && Clean(p.prefix, ds) && p.mappings == MapDeclared(p.owner, p.prefix, ds)
    requires forall id :: Defines(files, place, id) ==> (KindOf(place), id) in ds
    ensures ToldApart(p, files, place)
  {
    hide Plan.Valid, Clean, MapDeclared, Renamed, IsItem, KindOf, AllTable, AllItems;
    var kind := KindOf(place);
    if place.IsList() {
      var items := AllItems(files, place);
      forall v, w, a, b | v in items && w in items && IsItem(v, a) && IsItem(w, b)
                          && Renamed(p, kind, a).Ok? && Renamed(p, kind, a) == Renamed(p, kind, b)
        ensures a == b
      {
        assert Defines(files, place, a) && Defines(files, place, b);
        BuiltPlanCovers(p, ds, kind, {a, b});
      }
    } else {
      assert forall id :: id in AllTable(files, place) ==> Defines(files, place, id);
      BuiltPlanCovers(p, ds, kind, AllTable(files, place).Keys);
    }
  }

  lemma EachIsPlanned(p: Plan, files: seq<Docs>, i: nat)
    requires p.Valid() && i < |files| && forall place :: IsPlace(place) ==> ToldApart(p, files, place)
    ensures PlannedDocs(p, files[i])
  {
    hide Plan.Valid, Renamed, IsItem, PlannedDocs, AllTable, AllItems, KindOf, Table, Items, IsPlace;
    forall place | IsPlace(place)
      ensures if place.IsList() then SeparatesItems(p, KindOf(place), Items(files[i], place))
              else Separates(p, KindOf(place), Table(files[i], place).Keys)
    {
      PartOfAll(files, place, i);
      assert ToldApart(p, files, place);
    }
    PlannedParts(p, files[i]);
  }

  lemma {:induction false} PartOfAll(files: seq<Docs>, place: Place, i: nat)
    requires i < |files|
    ensures Table(files[i], place).Keys <= AllTable(files, place).Keys
    ensures forall v :: v in Items(files[i], place) ==> v in AllItems(files, place)
    decreases |files|
  {
    hide Table, Items;
    if i < |files| - 1 {
      PartOfAll(files[..|files| - 1], place, i);
    }
  }

  // ----- rewriting files -----

  /** The files are rewritten one by one. */
  ghost function RewriteFiles(p: Plan, files: seq<Docs>): Outcome<seq<Docs>>
    requires forall i :: 0 <= i < |files| ==> PlannedDocs(p, files[i])
    decreases |files|
  {
    if files == [] then Ok([]) else
      var front :- RewriteFiles(p, files[..|files| - 1]);
      var last :- RewriteDocs(p, files[|files| - 1]);
      Ok(front + [last])
  }

  lemma {:induction false} EachIsRewritten(p: Plan, files: seq<Docs>, i: nat)
    requires (forall j :: 0 <= j < |files| ==> PlannedDocs(p, files[j])) && RewriteFiles(p, files).Ok?
    ensures |RewriteFiles(p, files).value| == |files|
    ensures i < |files| ==> RewriteDocs(p, files[i]) == Ok(RewriteFiles(p, files).value[i])
    decreases |files|
  {
    hide RewriteDocs, PlannedDocs;
    if files != [] {
      EachIsRewritten(p, files[..|files| - 1], i);
    }
  }

  /** Among ids that are told apart, a new id in a table belongs to an old id of that table. */
  lemma NewIdIsOwn(p: Plan, place: Place, ids: set<string>, b: map<string, Value>, b': map<string, Value>, k: string)
    requires TableRewritten(p, place, b, b') && Separates(p, KindOf(place), ids) && k in ids && b.Keys <= ids
    requires Renamed(p, KindOf(place), k).Ok? && Renamed(p, KindOf(place), k).value in b'
    ensures k in b
  {
    hide Renamed, RewriteTarget, KindOf;
    var other :| other in b && Renamed(p, KindOf(place), other) == Renamed(p, KindOf(place), k);
    assert other == k;
  }

  /** One table put over another: a new id is the later one's exactly when the old one was. */
  lemma OneMoreTable(p: Plan, place: Place, a: map<string, Value>, a': map<string, Value>,
                     b: map<string, Value>, b': map<string, Value>)
    requires TableRewritten(p, place, a, a') && TableRewritten(p, place, b, b')
    requires Separates(p, KindOf(place), (a + b).Keys)
    ensures TableRewritten(p, place, a + b, a' + b')
  {
    hide Renamed, RewriteTarget, KindOf;
    var kind := KindOf(place);
    forall k | k in a + b
      ensures Renamed(p, kind, k).Ok? && Renamed(p, kind, k).value in a' + b'
      ensures RewriteTarget(p, place, (a + b)[k]) == Ok((a' + b')[Renamed(p, kind, k).value])
    {
      if Renamed(p, kind, k).value in b' {
        NewIdIsOwn(p, place, (a + b).Keys, b, b', k);
      }
    }
    forall e | e in a' + b'
      ensures exists k :: k in a + b && Renamed(p, kind, k) == Ok(e)
    {
      if e in b' {
        var k :| k in b && Renamed(p, kind, k) == Ok(e);
        assert k in a + b;
      } else {
        var k :| k in a && Renamed(p, kind, k) == Ok(e);
        assert k in a + b;
      }
    }
  }

  /** Every file has this place rewritten. */
  ghost predicate EachRewritten(p: Plan, files: seq<Docs>, after: seq<Docs>, place: Place) {
    |after| == |files| && forall i :: 0 <= i < |files| ==> PlaceRewritten(p, files[i], after[i], place)
  }

  lemma {:induction false} AllTableRewritten(p: Plan, files: seq<Docs>, after: seq<Docs>, place: Place)
    requires EachRewritten(p, files, after, place) && !place.IsList()
    requires Separates(p, KindOf(place), AllTable(files, place).Keys)
    ensures TableRewritten(p, place, AllTable(files, place), AllTable(after, place))
    decreases |files|
  {
    hide KindOf, Table, TableRewritten, Separates;
    if files == [] {
      NothingRewritten(p, place);
    } else {
      var front, front' := files[..|files| - 1], after[..|files| - 1];
      assert PlaceRewritten(p, files[|files| - 1], after[|files| - 1], place);
      FewerSeparate(p, KindOf(place), AllTable(front, place).Keys, AllTable(files, place).Keys);
      AllTableRewritten(p, front, front', place);
      OneMoreTable(p, place, AllTable(front, place), AllTable(front', place),
                   Table(files[|files| - 1], place), Table(after[|files| - 1], place));
    }
  }

  lemma NothingRewritten(p: Plan, place: Place)
    ensures TableRewritten(p, place, map[], map[])
  {
  }

  lemma FewerSeparate(p: Plan, kind: string, few: set<string>, many: set<string>)
    requires Separates(p, kind, many) && few <= many
    ensures Separates(p, kind, few)
  {
    hide Renamed;
  }

  lemma {:induction false} AllItemsRewritten(p: Plan, files: seq<Docs>, after: seq<Docs>, place: Place)
    requires EachRewritten(p, files, after, place) && place.IsList()
    ensures ItemsRewritten(p, place, AllItems(files, place), AllItems(after, place))
    decreases |files|
  {
    hide RewriteTarget, Items;
    if files != [] {
      var front, front' := files[..|files| - 1], after[..|files| - 1];
      AllItemsRewritten(p, front, front', place);
      assert PlaceRewritten(p, files[|files| - 1], after[|files| - 1], place);
    }
  }

  // ----- references among files -----

  /** At a place that is rewritten in every file, a rewritten reference finds the rewriting of what the reference found,
      exactly when the reference names a definition or, naming none, is not bound to follow one by accident. */
  lemma FindFollows(p: Plan, files: seq<Docs>, after: seq<Docs>, place: Place, ref: string)
    requires p.Valid() && EachRewritten(p, files, after, place) && ToldApart(p, files, place)
    requires MaybeResolve(p, KindOf(place), Text(ref)).Ok?
    ensures forall k :: Defines(files, place, k) ==> Renamed(p, KindOf(place), k).Ok?
    ensures Find(after, place, MovedRef(p, KindOf(place), ref)) == MovedTarget(p, place, Find(files, place, ref))
            <==> Defines(files, place, ref) || forall k :: Defines(files, place, k) ==>
                !Follows(p, KindOf(place), ref, k)
  {
    hide Renamed, MaybeResolve, Follows, MovedRef, ItemsRewritten, TableRewritten, MovedTarget, Plan.Valid,
         SeparatesItems, Separates, EachRewritten, AllTable, AllItems, KindOf;
    if place.IsList() {
      AllItemsRewritten(p, files, after, place);
      ItemsFollow(p, place, AllItems(files, place), AllItems(after, place), ref);
    } else {
      AllTableRewritten(p, files, after, place);
      TableFollows(p, place, AllTable(files, place), AllTable(after, place), ref);
    }
  }

  lemma EveryFileRewritten(p: Plan, files: seq<Docs>, place: Place)
    requires PlannedFiles(p, files) && RewriteFiles(p, files).Ok? && IsPlace(place)
    ensures EachRewritten(p, files, RewriteFiles(p, files).value, place)
  {
    hide RewriteFiles, RewriteDocs, PlannedDocs, PlaceRewritten, IsPlace, ToldApart, Plan.Valid;
    EachIsRewritten(p, files, 0);
    forall i | 0 <= i < |files|
      ensures PlaceRewritten(p, files[i], RewriteFiles(p, files).value[i], place)
    {
      EachIsRewritten(p, files, i);
      EveryPlaceRewritten(p, files[i], place);
    }
  }

  /** Namespacing preserves lookup: every reference of every file - of agents, skills, rules, their groups, workflow
      nodes and their parameters - is found again where its holder has moved to, and there it finds, at any place where
      its kind is defined, among all files, the rewriting of what it found before; exactly when it named a definition
      or, naming none, is not bound to follow one by accident. */
  lemma EveryReferenceKeepsItsTarget(p: Plan, files: seq<Docs>, i: nat, s: Site, place: Place)
    requires PlannedFiles(p, files) && RewriteFiles(p, files).Ok?
    requires i < |files| && IsSite(s) && Reference(files[i], s).Some?
    requires IsPlace(place) && KindOf(place) == SiteRef(s).kind
    ensures |RewriteFiles(p, files).value| == |files|
    ensures IsSite(MovedSite(p, s)) && Reference(RewriteFiles(p, files).value[i], MovedSite(p, s)).Some?
    ensures forall k :: Defines(files, place, k) ==> Renamed(p, KindOf(place), k).Ok?
    ensures var after := RewriteFiles(p, files).value;
            var ref := Reference(files[i], s).value;
            Find(after, place, Reference(after[i], MovedSite(p, s)).value)
              == MovedTarget(p, place, Find(files, place, ref))
            <==> Defines(files, place, ref) || forall k :: Defines(files, place, k) ==>
                !Follows(p, KindOf(place), ref, k)
  {
    hide RewriteFiles, RewriteDocs, Renamed, PlannedDocs, MaybeResolve, MovedRef, Follows, Find, Defines, Reference,
         MovedTarget, PlaceRewritten, ToldApart, Plan.Valid;
    var after := RewriteFiles(p, files).value;
    HoldersPlaced(s);
    EveryFileRewritten(p, files, PlaceOf(s.holder));
    EveryFileRewritten(p, files, place);
    ReferenceMoves(p, files[i], after[i], s);
    FindFollows(p, files, after, place, Reference(files[i], s).value);
  }

  lemma HoldersPlaced(s: Site)
    requires IsSite(s)
    ensures IsPlace(PlaceOf(s.holder))
  {
  }
}
