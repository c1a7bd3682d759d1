/**
 `LayeredJsonConfig`: nested documents and the loops that load and save them, proved to compute
 the flat `LayeredLens.Load` and `LayeredLens.Save`.
 */
module LayeredConfig {
  import opened Outcomes
  import opened LayeredLens

  /** A JSON document: object sections, array sections, and every other top-level key. */
  datatype Document<V> = Document(dicts: map<string, map<string, V>>, lists: map<string, seq<V>>, other: map<string, V>)

  datatype Layer<V> = Layer(owner: string, document: Document<V>)

  datatype OwnerData<V> = OwnerData(values: map<string, map<string, V>>, deleted: map<string, set<string>>)

  /** The "extensions" object of the override file. */
  type Overrides<V> = map<string, OwnerData<V>>

  /** Which sections are managed.  `idOf` is the text of an item's `id`, if it is an object with one. */
  datatype Shape<!V> = Shape(dictSections: seq<string>, listSections: seq<string>, idOf: V -> Option<string>) {

    function Sections(): seq<string> {
      dictSections + listSections
    }

    /** Section names are declared once. */
    ghost predicate Valid() {
      && (forall s :: s in dictSections ==> s !in listSections)
      && (forall i, j :: 0 <= i < j < |Sections()| ==> Sections()[i] != Sections()[j])
    }

    /** `_list_by_id`: the last item with an id wins; an item without one is an error. */
    function ListById(xs: seq<V>): Option<map<string, V>>
      decreases |xs|
    {
      if xs == [] then Some(map[]) else
        match (ListById(xs[..|xs| - 1]), idOf(xs[|xs| - 1]))
        case (Some(m), Some(id)) => Some(m[id := xs[|xs| - 1]])
        case _ => None
    }

    ghost predicate ListsOk(d: Document<V>) {
      forall s :: s in listSections ==> ListById(GetOr(d.lists, s, [])).Some?
    }

    ghost predicate Identified(m: map<string, V>) {
      forall i :: i in m ==> idOf(m[i]) == Some(i)
    }

    /** The items of one managed section by id. */
    function Items(d: Document<V>, s: string): map<string, V> {
      if s in dictSections then GetOr(d.dicts, s, map[])
      else match ListById(GetOr(d.lists, s, [])) case Some(m) => m case None => map[]
    }

    /** All managed items of a document, by section and id. */
    ghost function View(d: Document<V>): map<Key, V> {
      var keys := set s, i | s in Sections() && i in Items(d, s) :: Key(s, i);
      map k | k in keys :: Items(d, k.section)[k.id]
    }

    lemma {:induction false} ListByIdIdentified(xs: seq<V>)
      requires ListById(xs).Some?
      ensures Identified(ListById(xs).value)
      decreases |xs|
    {
      if xs != [] {
        ListByIdIdentified(xs[..|xs| - 1]);
      }
    }
  }

  // ----- what the layers own -----

  ghost function Tagged<V>(sh: Shape<V>, layer: Layer<V>): Registry<V> {
    var view := sh.View(layer.document);
    map k | k in view :: LayeredLens.Owned(layer.owner, view[k])
  }

  ghost function Gather<V>(sh: Shape<V>, layers: seq<Layer<V>>): Registry<V>
    decreases |layers|
  {
    if layers == [] then map[] else Gather(sh, layers[..|layers| - 1]) + Tagged(sh, layers[|layers| - 1])
  }

  /** Whether one more layer can be added: every list item has an id, and none of its ids is taken. */
  ghost predicate Fits<V>(sh: Shape<V>, base: Document<V>, owned: Registry<V>, layer: Layer<V>) {
    && sh.ListsOk(base) && sh.ListsOk(layer.document)
    && Tagged(sh, layer).Keys !! sh.View(base).Keys
    && Tagged(sh, layer).Keys !! owned.Keys
  }

  ghost predicate SourcesOk<V>(sh: Shape<V>, base: Document<V>, layers: seq<Layer<V>>)
    decreases |layers|
  {
    layers == [] ||
    var front, last := layers[..|layers| - 1], layers[|layers| - 1];
    SourcesOk(sh, base, front) && Fits(sh, base, Gather(sh, front), last)
  }

  /** The layers a pass over the sources reads: all of them, or those of enabled owners. */
  ghost function Chosen<V>(layers: seq<Layer<V>>, on: set<string>, includeInactive: bool): seq<Layer<V>>
    decreases |layers|
  {
    if layers == [] then [] else
      var rest := Chosen(layers[..|layers| - 1], on, includeInactive);
      if includeInactive || layers[|layers| - 1].owner in on then rest + [layers[|layers| - 1]] else rest
  }

  lemma {:induction false} ChosenAll<V>(layers: seq<Layer<V>>, on: set<string>)
    ensures Chosen(layers, on, true) == layers
    decreases |layers|
  {
    if layers != [] {
      ChosenAll(layers[..|layers| - 1], on);
    }
  }

  lemma ChosenOneMore<V>(layers: seq<Layer<V>>, on: set<string>, includeInactive: bool, layer: Layer<V>)
    ensures Chosen(layers + [layer], on, includeInactive) ==
              Chosen(layers, on, includeInactive) + if includeInactive || layer.owner in on then [layer] else []
  {
    assert (layers + [layer])[..|layers|] == layers;
  }

  /** The part of a registry whose owners are enabled. */
  function EnabledPart<V>(all: Registry<V>, on: set<string>): Registry<V> {
    map k | k in all && Enabled(all, on, k) :: all[k]
  }

  lemma EnabledPartOfUnion<V>(sh: Shape<V>, a: Registry<V>, layer: Layer<V>, on: set<string>)
    requires a.Keys !! Tagged(sh, layer).Keys
    ensures EnabledPart(a + Tagged(sh, layer), on) ==
              if layer.owner in on then EnabledPart(a, on) + Tagged(sh, layer) else EnabledPart(a, on)
  {
  }

  lemma FitsFewer<V>(sh: Shape<V>, base: Document<V>, owned: Registry<V>, on: set<string>, layer: Layer<V>)
    requires Fits(sh, base, owned, layer)
    ensures Fits(sh, base, EnabledPart(owned, on), layer)
  {
    assert EnabledPart(owned, on).Keys <= owned.Keys;
  }

  lemma OneMoreLayer<V>(sh: Shape<V>, base: Document<V>, layers: seq<Layer<V>>, layer: Layer<V>)
    ensures Gather(sh, layers + [layer]) == Gather(sh, layers) + Tagged(sh, layer)
    ensures SourcesOk(sh, base, layers + [layer]) <==>
              SourcesOk(sh, base, layers) && Fits(sh, base, Gather(sh, layers), layer)
  {
    var more := layers + [layer];
    assert more[..|more| - 1] == layers;
  }

  lemma {:induction false} PrefixFails<V>(sh: Shape<V>, base: Document<V>, layers: seq<Layer<V>>, on: set<string>,
                                          includeInactive: bool, i: nat)
    requires i <= |layers| && !SourcesOk(sh, base, Chosen(layers[..i], on, includeInactive))
    ensures !SourcesOk(sh, base, Chosen(layers, on, includeInactive))
    decreases |layers|
  {
    if i == |layers| {
      assert layers[..i] == layers;
    } else {
      var front, last := layers[..|layers| - 1], layers[|layers| - 1];
      assert front[..i] == layers[..i] && layers == front + [last];
      PrefixFails(sh, base, front, on, includeInactive, i);
      ChosenOneMore(front, on, includeInactive, last);
      OneMoreLayer(sh, base, Chosen(front, on, includeInactive), last);
    }
  }

  /** Leaving out disabled owners leaves a registry restricted to the enabled ones, and adds no error. */
  lemma {:induction false} EnabledLayers<V>(sh: Shape<V>, base: Document<V>, layers: seq<Layer<V>>, on: set<string>)
    requires SourcesOk(sh, base, layers)
    ensures SourcesOk(sh, base, Chosen(layers, on, false))
    ensures Gather(sh, Chosen(layers, on, false)) == EnabledPart(Gather(sh, layers), on)
    decreases |layers|
  {
    if layers != [] {
      var front, last := layers[..|layers| - 1], layers[|layers| - 1];
      var gathered := Gather(sh, front);
      EnabledLayers(sh, base, front, on);
      FitsFewer(sh, base, gathered, on, last);
      EnabledPartOfUnion(sh, gathered, last, on);
      if last.owner in on {
        OneMoreLayer(sh, base, Chosen(front, on, false), last);
      }
    }
  }

  lemma {:induction false} GatherAvoidsBase<V>(sh: Shape<V>, base: Document<V>, layers: seq<Layer<V>>)
    requires SourcesOk(sh, base, layers)
    ensures Gather(sh, layers).Keys !! sh.View(base).Keys
    ensures layers != [] ==> sh.ListsOk(base)
    ensures forall k :: k in Gather(sh, layers) ==> k.section in sh.Sections()
    ensures forall k :: k in Gather(sh, layers) && k.section in sh.listSections && k.section !in sh.dictSections ==>
              sh.idOf(Gather(sh, layers)[k].value) == Some(k.id)
    decreases |layers|
  {
    if layers != [] {
      GatherAvoidsBase(sh, base, layers[..|layers| - 1]);
      var d := layers[|layers| - 1].document;
      forall s | s in sh.listSections && s !in sh.dictSections
        ensures sh.Identified(sh.Items(d, s))
      {
        sh.ListByIdIdentified(GetOr(d.lists, s, []));
      }
    }
  }

  // ----- what an override file says -----

  /** The override value stored for `k`, if any. */
  function OwnerVal<V>(data: OwnerData<V>, k: Key): Option<V> {
    if k.id in GetOr(data.values, k.section, map[]) then Some(data.values[k.section][k.id]) else None
  }

  /** Whether a tombstone is stored for `k`. */
  predicate OwnerDel<V>(data: OwnerData<V>, k: Key) {
    k.id in GetOr(data.deleted, k.section, {})
  }

  function DataOf<V>(ov: Overrides<V>, owner: string): OwnerData<V> {
    GetOr(ov, owner, OwnerData(map[], map[]))
  }

  function OvVal<V>(ov: Overrides<V>, owner: string, k: Key): Option<V> {
    OwnerVal(DataOf(ov, owner), k)
  }

  predicate OvDel<V>(ov: Overrides<V>, owner: string, k: Key) {
    OwnerDel(DataOf(ov, owner), k)
  }

  /** An entry the sanitiser keeps: declared by that owner and, in a list section, carrying its own id. */
  predicate Allowed<V>(sh: Shape<V>, reg: Registry<V>, owner: string, k: Key, value: V) {
    k in reg && reg[k].owner == owner && (k.section in sh.listSections ==> sh.idOf(value) == Some(k.id))
  }

  function AllowedVal<V>(sh: Shape<V>, reg: Registry<V>, owner: string, data: OwnerData<V>, k: Key): Option<V> {
    match OwnerVal(data, k)
    case Some(v) => if Allowed(sh, reg, owner, k, v) then Some(v) else None
    case None => None
  }

  predicate AllowedDel<V>(reg: Registry<V>, owner: string, data: OwnerData<V>, k: Key) {
    k in reg && reg[k].owner == owner && OwnerDel(data, k)
  }

  ghost predicate Compact<V>(data: OwnerData<V>) {
    && (forall s :: s in data.values ==> data.values[s] != map[])
    && (forall s :: s in data.deleted ==> data.deleted[s] != {})
  }

  /** No empty section and no empty owner is stored. */
  ghost predicate Canonical<V>(ov: Overrides<V>) {
    forall o :: o in ov ==> ov[o] != OwnerData(map[], map[]) && Compact(ov[o])
  }

  /** Two canonical override files that say the same about every key are the same file. */
  lemma CanonicalIsUnique<V>(a: Overrides<V>, b: Overrides<V>)
    requires Canonical(a) && Canonical(b)
    requires forall o, k :: OvVal(a, o, k) == OvVal(b, o, k)
    requires forall o, k :: OvDel(a, o, k) <==> OvDel(b, o, k)
    ensures a == b
  {
    forall o
      ensures DataOf(a, o) == DataOf(b, o)
    {
      forall k
        ensures OwnerVal(DataOf(a, o), k) == OwnerVal(DataOf(b, o), k)
        ensures OwnerDel(DataOf(a, o), k) <==> OwnerDel(DataOf(b, o), k)
      {
        assert OvVal(a, o, k) == OvVal(b, o, k);
        assert OvDel(a, o, k) <==> OvDel(b, o, k);
      }
      CompactValuesAreUnique(DataOf(a, o), DataOf(b, o));
      CompactDeletedAreUnique(DataOf(a, o), DataOf(b, o));
    }
    assert forall o :: o in a <==> DataOf(a, o) != OwnerData(map[], map[]);
    assert forall o :: o in b <==> DataOf(b, o) != OwnerData(map[], map[]);
    assert a.Keys == b.Keys;
  }

  lemma CompactValuesAreUnique<V>(a: OwnerData<V>, b: OwnerData<V>)
    requires Compact(a) && Compact(b)
    requires forall k :: OwnerVal(a, k) == OwnerVal(b, k)
    ensures a.values == b.values
  {
    forall s
      ensures GetOr(a.values, s, map[]) == GetOr(b.values, s, map[])
    {
      var x, y := GetOr(a.values, s, map[]), GetOr(b.values, s, map[]);
      forall i
        ensures i in x <==> i in y
        ensures i in x ==> x[i] == y[i]
      {
        assert OwnerVal(a, Key(s, i)) == OwnerVal(b, Key(s, i));
      }
      assert x == y;
    }
    assert forall s :: s in a.values <==> GetOr(a.values, s, map[]) != map[];
    assert forall s :: s in b.values <==> GetOr(b.values, s, map[]) != map[];
    assert a.values.Keys == b.values.Keys;
  }

  lemma CompactDeletedAreUnique<V>(a: OwnerData<V>, b: OwnerData<V>)
    requires Compact(a) && Compact(b)
    requires forall k :: OwnerDel(a, k) <==> OwnerDel(b, k)
    ensures a.deleted == b.deleted
  {
    forall s
      ensures GetOr(a.deleted, s, {}) == GetOr(b.deleted, s, {})
    {
      var x, y := GetOr(a.deleted, s, {}), GetOr(b.deleted, s, {});
      forall i
        ensures i in x <==> i in y
      {
        assert OwnerDel(a, Key(s, i)) <==> OwnerDel(b, Key(s, i));
      }
      assert x == y;
    }
    assert forall s :: s in a.deleted <==> GetOr(a.deleted, s, {}) != {};
    assert forall s :: s in b.deleted <==> GetOr(b.deleted, s, {}) != {};
    assert a.deleted.Keys == b.deleted.Keys;
  }

  // ----- reading and writing one section -----

  /** `after` is `before` with section `s` holding exactly `items`. */
  ghost predicate SectionReplaced<V>(before: map<Key, V>, after: map<Key, V>, s: string, items: map<string, V>) {
    && (forall k :: k in after <==> if k.section == s then k.id in items else k in before)
    && (forall k :: k in after ==> after[k] == if k.section == s then items[k.id] else before[k])
  }

  method ReadItems<V>(sh: Shape<V>, d: Document<V>, s: string) returns (r: Outcome<map<string, V>>)
    requires sh.Valid() && s in sh.Sections()
    ensures r.Ok? <==> (s in sh.listSections ==> sh.ListById(GetOr(d.lists, s, [])).Some?)
    ensures r.Ok? ==> r.value == sh.Items(d, s)
    ensures r.Ok? && s in sh.listSections ==> sh.Identified(r.value)
  {
    if s in sh.dictSections {
      return Ok(GetOr(d.dicts, s, map[]));
    }
    var xs := GetOr(d.lists, s, []);
    var m: map<string, V> := map[];
    for i := 0 to |xs|
      invariant sh.ListById(xs[..i]) == Some(m)
    {
      assert xs[..i + 1][..i] == xs[..i];
      match sh.idOf(xs[i]) {
        case None =>
          BadListStaysBad(sh, xs, i + 1);
          return Raised;
        case Some(id) => m := m[id := xs[i]];
      }
    }
    assert xs[..|xs|] == xs;
    sh.ListByIdIdentified(xs);
    return Ok(m);
  }

  lemma {:induction false} BadListStaysBad<V>(sh: Shape<V>, xs: seq<V>, i: nat)
    requires i <= |xs| && sh.ListById(xs[..i]).None?
    ensures sh.ListById(xs).None?
    decreases |xs|
  {
    if i < |xs| {
      var front := xs[..|xs| - 1];
      assert front[..i] == xs[..i];
      BadListStaysBad(sh, front, i);
    } else {
      assert xs[..i] == xs;
    }
  }

  /** Store the items of one section: an object as it is, a list in some order. */
  method WriteItems<V>(sh: Shape<V>, d: Document<V>, s: string, items: map<string, V>) returns (r: Document<V>)
    requires sh.Valid() && s in sh.Sections()
    requires s in sh.listSections ==> sh.Identified(items)
    ensures SectionReplaced(sh.View(d), sh.View(r), s, items)
    ensures r.other == d.other
    ensures s in sh.listSections ==> sh.ListById(GetOr(r.lists, s, [])).Some?
    ensures forall t :: t != s ==> GetOr(r.lists, t, []) == GetOr(d.lists, t, [])
  {
    if s in sh.dictSections {
      r := d.(dicts := d.dicts[s := items]);
    } else {
      var xs: seq<V> := [];
      var pending := items.Keys;
      while pending != {}
        invariant pending <= items.Keys
        invariant sh.ListById(xs) == Some(map i | i in items && i !in pending :: items[i])
        decreases pending
      {
        var i :| i in pending;
        assert (xs + [items[i]])[..|xs|] == xs;
        ghost var before := map j | j in items && j !in pending :: items[j];
        xs := xs + [items[i]];
        pending := pending - {i};
        assert before[i := items[i]] == map j | j in items && j !in pending :: items[j];
      }
      assert (map i | i in items && i !in pending :: items[i]) == items;
      r := d.(lists := d.lists[s := xs]);
    }
    forall t | t in sh.Sections()
      ensures sh.Items(r, t) == if t == s then items else sh.Items(d, t)
    {
    }
  }

  // ----- claiming the ids of one layer -----

  method ClaimItems<V>(owner: string, s: string, items: map<string, V>, base: map<string, V>, owned: Registry<V>)
    returns (r: Outcome<Registry<V>>)
    ensures r.Ok? <==> forall i :: i in items ==> i !in base && Key(s, i) !in owned
    ensures r.Ok? ==> forall k :: k in r.value <==> k in owned || (k.section == s && k.id in items)
    ensures r.Ok? ==> forall k :: k in r.value ==>
              r.value[k] == if k.section == s && k.id in items then LayeredLens.Owned(owner, items[k.id]) else owned[k]
  {
    var claimed := owned;
    var pending := items.Keys;
    while pending != {}
      invariant pending <= items.Keys
      invariant forall i :: i in items && i !in pending ==> i !in base && Key(s, i) !in owned
      invariant forall k :: k in claimed <==> k in owned || (k.section == s && k.id in items && k.id !in pending)
      invariant forall k :: k in claimed ==>
                  claimed[k] == if k.section == s && k.id in items && k.id !in pending
                                then LayeredLens.Owned(owner, items[k.id]) else owned[k]
      decreases pending
    {
      var i :| i in pending;
      if i in base || Key(s, i) in claimed {
        return Raised;
      }
      claimed := claimed[Key(s, i) := LayeredLens.Owned(owner, items[i])];
      pending := pending - {i};
    }
    return Ok(claimed);
  }

  /** The part of `Fits` that concerns one section. */
  ghost predicate SectionFits<V>(sh: Shape<V>, base: Document<V>, owned: Registry<V>, d: Document<V>, s: string) {
    && (s in sh.listSections ==> sh.ListById(GetOr(base.lists, s, [])).Some?)
    && (s in sh.listSections ==> sh.ListById(GetOr(d.lists, s, [])).Some?)
    && (forall i :: i in sh.Items(d, s) ==> i !in sh.Items(base, s) && Key(s, i) !in owned)
  }

  lemma ViewAt<V>(sh: Shape<V>, d: Document<V>, s: string, i: string)
    ensures Key(s, i) in sh.View(d) <==> s in sh.Sections() && i in sh.Items(d, s)
  {
  }

  lemma FitsImpliesSection<V>(sh: Shape<V>, base: Document<V>, owned: Registry<V>, layer: Layer<V>, s: string)
    requires Fits(sh, base, owned, layer) && s in sh.Sections()
    ensures SectionFits(sh, base, owned, layer.document, s)
  {
    forall i | i in sh.Items(layer.document, s)
      ensures i !in sh.Items(base, s) && Key(s, i) !in owned
    {
      ViewAt(sh, layer.document, s, i);
      ViewAt(sh, base, s, i);
      assert Key(s, i) in Tagged(sh, layer).Keys;
    }
  }

  lemma SectionsImplyFits<V>(sh: Shape<V>, base: Document<V>, owned: Registry<V>, layer: Layer<V>)
    requires forall s :: s in sh.Sections() ==> SectionFits(sh, base, owned, layer.document, s)
    ensures Fits(sh, base, owned, layer)
  {
    forall k | k in Tagged(sh, layer)
      ensures k !in sh.View(base) && k !in owned
    {
      assert SectionFits(sh, base, owned, layer.document, k.section);
      ViewAt(sh, base, k.section, k.id);
    }
    forall s | s in sh.listSections
      ensures sh.ListById(GetOr(base.lists, s, [])).Some? && sh.ListById(GetOr(layer.document.lists, s, [])).Some?
    {
      assert SectionFits(sh, base, owned, layer.document, s);
    }
  }

  /** `claimed` is `owned` and the items of the sections `done`, tagged with their owner. */
  ghost predicate ClaimedUpTo<V>(sh: Shape<V>, layer: Layer<V>, owned: Registry<V>, claimed: Registry<V>,
                                 done: seq<string>) {
    && (forall k :: k in claimed <==> k in owned || (k.section in done && k.id in sh.Items(layer.document, k.section)))
    && (forall k :: k in claimed ==>
          claimed[k] == if k.section in done && k.id in sh.Items(layer.document, k.section)
                        then LayeredLens.Owned(layer.owner, sh.Items(layer.document, k.section)[k.id]) else owned[k])
  }

  lemma ClaimedAll<V>(sh: Shape<V>, layer: Layer<V>, owned: Registry<V>, claimed: Registry<V>)
    requires ClaimedUpTo(sh, layer, owned, claimed, sh.Sections())
    ensures claimed == owned + Tagged(sh, layer)
  {
  }

  method ClaimSection<V>(sh: Shape<V>, base: Document<V>, layer: Layer<V>, s: string, claimed: Registry<V>)
    returns (r: Outcome<Registry<V>>)
    requires sh.Valid() && s in sh.Sections()
    ensures r.Ok? <==> SectionFits(sh, base, claimed, layer.document, s)
    ensures r.Ok? ==> ClaimedUpTo(sh, layer, claimed, r.value, [s])
  {
    var baseItems := GetOr(base.dicts, s, map[]);
    if s in sh.listSections {
      baseItems :- ReadItems(sh, base, s);
    }
    var items :- ReadItems(sh, layer.document, s);
    r := ClaimItems(layer.owner, s, items, baseItems, claimed);
  }

  method ClaimLayer<V>(sh: Shape<V>, base: Document<V>, owned: Registry<V>, layer: Layer<V>)
    returns (r: Outcome<Registry<V>>)
    requires sh.Valid()
    ensures r.Ok? <==> Fits(sh, base, owned, layer)
    ensures r.Ok? ==> r.value == owned + Tagged(sh, layer)
  {
    r := ClaimSections(sh, base, owned, layer);
    if r.Ok? {
      SectionsImplyFits(sh, base, owned, layer);
      ClaimedAll(sh, layer, owned, r.value);
    } else if Fits(sh, base, owned, layer) {
      forall s | s in sh.Sections()
        ensures SectionFits(sh, base, owned, layer.document, s)
      {
        FitsImpliesSection(sh, base, owned, layer, s);
      }
    }
  }

  method ClaimSections<V>(sh: Shape<V>, base: Document<V>, owned: Registry<V>, layer: Layer<V>)
    returns (r: Outcome<Registry<V>>)
    requires sh.Valid()
    ensures r.Ok? <==> forall s :: s in sh.Sections() ==> SectionFits(sh, base, owned, layer.document, s)
    ensures r.Ok? ==> ClaimedUpTo(sh, layer, owned, r.value, sh.Sections())
  {
    var claimed := owned;
    var sections := sh.Sections();
    for n := 0 to |sections|
      invariant forall s :: s in sections[..n] ==> SectionFits(sh, base, owned, layer.document, s)
      invariant ClaimedUpTo(sh, layer, owned, claimed, sections[..n])
    {
      var done, s := sections[..n], sections[n];
      ghost var before := claimed;
      assert sections[..n + 1] == done + [s] && s !in done;
      assert SectionFits(sh, base, claimed, layer.document, s) <==> SectionFits(sh, base, owned, layer.document, s);
      claimed :- ClaimSection(sh, base, layer, s, claimed);
      ClaimedOneMore(sh, layer, owned, before, claimed, done, s);
    }
    assert sections[..|sections|] == sections;
    return Ok(claimed);
  }

  lemma ClaimedOneMore<V>(sh: Shape<V>, layer: Layer<V>, owned: Registry<V>, before: Registry<V>, after: Registry<V>,
                          done: seq<string>, s: string)
    requires ClaimedUpTo(sh, layer, owned, before, done)
    requires ClaimedUpTo(sh, layer, before, after, [s])
    ensures ClaimedUpTo(sh, layer, owned, after, done + [s])
  {
  }

  // ----- override files -----

  /** Set one section of a nested dict, leaving it out when empty. */
  function PutSection<T(==)>(m: map<string, T>, s: string, section: T, empty: T): map<string, T> {
    if section == empty then m - {s} else m[s := section]
  }

  /** The override values of one section that belong to `owner`. */
  function KeptVals<V>(sh: Shape<V>, reg: Registry<V>, owner: string, data: OwnerData<V>, s: string)
    : (r: map<string, V>)
    ensures forall i :: i in r <==> AllowedVal(sh, reg, owner, data, Key(s, i)).Some?
    ensures forall i :: i in r ==> AllowedVal(sh, reg, owner, data, Key(s, i)) == Some(r[i])
  {
    var raw := GetOr(data.values, s, map[]);
    map i | i in raw && Allowed(sh, reg, owner, Key(s, i), raw[i]) :: raw[i]
  }

  /** The tombstones of one section that belong to `owner`. */
  function KeptDels<V>(reg: Registry<V>, owner: string, data: OwnerData<V>, s: string): (r: set<string>)
    ensures forall i :: i in r <==> AllowedDel(reg, owner, data, Key(s, i))
  {
    set i | i in GetOr(data.deleted, s, {}) && AllowedDel(reg, owner, data, Key(s, i))
  }

  function SanitizeSection<V(==)>(sh: Shape<V>, reg: Registry<V>, owner: string, data: OwnerData<V>, s: string,
                                  sofar: OwnerData<V>): OwnerData<V> {
    OwnerData(PutSection(sofar.values, s, KeptVals(sh, reg, owner, data, s), map[]),
              PutSection(sofar.deleted, s, KeptDels(reg, owner, data, s), {}))
  }

  lemma SanitizedSection<V>(sh: Shape<V>, reg: Registry<V>, owner: string, data: OwnerData<V>, s: string,
                            sofar: OwnerData<V>)
    requires Compact(sofar)
    ensures var r := SanitizeSection(sh, reg, owner, data, s, sofar);
            && Compact(r)
            && (forall k :: OwnerVal(r, k) == if k.section == s then AllowedVal(sh, reg, owner, data, k)
                else OwnerVal(sofar, k))
            && (forall k :: OwnerDel(r, k) <==> if k.section == s then AllowedDel(reg, owner, data, k)
                else OwnerDel(sofar, k))
  {
    assert forall k: Key :: k.section == s ==> k == Key(s, k.id);
  }

  method SanitizeOwner<V(==)>(sh: Shape<V>, reg: Registry<V>, owner: string, data: OwnerData<V>)
      returns (r: OwnerData<V>)
    ensures forall k :: OwnerVal(r, k) == AllowedVal(sh, reg, owner, data, k)
    ensures forall k :: OwnerDel(r, k) <==> AllowedDel(reg, owner, data, k)
    ensures Compact(r)
  {
    r := OwnerData(map[], map[]);
    var sections := set k | k in reg && reg[k].owner == owner :: k.section;
    var pending := sections;
    while pending != {}
      invariant pending <= sections
      invariant Compact(r)
      invariant forall k :: OwnerVal(r, k) == if k.section in pending then None else AllowedVal(sh, reg, owner, data, k)
      invariant forall k :: OwnerDel(r, k) <==> k.section !in pending && AllowedDel(reg, owner, data, k)
      decreases pending
    {
      var s :| s in pending;
      SanitizedSection(sh, reg, owner, data, s, r);
      r := SanitizeSection(sh, reg, owner, data, s, r);
      pending := pending - {s};
    }
  }

  /** Drop every entry that does not belong to its declared owner. */
  method Sanitize<V(==)>(sh: Shape<V>, reg: Registry<V>, ov: Overrides<V>) returns (r: Overrides<V>)
    ensures Canonical(r)
    ensures forall o, k :: OvVal(r, o, k) == AllowedVal(sh, reg, o, DataOf(ov, o), k)
    ensures forall o, k :: OvDel(r, o, k) <==> AllowedDel(reg, o, DataOf(ov, o), k)
  {
    r := map[];
    var pending := ov.Keys;
    while pending != {}
      invariant pending <= ov.Keys
      invariant Canonical(r)
      invariant forall o :: o in r ==> o in ov && o !in pending
      invariant forall o, k :: o !in pending ==> OvVal(r, o, k) == AllowedVal(sh, reg, o, DataOf(ov, o), k)
      invariant forall o, k :: o !in pending ==> (OvDel(r, o, k) <==> AllowedDel(reg, o, DataOf(ov, o), k))
      decreases pending
    {
      var o :| o in pending;
      var data := SanitizeOwner(sh, reg, o, ov[o]);
      ghost var before := r;
      if data.values != map[] || data.deleted != map[] {
        r := r[o := data];
      }
      assert DataOf(r, o) == data;
      assert forall p :: p != o ==> DataOf(r, p) == DataOf(before, p);
      pending := pending - {o};
    }
  }

  /** Record one resolved item: a tombstone if it is gone, a value if it differs from its default, else nothing. */
  function UpdateEntry<V(==)>(data: OwnerData<V>, k: Key, resolved: map<string, V>, default: V): OwnerData<V> {
    var values, deleted := GetOr(data.values, k.section, map[]), GetOr(data.deleted, k.section, {});
    OwnerData(
      data.values[k.section := if k.id in resolved && resolved[k.id] != default then values[k.id := resolved[k.id]]
                               else values - {k.id}],
      data.deleted[k.section := if k.id !in resolved then deleted + {k.id} else deleted - {k.id}])
  }

  lemma UpdatedEntry<V>(data: OwnerData<V>, k: Key, resolved: map<string, V>, default: V)
    ensures var r := UpdateEntry(data, k, resolved, default);
            && (forall j :: OwnerVal(r, j) == if j != k then OwnerVal(data, j)
                                              else if k.id in resolved
                                                      && resolved[k.id] != default then Some(resolved[k.id]) else None)
            && (forall j :: OwnerDel(r, j) <==> if j != k then OwnerDel(data, j) else k.id !in resolved)
  {
  }

  /** What the updated file says for `owner` and `k`, once the items `done` of section `s` have been recorded. */
  function NewVal<V(==)>(s: string, resolved: map<string, V>, owned: Registry<V>, done: set<Key>, ov: Overrides<V>,
                         owner: string, k: Key)
    : Option<V>
  {
    if k in done && k.section == s && k in owned && owned[k].owner == owner
    then if k.id in resolved && resolved[k.id] != owned[k].value then Some(resolved[k.id]) else None
    else OvVal(ov, owner, k)
  }

  predicate NewDel<V>(s: string, resolved: map<string, V>, owned: Registry<V>, done: set<Key>, ov: Overrides<V>,
                      owner: string, k: Key) {
    if k in done && k.section == s && k in owned && owned[k].owner == owner then k.id !in resolved
       else OvDel(ov, owner, k)
  }

  method UpdateOverrides<V(==)>(s: string, resolved: map<string, V>, owned: Registry<V>, ov: Overrides<V>)
    returns (r: Overrides<V>)
    ensures forall o, k :: OvVal(r, o, k) == NewVal(s, resolved, owned, owned.Keys, ov, o, k)
    ensures forall o, k :: OvDel(r, o, k) <==> NewDel(s, resolved, owned, owned.Keys, ov, o, k)
  {
    r := ov;
    var items := set k | k in owned && k.section == s;
    var pending := items;
    while pending != {}
      invariant pending <= items
      invariant forall o, k :: OvVal(r, o, k) == NewVal(s, resolved, owned, items - pending, ov, o, k)
      invariant forall o, k :: OvDel(r, o, k) <==> NewDel(s, resolved, owned, items - pending, ov, o, k)
      decreases pending
    {
      var k :| k in pending;
      var owner := owned[k].owner;
      UpdatedEntry(DataOf(r, owner), k, resolved, owned[k].value);
      ghost var before := r;
      r := r[owner := UpdateEntry(DataOf(r, owner), k, resolved, owned[k].value)];
      assert forall o :: o != owner ==> DataOf(r, o) == DataOf(before, o);
      assert items - (pending - {k}) == items - pending + {k};
      forall o, j
        ensures OvVal(r, o, j) == NewVal(s, resolved, owned, items - pending + {k}, ov, o, j)
        ensures OvDel(r, o, j) <==> NewDel(s, resolved, owned, items - pending + {k}, ov, o, j)
      {
        assert o != owner || j != k ==>
                 OvVal(r, o, j) == OvVal(before, o, j) && (OvDel(r, o, j) <==> OvDel(before, o, j));
      }
      pending := pending - {k};
    }
    r := Prune(r);
  }

  function PruneOwner<V(==)>(data: OwnerData<V>): OwnerData<V> {
    OwnerData(map s | s in data.values && data.values[s] != map[] :: data.values[s],
              map s | s in data.deleted && data.deleted[s] != {} :: data.deleted[s])
  }

  lemma PrunedOwner<V>(data: OwnerData<V>)
    ensures forall k :: OwnerVal(PruneOwner(data), k) == OwnerVal(data, k)
    ensures forall k :: OwnerDel(PruneOwner(data), k) <==> OwnerDel(data, k)
    ensures Compact(PruneOwner(data))
  {
  }

  /** Drop empty sections, then owners with nothing left. */
  method Prune<V(==)>(ov: Overrides<V>) returns (r: Overrides<V>)
    ensures forall o, k :: OvVal(r, o, k) == OvVal(ov, o, k)
    ensures forall o, k :: OvDel(r, o, k) <==> OvDel(ov, o, k)
    ensures Canonical(r)
  {
    r := map[];
    var pending := ov.Keys;
    while pending != {}
      invariant pending <= ov.Keys
      invariant Canonical(r)
      invariant forall o :: o in r ==> o in ov && o !in pending
      invariant forall o, k :: o !in pending ==> OvVal(r, o, k) == OvVal(ov, o, k)
      invariant forall o, k :: o !in pending ==> (OvDel(r, o, k) <==> OvDel(ov, o, k))
      decreases pending
    {
      var o :| o in pending;
      PrunedOwner(ov[o]);
      ghost var before := r;
      if PruneOwner(ov[o]) != OwnerData(map[], map[]) {
        r := r[o := PruneOwner(ov[o])];
      }
      assert DataOf(r, o) == PruneOwner(ov[o]);
      assert forall p :: p != o ==> DataOf(r, p) == DataOf(before, p);
      pending := pending - {o};
    }
  }

  // ----- the resolved document -----

  /** In a list section every override value carries the id it is stored under. */
  ghost predicate CarriesIds<V>(sh: Shape<V>, data: OwnerData<V>) {
    forall k: Key :: k.section in sh.listSections && OwnerVal(data, k).Some? ==>
             sh.idOf(OwnerVal(data, k).value) == Some(k.id)
  }

  /** One owner's overrides applied to section `s`: values first, then tombstones. */
  method PatchSection<V>(sh: Shape<V>, d: Document<V>, s: string, data: OwnerData<V>) returns (r: Document<V>)
    requires sh.Valid() && s in sh.Sections() && sh.ListsOk(d)
    requires CarriesIds(sh, data)
    ensures sh.ListsOk(r) && r.other == d.other
    ensures PatchedView(sh.View(d), sh.View(r), data, [s])
  {
    var target := ReadItems(sh, d, s);
    var values := GetOr(data.values, s, map[]);
    forall i | i in values && s in sh.listSections
      ensures sh.idOf(values[i]) == Some(i)
    {
      assert OwnerVal(data, Key(s, i)) == Some(values[i]);
    }
    r := WriteItems(sh, d, s, target.value + values - GetOr(data.deleted, s, {}));
    PatchedBySection(sh, d, sh.View(r), s, data);
  }

  lemma PatchedBySection<V>(sh: Shape<V>, d: Document<V>, after: map<Key, V>, s: string, data: OwnerData<V>)
    requires s in sh.Sections()
    requires SectionReplaced(sh.View(d), after, s, sh.Items(d, s)
                             + GetOr(data.values, s, map[]) - GetOr(data.deleted, s, {}))
    ensures PatchedView(sh.View(d), after, data, [s])
  {
    forall k: Key | k.section == s
      ensures k in sh.View(d) <==> k.id in sh.Items(d, s)
      ensures k in sh.View(d) ==> sh.View(d)[k] == sh.Items(d, s)[k.id]
    {
      ViewAt(sh, d, s, k.id);
    }
  }

  /** `after` is `before` with the overrides of `data` applied in the sections `done`. */
  ghost predicate PatchedView<V>(before: map<Key, V>, after: map<Key, V>, data: OwnerData<V>, done: seq<string>) {
    && (forall k :: k in after <==>
          if k.section in done then !OwnerDel(data, k) && (k in before || OwnerVal(data, k).Some?) else k in before)
    && (forall k :: k in after ==>
          after[k] == if k.section in done && OwnerVal(data, k).Some? then OwnerVal(data, k).value else before[k])
  }

  method PatchOwner<V>(sh: Shape<V>, d: Document<V>, data: OwnerData<V>) returns (r: Document<V>)
    requires sh.Valid() && sh.ListsOk(d)
    requires CarriesIds(sh, data)
    ensures sh.ListsOk(r) && r.other == d.other
    ensures PatchedView(sh.View(d), sh.View(r), data, sh.Sections())
  {
    r := d;
    var sections := sh.Sections();
    for n := 0 to |sections|
      invariant sh.ListsOk(r) && r.other == d.other
      invariant PatchedView(sh.View(d), sh.View(r), data, sections[..n])
    {
      assert sections[..n + 1] == sections[..n] + [sections[n]] && sections[n] !in sections[..n];
      ghost var before := sh.View(r);
      r := PatchSection(sh, r, sections[n], data);
      PatchedOneMore(sh.View(d), before, sh.View(r), data, sections[..n], sections[n]);
    }
    assert sections[..|sections|] == sections;
  }

  lemma PatchedOneMore<V>(first: map<Key, V>, before: map<Key, V>, after: map<Key, V>, data: OwnerData<V>,
                          done: seq<string>, s: string)
    requires PatchedView(first, before, data, done) && PatchedView(before, after, data, [s]) && s !in done
    ensures PatchedView(first, after, data, done + [s])
  {
  }

  /** The flat store that a base document and an override file stand for. */
  ghost function StoreOf<V>(sh: Shape<V>, reg: Registry<V>, base: Document<V>, ov: Overrides<V>): Store<V> {
    Store(
      sh.View(base),
      map k | k in reg && AllowedVal(sh, reg, reg[k].owner, DataOf(ov, reg[k].owner), k).Some? ::
        AllowedVal(sh, reg, reg[k].owner, DataOf(ov, reg[k].owner), k).value,
      (set k | k in reg && AllowedDel(reg, reg[k].owner, DataOf(ov, reg[k].owner), k)),
      base.other)
  }
}
