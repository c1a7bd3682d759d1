/** `LayeredJsonConfig` with its files as fields: `Load` and `Save` compute the lens of `LayeredLens`. */
module LayeredJsonStore {
  import opened Outcomes
  import opened LayeredLens
  import opened LayeredConfig

  class LayeredJsonConfig<V(==)> {
    const shape: Shape<V>
    /** The documents the extension layers hold on disk; extension values are immutable defaults. */
    const layers: seq<Layer<V>>
    var baseFile: Document<V>
    var overrideFile: Overrides<V>
    /** The owners for which `owner_enabled` answers true. */
    var enabled: set<string>

    ghost function Registered(): Registry<V> {
      Gather(shape, layers)
    }

    /** What the two files mean. */
    ghost function Stored(): Store<V>
      reads this
    {
      StoreOf(shape, Registered(), baseFile, overrideFile)
    }

    ghost predicate Readable()
      reads this
    {
      SourcesOk(shape, baseFile, layers)
    }

    constructor (shape: Shape<V>, base: Document<V>, layers: seq<Layer<V>>, overrides: Overrides<V>,
                 enabled: set<string>)
      requires shape.Valid()
      ensures this.shape == shape && this.layers == layers && this.enabled == enabled
      ensures baseFile == base && overrideFile == overrides
    {
      this.shape, this.layers, this.enabled := shape, layers, enabled;
      baseFile, overrideFile := base, overrides;
    }

    method LoadSources(includeInactive: bool) returns (r: Outcome<Registry<V>>)
      requires shape.Valid()
      ensures r.Ok? <==> SourcesOk(shape, baseFile, Chosen(layers, enabled, includeInactive))
      ensures r.Ok? ==> r.value == Gather(shape, Chosen(layers, enabled, includeInactive))
    {
      hide Gather, SourcesOk, Chosen;
      var owned: Registry<V> := map[];
      NothingChosen(shape, baseFile, layers, enabled, includeInactive);
      for i := 0 to |layers|
        invariant SourcesOk(shape, baseFile, Chosen(layers[..i], enabled, includeInactive))
        invariant owned == Gather(shape, Chosen(layers[..i], enabled, includeInactive))
      {
        assert layers[..i + 1] == layers[..i] + [layers[i]];
        ghost var chosen := Chosen(layers[..i], enabled, includeInactive);
        ChosenOneMore(layers[..i], enabled, includeInactive, layers[i]);
        assert Chosen(layers[..i + 1], enabled, includeInactive)
            == chosen + if includeInactive || layers[i].owner in enabled then [layers[i]] else [];
        assert chosen + [] == chosen;
        if includeInactive || layers[i].owner in enabled {
          var claimed := ClaimNext(shape, baseFile, owned, layers[i], chosen);
          if claimed.Raised? {
            PrefixFails(shape, baseFile, layers, enabled, includeInactive, i + 1);
            return Raised;
          }
          owned := claimed.value;
        }
      }
      assert layers[..|layers|] == layers;
      return Ok(owned);
    }

    /** The resolved document: base, enabled layers, then the overrides of enabled owners. */
    method Load() returns (r: Outcome<Document<V>>)
      requires shape.Valid()
      ensures r.Ok? <==> Readable()
      ensures r.Ok? ==> shape.View(r.value) == LayeredLens.Load(Stored(), Registered(), enabled)
      ensures r.Ok? ==> r.value.other == baseFile.other
      ensures r.Ok? ==> (shape.ListsOk(r.value) <==> shape.ListsOk(baseFile))
    {
      ChosenAll(layers, enabled);
      var owned := LoadSources(false);
      var all := LoadSources(true);
      if all.Ok? {
        EnabledLayers(shape, baseFile, layers, enabled);
        GatherAvoidsBase(shape, baseFile, layers);
        var overrides := Sanitize(shape, all.value, overrideFile);
        SanitizedTwice(shape, all.value, overrideFile, overrides);
        NothingOwnedNothingKept(shape, all.value, overrides);
        var merged := MergeOwned(shape, baseFile, owned.value);
        var document := ApplyOverrides(shape, merged, all.value, overrides, enabled);
        LoadAgrees(shape, all.value, enabled, baseFile, overrideFile, overrides, shape.View(merged),
                   shape.View(document));
        return Ok(document);
      }
      return Raised;
    }

    /** Split an edited document back into the base file and the override file; nothing is written on an error. */
    method Save(resolved: Document<V>) returns (r: Outcome<()>)
      requires shape.Valid()
      modifies this`baseFile, this`overrideFile
      ensures r.Ok? <==> old(Readable()) && shape.ListsOk(resolved)
      ensures r.Raised? ==> baseFile == old(baseFile) && overrideFile == old(overrideFile)
      ensures r.Ok? ==> Stored() == LayeredLens.Save(old(Stored()), Registered(), enabled, shape.View(resolved),
                                                     resolved.other)
      ensures r.Ok? ==> Readable() && Sanitized(shape, Registered(), overrideFile)
    {
      hide Gather, SourcesOk, StoreOf, LayeredLens.Save, Sanitized;
      ChosenAll(layers, enabled);
      var owned := LoadSources(false);
      var all := LoadSources(true);
      if all.Raised? {
        return Raised;
      }
      EnabledLayers(shape, baseFile, layers, enabled);
      GatherAvoidsBase(shape, baseFile, layers);
      var overrides := Sanitize(shape, all.value, overrideFile);
      var split := SplitSections(shape, baseFile, resolved, owned.value, all.value, overrides);
      if split.Raised? {
        return Raised;
      }
      var final := Sanitize(shape, all.value, split.value.1);
      SanitizedTwice(shape, all.value, split.value.1, final);
      SaveAgrees(shape, all.value, enabled, baseFile, overrideFile, overrides, resolved, split.value.0, split.value.1,
                 final);
      SourcesStayOk(shape, baseFile, split.value.0.(other := split.value.0.other + resolved.other), layers);
      baseFile, overrideFile := split.value.0.(other := split.value.0.other + resolved.other), final;
      return Ok(());
    }
  }

  lemma NothingChosen<V>(sh: Shape<V>, base: Document<V>, layers: seq<Layer<V>>, on: set<string>, includeInactive: bool)
    ensures SourcesOk(sh, base, Chosen(layers[..0], on, includeInactive))
    ensures Gather(sh, Chosen(layers[..0], on, includeInactive)) == map[]
  {
  }

  method ClaimNext<V>(sh: Shape<V>, base: Document<V>, owned: Registry<V>, layer: Layer<V>, ghost layers: seq<Layer<V>>)
    returns (r: Outcome<Registry<V>>)
    requires sh.Valid() && SourcesOk(sh, base, layers) && owned == Gather(sh, layers)
    ensures r.Ok? <==> SourcesOk(sh, base, layers + [layer])
    ensures r.Ok? ==> r.value == Gather(sh, layers + [layer])
  {
    OneMoreLayer(sh, base, layers, layer);
    r := ClaimLayer(sh, base, owned, layer);
  }

  /** An override file as the sanitiser leaves it. */
  ghost predicate Sanitized<V>(sh: Shape<V>, reg: Registry<V>, ov: Overrides<V>) {
    && Canonical(ov)
    && (forall o, k :: OvVal(ov, o, k) == AllowedVal(sh, reg, o, DataOf(ov, o), k))
    && (forall o, k :: OvDel(ov, o, k) <==> AllowedDel(reg, o, DataOf(ov, o), k))
  }

  lemma NothingOwnedNothingKept<V>(sh: Shape<V>, reg: Registry<V>, ov: Overrides<V>)
    requires Sanitized(sh, reg, ov)
    ensures reg == map[] ==> ov == map[]
  {
    if reg == map[] {
      CanonicalIsUnique(ov, map[]);
    }
  }

  /** Every item of the enabled layers put over the base document. */
  method MergeOwned<V>(sh: Shape<V>, base: Document<V>, owned: Registry<V>) returns (r: Document<V>)
    requires sh.Valid()
    requires owned != map[] ==> sh.ListsOk(base)
    requires forall k :: k in owned ==> k.section in sh.Sections()
    requires forall k :: k in owned && k.section in sh.listSections ==> sh.idOf(owned[k].value) == Some(k.id)
    ensures r.other == base.other
    ensures sh.ListsOk(base) ==> sh.ListsOk(r)
    ensures owned == map[] ==> r == base
    ensures forall k :: k in sh.View(r) <==> k in sh.View(base) || k in owned
    ensures forall k :: k in sh.View(r) ==> sh.View(r)[k] == if k in owned then owned[k].value else sh.View(base)[k]
  {
    r := base;
    var pending := owned.Keys;
    while pending != {}
      invariant pending <= owned.Keys
      invariant r.other == base.other
      invariant sh.ListsOk(base) ==> sh.ListsOk(r)
      invariant owned == map[] ==> r == base
      invariant forall k :: k in sh.View(r) <==> k in sh.View(base) || (k in owned && k !in pending)
      invariant forall k :: k in sh.View(r) ==>
                  sh.View(r)[k] == if k in owned && k !in pending then owned[k].value else sh.View(base)[k]
      decreases pending
    {
      var k :| k in pending;
      r := PutItem(sh, r, k, owned[k].value);
      pending := pending - {k};
    }
  }

  method PutItem<V>(sh: Shape<V>, d: Document<V>, k: Key, value: V) returns (r: Document<V>)
    requires sh.Valid() && sh.ListsOk(d) && k.section in sh.Sections()
    requires k.section in sh.listSections ==> sh.idOf(value) == Some(k.id)
    ensures sh.ListsOk(r) && r.other == d.other
    ensures sh.View(r) == sh.View(d)[k := value]
  {
    var items := ReadItems(sh, d, k.section);
    r := WriteItems(sh, d, k.section, items.value[k.id := value]);
    PutBySection(sh, d, sh.View(r), k, value);
  }

  lemma PutBySection<V>(sh: Shape<V>, d: Document<V>, after: map<Key, V>, k: Key, value: V)
    requires k.section in sh.Sections()
    requires SectionReplaced(sh.View(d), after, k.section, sh.Items(d, k.section)[k.id := value])
    ensures after == sh.View(d)[k := value]
  {
    ViewOfSection(sh, d, k.section);
    ReplacedByPut(sh.View(d), after, k, value, sh.Items(d, k.section));
  }

  lemma ViewOfSection<V>(sh: Shape<V>, d: Document<V>, s: string)
    requires s in sh.Sections()
    ensures forall i :: i in sh.Items(d, s) <==> Key(s, i) in sh.View(d)
    ensures forall i :: i in sh.Items(d, s) ==> sh.View(d)[Key(s, i)] == sh.Items(d, s)[i]
  {
  }

  lemma ReplacedByPut<V>(before: map<Key, V>, after: map<Key, V>, k: Key, value: V, items: map<string, V>)
    requires forall i :: i in items <==> Key(k.section, i) in before
    requires forall i :: i in items ==> before[Key(k.section, i)] == items[i]
    requires SectionReplaced(before, after, k.section, items[k.id := value])
    ensures after == before[k := value]
  {
    forall j: Key
      ensures j in after <==> j in before[k := value]
      ensures j in after ==> after[j] == before[k := value][j]
    {
      if j.section == k.section {
        assert j == Key(k.section, j.id);
      }
    }
  }

  /** `after` is `before` with the overrides of the owners in `done` applied. */
  ghost predicate OverriddenView<V>(before: map<Key, V>, after: map<Key, V>, reg: Registry<V>, ov: Overrides<V>,
                                    done: set<string>) {
    && (forall k :: k in after <==>
          if k in reg && reg[k].owner in done
          then !OvDel(ov, reg[k].owner, k) && (k in before || OvVal(ov, reg[k].owner, k).Some?) else k in before)
    && (forall k :: k in after ==>
          after[k] == if k in reg && reg[k].owner in done && OvVal(ov, reg[k].owner, k).Some?
                      then OvVal(ov, reg[k].owner, k).value else before[k])
  }

  method ApplyOverrides<V>(sh: Shape<V>, d: Document<V>, reg: Registry<V>, ov: Overrides<V>, on: set<string>)
    returns (r: Document<V>)
    requires sh.Valid() && Sanitized(sh, reg, ov)
    requires ov != map[] ==> sh.ListsOk(d)
    requires forall k :: k in reg ==> k.section in sh.Sections()
    ensures r.other == d.other
    ensures sh.ListsOk(d) ==> sh.ListsOk(r)
    ensures ov == map[] ==> r == d
    ensures OverriddenView(sh.View(d), sh.View(r), reg, ov, ov.Keys * on)
  {
    hide OverriddenView, PatchedView, Sanitized, CarriesIds, Shape.ListsOk, Shape.View;
    r := d;
    var pending := ov.Keys;
    OverriddenNothing(sh.View(d), reg, ov);
    assert (ov.Keys - pending) * on == {};
    while pending != {}
      invariant pending <= ov.Keys
      invariant r.other == d.other
      invariant sh.ListsOk(d) ==> sh.ListsOk(r)
      invariant ov == map[] ==> r == d
      invariant OverriddenView(sh.View(d), sh.View(r), reg, ov, (ov.Keys - pending) * on)
      decreases pending
    {
      var o :| o in pending;
      if o in on {
        ghost var before := sh.View(r);
        SanitizedCarriesIds(sh, reg, ov, o);
        r := PatchOwner(sh, r, ov[o]);
        OverriddenOneMore(sh, sh.View(d), before, sh.View(r), reg, ov, (ov.Keys - pending) * on, o);
        assert (ov.Keys - (pending - {o})) * on == (ov.Keys - pending) * on + {o};
      } else {
        assert (ov.Keys - (pending - {o})) * on == (ov.Keys - pending) * on;
      }
      pending := pending - {o};
    }
    assert (ov.Keys - {}) * on == ov.Keys * on;
  }

  lemma SanitizedCarriesIds<V>(sh: Shape<V>, reg: Registry<V>, ov: Overrides<V>, o: string)
    requires Sanitized(sh, reg, ov) && o in ov
    ensures CarriesIds(sh, ov[o])
  {
    forall k: Key | k.section in sh.listSections && OwnerVal(ov[o], k).Some?
      ensures sh.idOf(OwnerVal(ov[o], k).value) == Some(k.id)
    {
      assert OvVal(ov, o, k) == AllowedVal(sh, reg, o, DataOf(ov, o), k);
    }
  }

  lemma OverriddenNothing<V>(view: map<Key, V>, reg: Registry<V>, ov: Overrides<V>)
    ensures OverriddenView(view, view, reg, ov, {})
  {
  }

  /** The entries of one owner are about its own ids. */
  lemma OwnEntry<V>(sh: Shape<V>, reg: Registry<V>, ov: Overrides<V>, o: string, k: Key)
    requires Sanitized(sh, reg, ov) && o in ov
    ensures OwnerVal(ov[o], k) == OvVal(ov, o, k) && (OwnerDel(ov[o], k) <==> OvDel(ov, o, k))
    ensures OvVal(ov, o, k).Some? || OvDel(ov, o, k) ==> k in reg && reg[k].owner == o
  {
    assert OvVal(ov, o, k) == AllowedVal(sh, reg, o, DataOf(ov, o), k);
  }

  lemma OverriddenOneMore<V>(sh: Shape<V>, first: map<Key, V>, before: map<Key, V>, after: map<Key, V>,
                             reg: Registry<V>, ov: Overrides<V>, done: set<string>, o: string)
    requires OverriddenView(first, before, reg, ov, done) && o in ov && o !in done
    requires PatchedView(before, after, ov[o], sh.Sections())
    requires Sanitized(sh, reg, ov)
    requires forall k :: k in reg ==> k.section in sh.Sections()
    ensures OverriddenView(first, after, reg, ov, done + {o})
  {
    hide Sanitized, OvVal, OvDel, OwnerVal, OwnerDel;
    forall k
      ensures OwnerVal(ov[o], k) == OvVal(ov, o, k) && (OwnerDel(ov[o], k) <==> OvDel(ov, o, k))
      ensures OvVal(ov, o, k).Some? || OvDel(ov, o, k) ==> k in reg && reg[k].owner == o
    {
      OwnEntry(sh, reg, ov, o, k);
    }
  }

  lemma StoreAt<V>(sh: Shape<V>, reg: Registry<V>, base: Document<V>, raw: Overrides<V>, k: Key)
    requires k in reg
    ensures var st, o := StoreOf(sh, reg, base, raw), reg[k].owner;
            && (k in st.vals <==> AllowedVal(sh, reg, o, DataOf(raw, o), k).Some?)
            && (k in st.vals ==> st.vals[k] == AllowedVal(sh, reg, o, DataOf(raw, o), k).value)
            && (k in st.dels <==> AllowedDel(reg, o, DataOf(raw, o), k))
  {
  }

  lemma LoadAgrees<V>(sh: Shape<V>, reg: Registry<V>, on: set<string>, base: Document<V>, raw: Overrides<V>,
                      ov: Overrides<V>, merged: map<Key, V>, final: map<Key, V>)
    requires forall o, k :: OvVal(ov, o, k) == AllowedVal(sh, reg, o, DataOf(raw, o), k)
    requires forall o, k :: OvDel(ov, o, k) <==> AllowedDel(reg, o, DataOf(raw, o), k)
    requires forall k :: k in merged <==> k in sh.View(base) || Enabled(reg, on, k)
    requires forall k :: k in merged ==> merged[k] == if Enabled(reg, on, k) then reg[k].value else sh.View(base)[k]
    requires OverriddenView(merged, final, reg, ov, ov.Keys * on)
    ensures final == LayeredLens.Load(StoreOf(sh, reg, base, raw), reg, on)
  {
    var st := StoreOf(sh, reg, base, raw);
    forall k
      ensures k in final <==> if Enabled(reg, on, k) then k !in st.dels else k in st.base
      ensures k in final ==>
                final[k] == if !Enabled(reg, on, k) then st.base[k] else if k in st.vals then st.vals[k]
                  else reg[k].value
    {
      if Enabled(reg, on, k) {
        StoreAt(sh, reg, base, raw, k);
        assert OvVal(ov, reg[k].owner, k) == AllowedVal(sh, reg, reg[k].owner, DataOf(raw, reg[k].owner), k);
      }
    }
    LoadIs(st, reg, on, final);
  }

  /** The base view once the sections `done` hold exactly the resolved items no extension owns. */
  ghost predicate BaseUpTo<V>(before: map<Key, V>, after: map<Key, V>, resolved: map<Key, V>, all: Registry<V>,
                              done: seq<string>) {
    && (forall k :: k in after <==> if k.section in done then k in resolved && k !in all else k in before)
    && (forall k :: k in after ==> after[k] == if k.section in done then resolved[k] else before[k])
  }

  /** The override file once the items of the sections `done` have been recorded. */
  ghost predicate RecordedUpTo<V>(before: Overrides<V>, after: Overrides<V>, resolved: map<Key, V>,
                                  owned: Registry<V>, done: seq<string>) {
    && (forall o, k :: OvVal(after, o, k) ==
          if k.section in done && k in owned && owned[k].owner == o
          then (if k in resolved && resolved[k] != owned[k].value then Some(resolved[k]) else None)
          else OvVal(before, o, k))
    && (forall o, k :: OvDel(after, o, k) <==>
          if k.section in done && k in owned && owned[k].owner == o then k !in resolved else OvDel(before, o, k))
  }

  /** One section of `Save`: its base items, and its overrides. */
  method SplitSection<V(==)>(sh: Shape<V>, d: Document<V>, ov: Overrides<V>, s: string, items: map<string, V>,
                             owned: Registry<V>, all: Registry<V>)
    returns (d': Document<V>, ov': Overrides<V>)
    requires sh.Valid() && s in sh.Sections()
    requires s in sh.listSections ==> sh.Identified(items)
    ensures SectionReplaced(sh.View(d), sh.View(d'), s, map i | i in items && Key(s, i) !in all :: items[i])
    ensures d'.other == d.other
    ensures s in sh.listSections ==> sh.ListById(GetOr(d'.lists, s, [])).Some?
    ensures forall t :: t != s ==> GetOr(d'.lists, t, []) == GetOr(d.lists, t, [])
    ensures forall o, k :: OvVal(ov', o, k) == NewVal(s, items, owned, owned.Keys, ov, o, k)
    ensures forall o, k :: OvDel(ov', o, k) <==> NewDel(s, items, owned, owned.Keys, ov, o, k)
  {
    d' := WriteItems(sh, d, s, map i | i in items && Key(s, i) !in all :: items[i]);
    ov' := UpdateOverrides(s, items, owned, ov);
  }

  ghost predicate ListsOkIn<V>(sh: Shape<V>, d: Document<V>, done: seq<string>) {
    forall s :: s in done && s in sh.listSections ==> sh.ListById(GetOr(d.lists, s, [])).Some?
  }

  method SplitSections<V(==)>(sh: Shape<V>, base: Document<V>, resolved: Document<V>, owned: Registry<V>,
                              all: Registry<V>, ov: Overrides<V>)
    returns (r: Outcome<(Document<V>, Overrides<V>)>)
    requires sh.Valid()
    ensures r.Ok? <==> sh.ListsOk(resolved)
    ensures r.Ok? ==> r.value.0.other == base.other && sh.ListsOk(r.value.0)
    ensures r.Ok? ==> BaseUpTo(sh.View(base), sh.View(r.value.0), sh.View(resolved), all, sh.Sections())
    ensures r.Ok? ==> RecordedUpTo(ov, r.value.1, sh.View(resolved), owned, sh.Sections())
  {
    var d, o := base, ov;
    var sections := sh.Sections();
    ghost var view := sh.View(resolved);
    for n := 0 to |sections|
      invariant d.other == base.other
      invariant ListsOkIn(sh, resolved, sections[..n]) && ListsOkIn(sh, d, sections[..n])
      invariant BaseUpTo(sh.View(base), sh.View(d), view, all, sections[..n])
      invariant RecordedUpTo(ov, o, view, owned, sections[..n])
    {
      var s := sections[n];
      assert sections[..n + 1] == sections[..n] + [s] && s !in sections[..n];
      ghost var before, file := sh.View(d), o;
      var items := ReadItems(sh, resolved, s);
      if items.Raised? {
        return Raised;
      }
      ViewOfSection(sh, resolved, s);
      d, o := SplitSection(sh, d, o, s, items.value, owned, all);
      BaseOneMore(sh.View(base), before, sh.View(d), view, all, sections[..n], s, items.value);
      RecordedOneMore(ov, file, o, view, owned, sections[..n], s, items.value);
    }
    assert sections[..|sections|] == sections;
    return Ok((d, o));
  }

  lemma BaseOneMore<V>(first: map<Key, V>, before: map<Key, V>, after: map<Key, V>, resolved: map<Key, V>,
                       all: Registry<V>, done: seq<string>, s: string, items: map<string, V>)
    requires BaseUpTo(first, before, resolved, all, done) && s !in done
    requires forall i :: i in items <==> Key(s, i) in resolved
    requires forall i :: i in items ==> resolved[Key(s, i)] == items[i]
    requires SectionReplaced(before, after, s, map i | i in items && Key(s, i) !in all :: items[i])
    ensures BaseUpTo(first, after, resolved, all, done + [s])
  {
    assert forall k: Key :: k.section == s ==> k == Key(s, k.id);
  }

  lemma RecordedOneMore<V>(first: Overrides<V>, before: Overrides<V>, after: Overrides<V>, resolved: map<Key, V>,
                           owned: Registry<V>, done: seq<string>, s: string, items: map<string, V>)
    requires RecordedUpTo(first, before, resolved, owned, done) && s !in done
    requires forall i :: i in items <==> Key(s, i) in resolved
    requires forall i :: i in items ==> resolved[Key(s, i)] == items[i]
    requires forall o, k :: OvVal(after, o, k) == NewVal(s, items, owned, owned.Keys, before, o, k)
    requires forall o, k :: OvDel(after, o, k) <==> NewDel(s, items, owned, owned.Keys, before, o, k)
    ensures RecordedUpTo(first, after, resolved, owned, done + [s])
  {
    assert forall k: Key :: k.section == s ==> k == Key(s, k.id);
  }

  lemma {:induction false} SourcesStayOk<V>(sh: Shape<V>, base: Document<V>, base': Document<V>, layers: seq<Layer<V>>)
    requires SourcesOk(sh, base, layers) && sh.ListsOk(base')
    requires sh.View(base').Keys !! Gather(sh, layers).Keys
    ensures SourcesOk(sh, base', layers)
    decreases |layers|
  {
    if layers != [] {
      SourcesStayOk(sh, base, base', layers[..|layers| - 1]);
    }
  }

  /** A resolved list item carries the id it is keyed by. */
  lemma ResolvedCarriesIds<V>(sh: Shape<V>, d: Document<V>, k: Key)
    requires sh.Valid() && sh.ListsOk(d) && k in sh.View(d) && k.section in sh.listSections
    ensures sh.idOf(sh.View(d)[k]) == Some(k.id)
  {
    sh.ListByIdIdentified(GetOr(d.lists, k.section, []));
  }

  lemma SaveAgrees<V>(sh: Shape<V>, reg: Registry<V>, on: set<string>, base: Document<V>, raw: Overrides<V>,
                      ov: Overrides<V>,
                      resolved: Document<V>, base': Document<V>, ov': Overrides<V>, final: Overrides<V>)
    requires sh.Valid() && sh.ListsOk(resolved)
    requires forall k :: k in reg ==> k.section in sh.Sections()
    requires sh.View(base).Keys !! reg.Keys
    requires forall o, k :: OvVal(ov, o, k) == AllowedVal(sh, reg, o, DataOf(raw, o), k)
    requires forall o, k :: OvDel(ov, o, k) <==> AllowedDel(reg, o, DataOf(raw, o), k)
    requires base'.other == base.other
    requires BaseUpTo(sh.View(base), sh.View(base'), sh.View(resolved), reg, sh.Sections())
    requires RecordedUpTo(ov, ov', sh.View(resolved), EnabledPart(reg, on), sh.Sections())
    requires forall o, k :: OvVal(final, o, k) == AllowedVal(sh, reg, o, DataOf(ov', o), k)
    requires forall o, k :: OvDel(final, o, k) <==> AllowedDel(reg, o, DataOf(ov', o), k)
    ensures StoreOf(sh, reg, base'.(other := base'.other + resolved.other), final) ==
              LayeredLens.Save(StoreOf(sh, reg, base, raw), reg, on, sh.View(resolved), resolved.other)
  {
    var st, r := StoreOf(sh, reg, base, raw), sh.View(resolved);
    var d := base'.(other := base'.other + resolved.other);
    ViewIgnoresOther(sh, base', d.other);
    forall k | k in reg
      ensures SavedEntry(st, StoreOf(sh, reg, d, final), reg, on, r, k)
    {
      if k in r && k.section in sh.listSections {
        ResolvedCarriesIds(sh, resolved, k);
      }
      SavedAt(sh, reg, on, r, base, d, raw, ov, ov', final, k);
    }
    SaveIs(st, reg, on, r, resolved.other, StoreOf(sh, reg, d, final));
  }

  lemma ViewIgnoresOther<V>(sh: Shape<V>, d: Document<V>, other: map<string, V>)
    ensures sh.View(d.(other := other)) == sh.View(d)
  {
    assert forall s :: sh.Items(d.(other := other), s) == sh.Items(d, s);
  }

  lemma SanitizedTwice<V>(sh: Shape<V>, reg: Registry<V>, raw: Overrides<V>, ov: Overrides<V>)
    requires Canonical(ov)
    requires forall o, k :: OvVal(ov, o, k) == AllowedVal(sh, reg, o, DataOf(raw, o), k)
    requires forall o, k :: OvDel(ov, o, k) <==> AllowedDel(reg, o, DataOf(raw, o), k)
    ensures Sanitized(sh, reg, ov)
  {
  }

  /** The entry of one owned key after saving `r`. */
  lemma SavedAt<V>(sh: Shape<V>, reg: Registry<V>, on: set<string>, r: map<Key, V>, base: Document<V>,
                   base': Document<V>,
                   raw: Overrides<V>, ov: Overrides<V>, ov': Overrides<V>, final: Overrides<V>, k: Key)
    requires k in reg && k.section in sh.Sections()
    requires k in r && k.section in sh.listSections ==> sh.idOf(r[k]) == Some(k.id)
    requires RecordedUpTo(ov, ov', r, EnabledPart(reg, on), sh.Sections())
    requires var o := reg[k].owner; OvVal(ov, o, k) == AllowedVal(sh, reg, o, DataOf(raw, o), k)
    requires var o := reg[k].owner; OvDel(ov, o, k) <==> AllowedDel(reg, o, DataOf(raw, o), k)
    requires var o := reg[k].owner; OvVal(final, o, k) == AllowedVal(sh, reg, o, DataOf(ov', o), k)
    requires var o := reg[k].owner; OvDel(final, o, k) <==> AllowedDel(reg, o, DataOf(ov', o), k)
    ensures SavedEntry(StoreOf(sh, reg, base, raw), StoreOf(sh, reg, base', final), reg, on, r, k)
  {
    var o := reg[k].owner;
    StoreAt(sh, reg, base, raw, k);
    StoreAt(sh, reg, base', final, k);
    assert k in EnabledPart(reg, on) <==> Enabled(reg, on, k);
    assert OvVal(ov', o, k) == OwnerVal(DataOf(ov', o), k);
    assert OvDel(ov', o, k) <==> OwnerDel(DataOf(ov', o), k);
  }

  /** What was saved decides the override file itself: with `LayeredLens.PutPut`, saving twice leaves the
      very file that the last save alone would leave. */
  lemma StoreDecidesFile<V>(sh: Shape<V>, reg: Registry<V>, base: Document<V>, a: Overrides<V>, b: Overrides<V>)
    requires Sanitized(sh, reg, a) && Sanitized(sh, reg, b)
    requires StoreOf(sh, reg, base, a) == StoreOf(sh, reg, base, b)
    ensures a == b
  {
    forall o, k
      ensures OvVal(a, o, k) == OvVal(b, o, k)
      ensures OvDel(a, o, k) <==> OvDel(b, o, k)
    {
      assert OvVal(a, o, k) == AllowedVal(sh, reg, o, DataOf(a, o), k);
      assert OvVal(b, o, k) == AllowedVal(sh, reg, o, DataOf(b, o), k);
      if k in reg && reg[k].owner == o {
        StoreAt(sh, reg, base, a, k);
        StoreAt(sh, reg, base, b, k);
      }
    }
    CanonicalIsUnique(a, b);
  }
}
