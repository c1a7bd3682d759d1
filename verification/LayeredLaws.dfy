/** The lens laws of the object itself: what its loops write to the two files, its loops read back. */
module LayeredLaws {
  import opened Outcomes
  import opened LayeredLens
  import opened LayeredConfig
  import opened LayeredJsonStore

  /** What is left of a view when the ids of disabled owners are taken away. */
  ghost function Visible<V>(shape: Shape<V>, layers: seq<Layer<V>>, enabled: set<string>,
                            view: map<Key, V>): map<Key, V> {
    view - DisabledKeys(Gather(shape, layers), enabled)
  }

  /** PutGet: whatever the files held, an edited document that saves is read back on every managed section, less the
      ids of disabled owners; and it saves exactly when the sources do not clash and its list items have ids. */
  method SaveThenLoad<V(==)>(shape: Shape<V>, base: Document<V>, layers: seq<Layer<V>>, overrides: Overrides<V>,
                             enabled: set<string>, edited: Document<V>) returns (r: Outcome<Document<V>>)
    requires shape.Valid()
    ensures r.Ok? <==> SourcesOk(shape, base, layers) && shape.ListsOk(edited)
    ensures r.Ok? ==> shape.View(r.value) == Visible(shape, layers, enabled, shape.View(edited))
    ensures r.Ok? ==> r.value.other == base.other + edited.other
  {
    var config := new LayeredJsonConfig(shape, base, layers, overrides, enabled);
    ghost var before := config.Stored();
    var saved := config.Save(edited);
    if saved.Raised? {
      return Raised;
    }
    PutGet(before, Gather(shape, layers), enabled, shape.View(edited), edited.other);
    ghost var after := config.Stored();
    r := config.Load();
    assert after.other == before.other + edited.other;
  }

  /** GetPut: loading and saving back unedited leaves what is loaded, and the base document's items, as they were. */
  method LoadThenSave<V(==)>(shape: Shape<V>, base: Document<V>, layers: seq<Layer<V>>, overrides: Overrides<V>,
                             enabled: set<string>) returns (r: Outcome<(Document<V>, Document<V>, Document<V>)>)
    requires shape.Valid()
    ensures r.Ok? <==> SourcesOk(shape, base, layers) && shape.ListsOk(base)
    ensures r.Ok? ==> var (first, again, baseFile) := r.value;
                      shape.View(again) == shape.View(first) && shape.View(baseFile) == shape.View(base)
  {
    var config := new LayeredJsonConfig(shape, base, layers, overrides, enabled);
    ghost var before := config.Stored();
    var first := config.Load();
    if first.Raised? {
      return Raised;
    }
    GatherAvoidsBase(shape, base, layers);
    GetPut(before, Gather(shape, layers), enabled);
    var saved := config.Save(first.value);
    if saved.Raised? {
      return Raised;
    }
    assert config.Stored().base == shape.View(base);
    var again := config.Load();
    r := Ok((first.value, again.value, config.baseFile));
  }

  /** PutPut: saving one document and then another leaves the override file, and the base items, that the other alone
      would have left. */
  method SaveTwice<V(==)>(shape: Shape<V>, base: Document<V>, layers: seq<Layer<V>>, overrides: Overrides<V>,
                          enabled: set<string>, first: Document<V>, second: Document<V>)
    returns (r: Outcome<((Document<V>, Overrides<V>), (Document<V>, Overrides<V>))>)
    requires shape.Valid()
    ensures r.Ok? <==> SourcesOk(shape, base, layers) && shape.ListsOk(first) && shape.ListsOk(second)
    ensures r.Ok? ==> var ((twiceBase, twiceFile), (onceBase, onceFile)) := r.value;
                      twiceFile == onceFile && shape.View(twiceBase) == shape.View(onceBase)
  {
    var twice := new LayeredJsonConfig(shape, base, layers, overrides, enabled);
    var once := new LayeredJsonConfig(shape, base, layers, overrides, enabled);
    ghost var before := twice.Stored();
    var a := twice.Save(first);
    if a.Raised? {
      return Raised;
    }
    var b := twice.Save(second);
    var c := once.Save(second);
    if b.Raised? || c.Raised? {
      return Raised;
    }
    ghost var reg := Gather(shape, layers);
    PutPut(before, reg, enabled, shape.View(first), first.other, shape.View(second), second.other);
    SameOwnedSameFile(shape, reg, twice.baseFile, once.baseFile, twice.overrideFile, once.overrideFile);
    r := Ok(((twice.baseFile, twice.overrideFile), (once.baseFile, once.overrideFile)));
  }

  lemma SameOwnedSameFile<V>(sh: Shape<V>, reg: Registry<V>, base: Document<V>, base': Document<V>, a: Overrides<V>,
                             b: Overrides<V>)
    requires Sanitized(sh, reg, a) && Sanitized(sh, reg, b)
    requires StoreOf(sh, reg, base, a).vals == StoreOf(sh, reg, base', b).vals
    requires StoreOf(sh, reg, base, a).dels == StoreOf(sh, reg, base', b).dels
    ensures a == b
  {
    assert StoreOf(sh, reg, base, b).vals == StoreOf(sh, reg, base', b).vals;
    StoreDecidesFile(sh, reg, base, a, b);
  }

  // ----- runs of the object -----

  /** A call on the object, or an owner switched on or off. */
  datatype Call<V> = SaveDocument(edited: Document<V>) | Switch(owner: string, enable: bool)

  /** The items of one owner in a view. */
  ghost function OwnItems<V>(reg: Registry<V>, owner: string, view: map<Key, V>): map<Key, V> {
    map k | k in view && k in reg && reg[k].owner == owner :: view[k]
  }

  /** One step of the lens, seen from an owner that stays disabled. */
  lemma StepIsolates<V>(c: Config<V>, reg: Registry<V>, step: Step<V>, owner: string)
    requires ConflictFree(c.st, reg) && owner !in c.on && step != Toggle(owner, true)
    ensures OwnerPart(Apply(c, reg, step), reg, owner) == OwnerPart(c, reg, owner)
  {
    DisabledOwnerIsIsolated(c, reg, [step], owner);
    assert Run(c, reg, [step]) == Run(Apply(c, reg, step), reg, [step][1..]);
  }

  /** Owner isolation of the object: whatever documents are saved, with success or not, and whichever other owners are
      switched, while an owner stays disabled its items are loaded after it is enabled again exactly as they were
      when it was disabled. */
  method DisabledOwnerKeepsItsItems<V(==)>(shape: Shape<V>, base: Document<V>, layers: seq<Layer<V>>,
                                           overrides: Overrides<V>,
                                           enabled: set<string>, calls: seq<Call<V>>, owner: string)
    returns (r: Outcome<(Document<V>, Document<V>)>)
    requires shape.Valid() && owner !in enabled
    requires forall c :: c in calls ==> c != Switch(owner, true)
    ensures r.Ok? <==> SourcesOk(shape, base, layers)
    ensures r.Ok? ==> OwnItems(Gather(shape, layers), owner, shape.View(r.value.0))
                      == OwnItems(Gather(shape, layers), owner, shape.View(r.value.1))
  {
    hide SourcesOk, Gather, StoreOf, OwnerPart, LayeredLens.Load, LayeredLens.Save, Sanitized;
    ghost var reg := Gather(shape, layers);
    var config := new LayeredJsonConfig(shape, base, layers, overrides, enabled);
    config.enabled := enabled + {owner};
    var first := config.Load();
    if first.Raised? {
      return Raised;
    }
    config.enabled := enabled;
    ghost var start := Config(config.Stored(), enabled);
    for i := 0 to |calls|
      invariant config.shape == shape && config.layers == layers && fresh(config)
      invariant config.Readable() && owner !in config.enabled
      invariant OwnerPart(Config(config.Stored(), config.enabled), reg, owner) == OwnerPart(start, reg, owner)
    {
      StoredIsConflictFree(shape, config.baseFile, layers, config.overrideFile);
      ghost var before := Config(config.Stored(), config.enabled);
      match calls[i] {
        case SaveDocument(edited) =>
          var saved := config.Save(edited);
          if saved.Ok? {
            StepIsolates(before, reg, Put(shape.View(edited), edited.other), owner);
          }
        case Switch(o, enable) =>
          assert calls[i] in calls;
          config.enabled := if enable then config.enabled + {o} else config.enabled - {o};
          StepIsolates(before, reg, Toggle(o, enable), owner);
      }
    }
    ghost var end := Config(config.Stored(), config.enabled);
    config.enabled := config.enabled + {owner};
    var last := config.Load();
    PartIsLoaded(start, reg, owner);
    PartIsLoaded(end, reg, owner);
    r := Ok((first.value, last.value));
  }

  lemma PartIsLoaded<V>(c: Config<V>, reg: Registry<V>, owner: string)
    ensures OwnerPart(c, reg, owner) == OwnItems(reg, owner, LayeredLens.Load(c.st, reg, c.on + {owner}))
  {
  }

  lemma StoredIsConflictFree<V>(shape: Shape<V>, base: Document<V>, layers: seq<Layer<V>>, ov: Overrides<V>)
    requires SourcesOk(shape, base, layers)
    ensures ConflictFree(StoreOf(shape, Gather(shape, layers), base, ov), Gather(shape, layers))
  {
    GatherAvoidsBase(shape, base, layers);
  }
}
