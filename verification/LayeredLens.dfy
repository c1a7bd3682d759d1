/**
 The meaning of a layered configuration, on flat maps from (section, id) to value.

 `Load` is the view that the base document, the extension layers and the owner-scoped overrides
 give together; `Save` splits an edited view back.  The lemmas are the laws of that pair as a lens,
 and what an owner may rely on while it is disabled.
 */
module LayeredLens {

  datatype Key = Key(section: string, id: string)

  /** One item an extension layer contributes, with its shipped default. */
  datatype Owned<V> = Owned(owner: string, value: V)

  /** Every item of every layer, enabled or not. */
  type Registry<V> = map<Key, Owned<V>>

  /** What is stored: base items, overriding values, tombstones, and the unmanaged top-level keys. */
  datatype Store<V> = Store(base: map<Key, V>, vals: map<Key, V>, dels: set<Key>, other: map<string, V>)

  predicate Enabled<V>(reg: Registry<V>, on: set<string>, k: Key) {
    k in reg && reg[k].owner in on
  }

  predicate Disabled<V>(reg: Registry<V>, on: set<string>, k: Key) {
    k in reg && reg[k].owner !in on
  }

  function DisabledKeys<V>(reg: Registry<V>, on: set<string>): set<Key> {
    set k | k in reg && Disabled(reg, on, k)
  }

  /** No base item carries an id that an extension owns. */
  ghost predicate ConflictFree<V>(st: Store<V>, reg: Registry<V>) {
    st.base.Keys !! reg.Keys
  }

  /** The resolved view of all managed sections. */
  function Load<V>(st: Store<V>, reg: Registry<V>, on: set<string>): map<Key, V> {
    map k | k in st.base.Keys + reg.Keys && (Enabled(reg, on, k) || k in st.base)
            && !(Enabled(reg, on, k) && k in st.dels) ::
      if !Enabled(reg, on, k) then st.base[k]
      else if k in st.vals then st.vals[k]
      else reg[k].value
  }

  /** `Load` is the only view with these items. */
  lemma LoadIs<V>(st: Store<V>, reg: Registry<V>, on: set<string>, view: map<Key, V>)
    requires forall k :: k in view <==> if Enabled(reg, on, k) then k !in st.dels else k in st.base
    requires forall k :: k in view ==>
               view[k] == if !Enabled(reg, on, k) then st.base[k] else if k in st.vals then st.vals[k] else reg[k].value
    ensures view == Load(st, reg, on)
  {
  }

  /** Store an edited view `r` and its unmanaged keys. */
  function Save<V(==)>(st: Store<V>, reg: Registry<V>, on: set<string>, r: map<Key, V>,
                       other: map<string, V>): Store<V> {
    Store(
      (map k | k in r && k !in reg :: r[k]),
      (map k | k in reg && (if Enabled(reg, on, k) then k in r && r[k] != reg[k].value else k in st.vals) ::
         if Enabled(reg, on, k) then r[k] else st.vals[k]),
      (set k | k in reg && (if Enabled(reg, on, k) then k !in r else k in st.dels)),
      st.other + other)
  }

  /** What the stored entry of an owned key must be after saving the view `r`. */
  ghost predicate SavedEntry<V>(st: Store<V>, saved: Store<V>, reg: Registry<V>, on: set<string>, r: map<Key, V>,
                                k: Key)
    requires k in reg
  {
    && (k in saved.vals <==> if Enabled(reg, on, k) then k in r && r[k] != reg[k].value else k in st.vals)
    && (k in saved.vals ==> saved.vals[k] == if Enabled(reg, on, k) then r[k] else st.vals[k])
    && (k in saved.dels <==> if Enabled(reg, on, k) then k !in r else k in st.dels)
  }

  /** `Save` gives the only store with these contents. */
  lemma SaveIs<V>(st: Store<V>, reg: Registry<V>, on: set<string>, r: map<Key, V>, other: map<string, V>,
                  saved: Store<V>)
    requires forall k :: k in saved.base <==> k in r && k !in reg
    requires forall k :: k in saved.base ==> saved.base[k] == r[k]
    requires saved.vals.Keys <= reg.Keys && saved.dels <= reg.Keys
    requires forall k :: k in reg ==> SavedEntry(st, saved, reg, on, r, k)
    requires saved.other == st.other + other
    ensures saved == Save(st, reg, on, r, other)
  {
  }

  /** PutGet: reading back what was saved gives the saved view, less what disabled owners own. */
  lemma PutGet<V>(st: Store<V>, reg: Registry<V>, on: set<string>, r: map<Key, V>, other: map<string, V>)
    ensures Load(Save(st, reg, on, r, other), reg, on) == r - DisabledKeys(reg, on)
  {
    var back := Load(Save(st, reg, on, r, other), reg, on);
    assert forall k :: k in back <==> k in r && !Disabled(reg, on, k);
  }

  /** So the view comes back whole exactly when it holds no id of a disabled owner. */
  lemma PutGetExactly<V>(st: Store<V>, reg: Registry<V>, on: set<string>, r: map<Key, V>, other: map<string, V>)
    ensures Load(Save(st, reg, on, r, other), reg, on) == r <==> r.Keys !! DisabledKeys(reg, on)
  {
    PutGet(st, reg, on, r, other);
    if r.Keys !! DisabledKeys(reg, on) {
      assert r - DisabledKeys(reg, on) == r;
    } else {
      var k :| k in r && k in DisabledKeys(reg, on);
      assert k !in r - DisabledKeys(reg, on);
    }
  }

  /** One item of a disabled owner, put into a view, is dropped. */
  lemma DisabledItemIsDropped<V>(shipped: V, edited: V, k: Key, owner: string)
    ensures var st, reg := Store(map[], map[], {}, map[]), map[k := Owned(owner, shipped)];
            Load(Save(st, reg, {}, map[k := edited], map[]), reg, {}) == map[] != map[k := edited]
  {
    var reg, r := map[k := Owned(owner, shipped)], map[k := edited];
    PutGet(Store(map[], map[], {}, map[]), reg, {}, r, map[]);
    assert DisabledKeys(reg, {}) == {k};
    assert k in r && r - {k} == map[];
  }

  /** GetPut: saving an unedited view changes nothing that `Load` shows. */
  lemma GetPut<V>(st: Store<V>, reg: Registry<V>, on: set<string>)
    requires ConflictFree(st, reg)
    ensures Load(Save(st, reg, on, Load(st, reg, on), st.other), reg, on) == Load(st, reg, on)
    ensures Save(st, reg, on, Load(st, reg, on), st.other).base == st.base
    ensures Save(st, reg, on, Load(st, reg, on), st.other).other == st.other
  {
    var r := Load(st, reg, on);
    PutGet(st, reg, on, r, st.other);
    assert r - DisabledKeys(reg, on) == r;
    assert forall k :: k in st.base ==> k in r && k !in reg;
  }

  /** PutPut: a second save leaves no trace of the first, except unmanaged keys, which only add up. */
  lemma PutPut<V>(st: Store<V>, reg: Registry<V>, on: set<string>,
                  r1: map<Key, V>, other1: map<string, V>, r2: map<Key, V>, other2: map<string, V>)
    ensures var twice := Save(Save(st, reg, on, r1, other1), reg, on, r2, other2);
            var once := Save(st, reg, on, r2, other2);
            twice == once.(other := st.other + other1 + other2)
  {
    var first := Save(st, reg, on, r1, other1);
    forall k | Disabled(reg, on, k)
      ensures k in first.vals <==> k in st.vals
      ensures k in st.vals ==> first.vals[k] == st.vals[k]
      ensures k in first.dels <==> k in st.dels
    {
    }
  }

  // ----- runs: saves interleaved with owners being switched on and off -----

  datatype Step<V> = Put(view: map<Key, V>, other: map<string, V>) | Toggle(owner: string, enable: bool)

  datatype Config<V> = Config(st: Store<V>, on: set<string>)

  function Apply<V(==)>(c: Config<V>, reg: Registry<V>, step: Step<V>): Config<V> {
    match step
    case Put(view, other) => c.(st := Save(c.st, reg, c.on, view, other))
    case Toggle(owner, enable) => c.(on := if enable then c.on + {owner} else c.on - {owner})
  }

  function Run<V(==)>(c: Config<V>, reg: Registry<V>, steps: seq<Step<V>>): Config<V>
    decreases |steps|
  {
    if steps == [] then c else Run(Apply(c, reg, steps[0]), reg, steps[1..])
  }

  /** The items of one owner as `Load` shows them once that owner is enabled. */
  function OwnerPart<V>(c: Config<V>, reg: Registry<V>, owner: string): map<Key, V> {
    var view := Load(c.st, reg, c.on + {owner});
    map k | k in view && k in reg && reg[k].owner == owner :: view[k]
  }

  /** No run of saves and toggles ever makes the sources clash. */
  lemma {:induction false} RunKeepsConflictFree<V>(c: Config<V>, reg: Registry<V>, steps: seq<Step<V>>)
    requires ConflictFree(c.st, reg)
    ensures ConflictFree(Run(c, reg, steps).st, reg)
    decreases |steps|
  {
    if steps != [] {
      RunKeepsConflictFree(Apply(c, reg, steps[0]), reg, steps[1..]);
    }
  }

  /** Owner isolation: as long as an owner stays disabled, no sequence of saves, whatever the views
      contain, and no toggling of other owners changes the part it shows once it is enabled again. */
  lemma {:induction false} DisabledOwnerIsIsolated<V>(c: Config<V>, reg: Registry<V>, steps: seq<Step<V>>,
                                                      owner: string)
    requires ConflictFree(c.st, reg)
    requires owner !in c.on
    requires forall i :: 0 <= i < |steps| ==> steps[i] != Toggle(owner, true)
    ensures owner !in Run(c, reg, steps).on
    ensures OwnerPart(Run(c, reg, steps), reg, owner) == OwnerPart(c, reg, owner)
    decreases |steps|
  {
    if steps != [] {
      var next := Apply(c, reg, steps[0]);
      assert owner !in next.on;
      assert OwnerPart(next, reg, owner) == OwnerPart(c, reg, owner) by {
        forall k | k in reg && reg[k].owner == owner
          ensures k in next.st.vals <==> k in c.st.vals
          ensures k in c.st.vals ==> next.st.vals[k] == c.st.vals[k]
          ensures k in next.st.dels <==> k in c.st.dels
        {
        }
      }
      DisabledOwnerIsIsolated(next, reg, steps[1..], owner);
    }
  }
}
