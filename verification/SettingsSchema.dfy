/** Plugin settings schemas: validating, completing and sparsely checking a settings document. */
module SettingsSchema {
  import opened Json
  import opened Outcomes

  datatype Kind = StringKind | BooleanKind | IntegerKind | NumberKind | ArrayKind

  datatype Format = Plain | Password | Uri | Multiline

  /** A `minimum` or `maximum`.  One written as null is accepted in a schema, but then fails every value. */
  datatype Bound = Unbounded | NullBound | BoundAt(limit: real)

  datatype Schema =
    | Leaf(kind: Kind, format: Format, minimum: Bound, maximum: Bound, choices: Option<seq<Value>>,
           default: Option<Value>)
    | ObjectOf(properties: map<string, Schema>, required: set<string>, choices: Option<seq<Value>>,
               default: Option<Value>)

  // ----- single values -----

  predicate HasKind(kind: Kind, v: Value) {
    match kind
    case StringKind => v.Text?
    case BooleanKind => v.Bool?
    case IntegerKind => v.Whole?
    case NumberKind => v.Whole? || v.Float?
    case ArrayKind => v.List? && forall x :: x in v.items ==> x.Text?
  }

  predicate SchemeChar(c: char) {
    'a' <= c <= 'z' || 'A' <= c <= 'Z' || '0' <= c <= '9' || c == '+' || c == '-' || c == '.'
  }

  /** Some letter-initial run of scheme characters ends in a colon. */
  predicate HasScheme(s: string) {
    exists i :: 0 < i < |s| && s[i] == ':' && ('a' <= s[0] <= 'z' || 'A' <= s[0] <= 'Z')
                && forall j :: 0 <= j < i ==> SchemeChar(s[j])
  }

  predicate AtLeast(v: Value, b: Bound) {
    b.Unbounded? || (b.BoundAt? && Number(v).Some? && b.limit <= Number(v).value)
  }

  predicate AtMost(v: Value, b: Bound) {
    b.Unbounded? || (b.BoundAt? && Number(v).Some? && Number(v).value <= b.limit)
  }

  predicate IsChoice(v: Value, choices: Option<seq<Value>>) {
    choices.Some? ==> exists c :: c in choices.value && Same(v, c)
  }

  predicate Fits(s: Schema, v: Value)
    requires s.Leaf?
  {
    && HasKind(s.kind, v)
    && (s.kind == StringKind && s.format == Uri ==> HasScheme(v.text))
    && IsChoice(v, s.choices)
    && AtLeast(v, s.minimum)
    && AtMost(v, s.maximum)
  }

  // ----- `_normalize` -----

  /** What a property of an object becomes: its value, its default's, nothing, or an error when it is required. */
  function Property(s: Schema, entries: map<string, Value>, k: string): Outcome<Option<Value>>
    requires s.ObjectOf? && k in s.properties
    decreases s, 0
  {
    if k in entries then
      var w :- Normalize(s.properties[k], entries[k]);
      Ok(Some(w))
    else match s.properties[k].default
      case Some(d) =>
        var w :- Normalize(s.properties[k], d);
        Ok(Some(w))
      case None => if k in s.required then Raised else Ok(None)
  }

  function Normalize(s: Schema, v: Value): Outcome<Value>
    decreases s, 1
  {
    if s.Leaf? then (if Fits(s, v) then Ok(v) else Raised)
    else if !v.Object? || !(v.entries.Keys <= s.properties.Keys) then Raised
    else if exists k :: k in s.properties && Property(s, v.entries, k).Raised? then Raised
    else Ok(Object(map k | k in s.properties && Property(s, v.entries, k).value.Some?
                          :: Property(s, v.entries, k).value.value))
  }

  /** The loop over the properties that computes it. */
  method NormalizeValue(s: Schema, v: Value) returns (r: Outcome<Value>)
    ensures r == Normalize(s, v)
    decreases s
  {
    if s.Leaf? {
      return if Fits(s, v) then Ok(v) else Raised;
    }
    if !v.Object? || !(v.entries.Keys <= s.properties.Keys) {
      return Raised;
    }
    var result: map<string, Value> := map[];
    var rest := s.properties.Keys;
    while rest != {}
      invariant rest <= s.properties.Keys
      invariant forall k :: k in s.properties.Keys - rest ==> Property(s, v.entries, k).Ok?
      invariant forall k :: k in result <==> k in s.properties.Keys - rest && Property(s, v.entries, k).value.Some?
      invariant forall k :: k in result ==> result[k] == Property(s, v.entries, k).value.value
    {
      var k :| k in rest;
      var child := s.properties[k];
      if k in v.entries || child.default.Some? {
        var entry := NormalizeValue(child, if k in v.entries then v.entries[k] else child.default.value);
        if entry.Raised? {
          return Raised;
        }
        result := result[k := entry.value];
      } else if k in s.required {
        return Raised;
      }
      rest := rest - {k};
    }
    r := Ok(Object(result));
    assert result == map k | k in s.properties && Property(s, v.entries, k).value.Some?
                          :: Property(s, v.entries, k).value.value;
  }

  // ----- `_validate_schema` -----

  predicate ValidBounds(s: Schema)
    requires s.Leaf?
  {
    && (s.minimum.BoundAt? || s.maximum.BoundAt? ==> s.kind == IntegerKind || s.kind == NumberKind)
    && (s.minimum.BoundAt? && s.maximum.BoundAt? ==> s.minimum.limit <= s.maximum.limit)
  }

  function WithoutDefault(s: Schema): Schema {
    match s
    case Leaf(kind, format, minimum, maximum, choices, _) => Leaf(kind, format, minimum, maximum, choices, None)
    case ObjectOf(properties, required, choices, _) => ObjectOf(properties, required, choices, None)
  }

  /** A schema without its default and its enum. */
  function Bare(s: Schema): Schema {
    match s
    case Leaf(kind, format, minimum, maximum, _, _) => Leaf(kind, format, minimum, maximum, None, None)
    case ObjectOf(properties, required, _, _) => ObjectOf(properties, required, None, None)
  }

  predicate ValidChoices(s: Schema) {
    s.choices.Some? ==>
      && s.choices.value != []
      && forall c :: c in s.choices.value ==> Normalize(Bare(s), c).Ok?
  }

  predicate ValidSchema(s: Schema)
    decreases s
  {
    && (if s.Leaf? then ValidBounds(s)
        else s.required <= s.properties.Keys && forall k :: k in s.properties ==> ValidSchema(s.properties[k]))
    && ValidChoices(s)
    && (s.default.Some? ==> Normalize(s, s.default.value).Ok?)
  }

  // ----- which documents a schema accepts -----

  /** A document is acceptable when it only holds declared properties of the declared kinds, and every required
      property of every object in it is there or has a default. */
  ghost predicate Accepts(s: Schema, v: Value)
    decreases s
  {
    if s.Leaf? then Fits(s, v)
    else
      && v.Object?
      && (forall k :: k in v.entries ==> k in s.properties && Accepts(s.properties[k], v.entries[k]))
      && (forall k :: k in s.required && k !in v.entries ==> k in s.properties && s.properties[k].default.Some?)
  }

  /** For a valid schema, completing a document fails exactly when the document is not acceptable: a default never
      makes it fail. */
  lemma {:induction false} NormalizeAccepts(s: Schema, v: Value)
    requires ValidSchema(s)
    ensures Normalize(s, v).Ok? <==> Accepts(s, v)
    decreases s
  {
    if s.ObjectOf? && v.Object? && v.entries.Keys <= s.properties.Keys {
      forall k | k in s.properties
        ensures k in v.entries ==> (Property(s, v.entries, k).Ok? <==> Accepts(s.properties[k], v.entries[k]))
        ensures k !in v.entries ==> (Property(s, v.entries, k).Ok?
                                     <==> k !in s.required || s.properties[k].default.Some?)
      {
        assert ValidSchema(s.properties[k]);
        if k in v.entries {
          NormalizeAccepts(s.properties[k], v.entries[k]);
        }
      }
    }
  }

  /** Completing a completed document changes nothing. */
  lemma {:induction false} NormalizeTwice(s: Schema, v: Value)
    requires Normalize(s, v).Ok?
    ensures Normalize(s, Normalize(s, v).value) == Normalize(s, v)
    decreases s
  {
    if s.ObjectOf? {
      var w := Normalize(s, v).value;
      forall k | k in s.properties
        ensures Property(s, w.entries, k) == Property(s, v.entries, k)
      {
        if k in v.entries {
          NormalizeTwice(s.properties[k], v.entries[k]);
        } else if s.properties[k].default.Some? {
          NormalizeTwice(s.properties[k], s.properties[k].default.value);
        }
      }
      assert Normalize(s, w).Ok?;
      assert Normalize(s, w).value.entries == w.entries;
    }
  }

  /** w holds every leaf of v where v has it. */
  ghost predicate Extends(v: Value, w: Value)
    decreases v
  {
    v == w ||
    (v.Object? && w.Object? && forall k :: k in v.entries ==> k in w.entries && Extends(v.entries[k], w.entries[k]))
  }

  /** Completing never changes or drops a value that was supplied. */
  lemma {:induction false} NormalizeExtends(s: Schema, v: Value)
    requires Normalize(s, v).Ok?
    ensures Extends(v, Normalize(s, v).value)
    decreases s
  {
    if s.ObjectOf? {
      forall k | k in v.entries
        ensures k in Normalize(s, v).value.entries
        ensures Extends(v.entries[k], Normalize(s, v).value.entries[k])
      {
        assert Property(s, v.entries, k).Ok?;
        NormalizeExtends(s.properties[k], v.entries[k]);
      }
    }
  }

  // ----- `_sparse_schema` -----

  function Sparse(s: Schema): Schema
    decreases s
  {
    if s.Leaf? then Leaf(s.kind, s.format, s.minimum, s.maximum, s.choices, None)
    else ObjectOf(map k | k in s.properties :: Sparse(s.properties[k]), {}, s.choices, None)
  }

  /** Every required property of every object that is there is there itself, or has a default. */
  ghost predicate Complete(s: Schema, v: Value)
    decreases s
  {
    s.ObjectOf? && v.Object? ==>
      && (forall k :: k in s.required && k !in v.entries ==> k in s.properties && s.properties[k].default.Some?)
      && (forall k :: k in v.entries && k in s.properties ==> Complete(s.properties[k], v.entries[k]))
  }

  /** Sparse validation gives back the very document it accepts: no default is added to it. */
  lemma {:induction false} SparseIsExact(s: Schema, v: Value)
    ensures Normalize(Sparse(s), v).Ok? ==> Normalize(Sparse(s), v).value == v
    decreases s
  {
    if s.ObjectOf? && Normalize(Sparse(s), v).Ok? {
      forall k | k in s.properties
        ensures Property(Sparse(s), v.entries, k) == Ok(if k in v.entries then Some(v.entries[k]) else None)
      {
        assert Property(Sparse(s), v.entries, k).Ok?;
        if k in v.entries {
          SparseIsExact(s.properties[k], v.entries[k]);
        }
      }
      assert Normalize(Sparse(s), v).value.entries == v.entries;
    }
  }

  /** A document passes in full exactly when it passes sparsely and lacks nothing that is required. */
  lemma {:induction false} FullIsSparseAndComplete(s: Schema, v: Value)
    requires ValidSchema(s)
    ensures Normalize(s, v).Ok? <==> Normalize(Sparse(s), v).Ok? && Complete(s, v)
    decreases s
  {
    NormalizeAccepts(s, v);
    SparseAccepts(s, v);
  }

  lemma {:induction false} SparseAccepts(s: Schema, v: Value)
    ensures Accepts(s, v) <==> Normalize(Sparse(s), v).Ok? && Complete(s, v)
    decreases s
  {
    if s.ObjectOf? && v.Object? && v.entries.Keys <= s.properties.Keys {
      assert Sparse(s).properties.Keys == s.properties.Keys;
      forall k | k in s.properties
        ensures k in v.entries ==>
                (Accepts(s.properties[k], v.entries[k])
                 <==> Property(Sparse(s), v.entries, k).Ok? && Complete(s.properties[k], v.entries[k]))
        ensures k !in v.entries ==> Property(Sparse(s), v.entries, k).Ok?
      {
        if k in v.entries {
          SparseAccepts(s.properties[k], v.entries[k]);
        }
      }
    }
  }

  // ----- `resolve_applied_plugin_settings` -----

  /** The schema at start: properties that the process environment provides need no default and no value. */
  function AtStart(s: Schema, provided: set<string>, v: map<string, Value>): Schema {
    if s.Leaf? then s else
      ObjectOf(map k | k in s.properties
                       :: if k !in v && k in provided then WithoutDefault(s.properties[k]) else s.properties[k],
               (set k | k in s.required && !(k !in v && k in provided && k in s.properties)),
               s.choices, s.default)
  }

  function Resolve(s: Schema, provided: set<string>, v: map<string, Value>): Outcome<Value> {
    if ValidSchema(AtStart(s, provided, v)) then Normalize(AtStart(s, provided, v), Object(v)) else Raised
  }

  lemma AcceptsWithoutDefault(s: Schema, v: Value)
    ensures Accepts(WithoutDefault(s), v) <==> Accepts(s, v)
  {
  }

  lemma StartAccepts(s: Schema, provided: set<string>, v: map<string, Value>, w: Value)
    requires s.ObjectOf? && s.required <= s.properties.Keys
    ensures Accepts(AtStart(s, provided, v), w) <==>
            && w.Object?
            && (forall k :: k in w.entries ==> k in s.properties && Accepts(s.properties[k], w.entries[k]))
            && (forall k :: k in s.required && k !in w.entries ==>
                  (k !in v && k in provided) || s.properties[k].default.Some?)
  {
    var t := AtStart(s, provided, v);
    if w.Object? {
      forall k | k in w.entries && k in s.properties
        ensures Accepts(t.properties[k], w.entries[k]) <==> Accepts(s.properties[k], w.entries[k])
      {
        AcceptsWithoutDefault(s.properties[k], w.entries[k]);
      }
    }
  }

  lemma DefaultIsForParents(s: Schema)
    requires ValidSchema(s)
    ensures ValidSchema(WithoutDefault(s))
  {
    assert Bare(WithoutDefault(s)) == Bare(s);
  }

  lemma StartPropertiesAreValid(s: Schema, provided: set<string>, v: map<string, Value>)
    requires ValidSchema(s) && s.ObjectOf?
    ensures var t := AtStart(s, provided, v);
            t.required <= t.properties.Keys && forall k :: k in t.properties ==> ValidSchema(t.properties[k])
  {
    forall k | k in s.properties
      ensures ValidSchema(WithoutDefault(s.properties[k]))
    {
      DefaultIsForParents(s.properties[k]);
    }
  }

  lemma BareNormalizes(s: Schema, v: Value)
    requires s.ObjectOf?
    ensures Normalize(s, v) == Normalize(Bare(s), v)
  {
    if v.Object? {
      forall k | k in s.properties
        ensures Property(s, v.entries, k) == Property(Bare(s), v.entries, k)
      {
      }
      if Normalize(s, v).Ok? {
        assert Normalize(s, v).value.entries == Normalize(Bare(s), v).value.entries;
      }
    }
  }

  lemma StartKeepsOk(s: Schema, provided: set<string>, v: map<string, Value>, w: Value)
    requires ValidSchema(s) && s.ObjectOf? && Normalize(Bare(s), w).Ok?
    ensures Normalize(Bare(AtStart(s, provided, v)), w).Ok?
  {
    hide Normalize;
    StartPropertiesAreValid(s, provided, v);
    NormalizeAccepts(Bare(s), w);
    StartAccepts(Bare(s), provided, v, w);
    assert Bare(AtStart(s, provided, v)) == AtStart(Bare(s), provided, v);
    NormalizeAccepts(Bare(AtStart(s, provided, v)), w);
  }

  /** Taking defaults away for what the environment provides keeps a valid schema valid. */
  lemma StartSchemaIsValid(s: Schema, provided: set<string>, v: map<string, Value>)
    requires ValidSchema(s)
    ensures ValidSchema(AtStart(s, provided, v))
  {
    hide Normalize;
    if s.ObjectOf? {
      StartPropertiesAreValid(s, provided, v);
      var t := AtStart(s, provided, v);
      if s.choices.Some? {
        forall c | c in s.choices.value
          ensures Normalize(Bare(t), c).Ok?
        {
          StartKeepsOk(s, provided, v, c);
        }
      }
      if s.default.Some? {
        BareNormalizes(s, s.default.value);
        StartKeepsOk(s, provided, v, s.default.value);
        BareNormalizes(t, s.default.value);
      }
    }
  }

  lemma RequiredIsDeclared(s: Schema)
    requires ValidSchema(s) && s.ObjectOf?
    ensures s.required <= s.properties.Keys
  {
  }

  /** At start, saved settings are accepted exactly when they pass sparsely and every required property is saved,
      provided by the environment or defaulted (and nested objects are complete). */
  lemma ResolveAccepts(s: Schema, provided: set<string>, v: map<string, Value>)
    requires ValidSchema(s) && s.ObjectOf?
    ensures Resolve(s, provided, v).Ok? <==>
            && Normalize(Sparse(s), Object(v)).Ok?
            && (forall k :: k in v && k in s.properties ==> Complete(s.properties[k], v[k]))
            && (forall k :: k in s.required ==> k in v || k in provided || s.properties[k].default.Some?)
  {
    hide ValidSchema, Normalize;
    StartSchemaIsValid(s, provided, v);
    NormalizeAccepts(AtStart(s, provided, v), Object(v));
    assert s.required <= s.properties.Keys by { RequiredIsDeclared(s); }
    StartAccepts(s, provided, v, Object(v));
    var loose := ObjectOf(s.properties, {}, s.choices, None);
    SparseAccepts(loose, Object(v));
    assert Sparse(loose) == Sparse(s);
  }

  /** At start, the saved value wins over the environment and the environment wins over the default. */
  lemma ResolvedKeys(s: Schema, provided: set<string>, v: map<string, Value>, k: string)
    requires s.ObjectOf? && Resolve(s, provided, v).Ok? && k in s.properties
    ensures var w := Resolve(s, provided, v).value;
            && w.Object?
            && (k in w.entries <==> k in v || (k !in provided && s.properties[k].default.Some?))
            && (k in v ==> Extends(v[k], w.entries[k]))
  {
    var t := AtStart(s, provided, v);
    NormalizeExtends(t, Object(v));
    assert Property(t, v, k).Ok?;
  }
}
