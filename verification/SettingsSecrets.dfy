/** Plugin settings on their way to an editor and back: passwords are blanked, and blanks mean "keep". */
module SettingsSecrets {
  import opened Json
  import opened Outcomes
  import opened SettingsSchema

  type Path = seq<string>

  predicate IsPassword(s: Schema) {
    s.Leaf? && s.kind == StringKind && s.format == Password
  }

  /** The view of one supplied property. */
  function RedactEntry(s: Schema, v: Value, sensitive: set<Path>, at: Path): Value
    decreases s, 1
  {
    if at in sensitive || IsPassword(s) then Text("")
    else if s.ObjectOf? then Redact(s, v, sensitive, at)
    else v
  }

  function Redact(s: Schema, v: Value, sensitive: set<Path>, at: Path): Value
    decreases s, 0
  {
    if s.Leaf? || !v.Object? then Object(map[])
    else Object(map k | k in s.properties && k in v.entries
                      :: RedactEntry(s.properties[k], v.entries[k], sensitive, at + [k]))
  }

  function PreserveEntry(s: Schema, v: Value, existing: Option<Value>): Value
    decreases s, 1
  {
    if IsPassword(s) && v == Text("") && existing.Some? then existing.value
    else if s.ObjectOf? then Preserve(s, v, GetOption(existing, Null))
    else v
  }

  function GetOption<T>(o: Option<T>, default: T): T {
    match o case Some(x) => x case None => default
  }

  function Lookup<T>(m: map<string, T>, k: string): Option<T> {
    if k in m then Some(m[k]) else None
  }

  function Entries(v: Value): map<string, Value> {
    if v.Object? then v.entries else map[]
  }

  function Preserve(s: Schema, v: Value, existing: Value): Value
    decreases s, 0
  {
    if s.Leaf? || !v.Object? then v
    else Object(map k | k in v.entries
                      :: if k in s.properties
                         then PreserveEntry(s.properties[k], v.entries[k], Lookup(Entries(existing), k))
                         else v.entries[k])
  }

  method RedactSettings(s: Schema, v: Value, sensitive: set<Path>, at: Path) returns (r: Value)
    ensures r == Redact(s, v, sensitive, at)
    decreases s
  {
    if s.Leaf? || !v.Object? {
      return Object(map[]);
    }
    var result: map<string, Value> := map[];
    var rest := s.properties.Keys;
    while rest != {}
      invariant rest <= s.properties.Keys
      invariant forall k :: k in result <==> k in s.properties.Keys - rest && k in v.entries
      invariant forall k :: k in result ==> result[k] == RedactEntry(s.properties[k], v.entries[k], sensitive, at + [k])
    {
      var k :| k in rest;
      rest := rest - {k};
      if k in v.entries {
        var child := s.properties[k];
        if at + [k] in sensitive || IsPassword(child) {
          result := result[k := Text("")];
        } else if child.ObjectOf? {
          var inner := RedactSettings(child, v.entries[k], sensitive, at + [k]);
          result := result[k := inner];
        } else {
          result := result[k := v.entries[k]];
        }
      }
    }
    r := Object(result);
    assert result == Redact(s, v, sensitive, at).entries;
  }

  method PreservePasswords(s: Schema, v: Value, existing: Value) returns (r: Value)
    ensures r == Preserve(s, v, existing)
    decreases s
  {
    if s.Leaf? || !v.Object? {
      return v;
    }
    var stored := if existing.Object? then existing.entries else map[];
    var result := v.entries;
    var rest := s.properties.Keys;
    while rest != {}
      invariant rest <= s.properties.Keys
      invariant result.Keys == v.entries.Keys
      invariant forall k :: k in result ==>
                  result[k] == if k in s.properties.Keys - rest
                               then PreserveEntry(s.properties[k], v.entries[k], Lookup(stored, k)) else v.entries[k]
    {
      var k :| k in rest;
      rest := rest - {k};
      if k in result {
        var child := s.properties[k];
        if IsPassword(child) && result[k] == Text("") && k in stored {
          result := result[k := stored[k]];
        } else if child.ObjectOf? {
          var inner := PreservePasswords(child, result[k], if k in stored then stored[k] else Null);
          result := result[k := inner];
        }
      }
    }
    r := Object(result);
    assert result == Preserve(s, v, existing).entries;
  }

  // ----- which paths are passwords -----

  function PasswordTails(s: Schema): set<Path>
    decreases s, 1
  {
    if IsPassword(s) then {[]} else PasswordPaths(s)
  }

  /** `_schema_password_paths`, relative to the schema. */
  function PasswordPaths(s: Schema): set<Path>
    decreases s, 0
  {
    if s.Leaf? then {} else set k, q | k in s.properties && q in PasswordTails(s.properties[k]) :: [k] + q
  }

  lemma PasswordPathsAt(s: Schema, k: string, q: Path)
    requires s.ObjectOf?
    ensures [k] + q in PasswordPaths(s) <==> k in s.properties && q in PasswordTails(s.properties[k])
  {
    if [k] + q in PasswordPaths(s) {
      var k', q' :| k' in s.properties && q' in PasswordTails(s.properties[k']) && [k'] + q' == [k] + q;
      assert ([k'] + q')[0] == k' && ([k'] + q')[1..] == q' && ([k] + q)[1..] == q;
    }
  }

  // ----- the round trip -----

  /** A document that only holds declared properties, with objects where objects are declared. */
  ghost predicate Declared(s: Schema, v: Value)
    decreases s
  {
    if s.Leaf? then !v.Object?
    else v.Object? && forall k :: k in v.entries ==> k in s.properties && Declared(s.properties[k], v.entries[k])
  }

  /** A document whose blanked values are all current passwords, or already blank. */
  ghost predicate Recoverable(s: Schema, v: Value, sensitive: set<Path>, at: Path)
    decreases s
  {
    v.Object? && forall k :: k in v.entries ==>
      && s.ObjectOf? && k in s.properties
      && var child := s.properties[k];
         if IsPassword(child) then true
         else if at + [k] in sensitive then v.entries[k] == Text("")
         else child.ObjectOf? ==> Recoverable(child, v.entries[k], sensitive, at + [k])
  }

  /** Restoring a redacted document against itself gives it back exactly when it is recoverable. */
  lemma {:induction false} RoundTrip(s: Schema, v: Value, sensitive: set<Path>, at: Path)
    ensures Preserve(s, Redact(s, v, sensitive, at), v) == v <==> Recoverable(s, v, sensitive, at)
    decreases s
  {
    if s.ObjectOf? && v.Object? && v.entries.Keys <= s.properties.Keys {
      var back := Preserve(s, Redact(s, v, sensitive, at), v);
      forall k | k in v.entries
        ensures k in back.entries
        ensures back.entries[k] == v.entries[k] <==>
                var child := s.properties[k];
                if IsPassword(child) then true
                else if at + [k] in sensitive then v.entries[k] == Text("")
                else child.ObjectOf? ==> Recoverable(child, v.entries[k], sensitive, at + [k])
      {
        var child := s.properties[k];
        RoundTrip(child, v.entries[k], sensitive, at + [k]);
        assert back.entries[k] == PreserveEntry(child, RedactEntry(child, v.entries[k], sensitive, at + [k]),
                                                Some(v.entries[k]));
        assert Preserve(child, Text(""), v.entries[k]) == Text("");
      }
      assert back.entries.Keys == v.entries.Keys;
      assert back == v <==> forall k :: k in v.entries ==> back.entries[k] == v.entries[k];
    }
  }

  /** When only current passwords are sensitive, every declared document is recoverable. */
  lemma {:induction false} PasswordsAreRecoverable(s: Schema, v: Value, sensitive: set<Path>, at: Path)
    requires s.ObjectOf? && Declared(s, v)
    requires forall q :: at + q in sensitive ==> q in PasswordPaths(s)
    ensures Recoverable(s, v, sensitive, at)
    decreases s
  {
    forall k | k in v.entries && !IsPassword(s.properties[k])
      ensures at + [k] !in sensitive
      ensures s.properties[k].ObjectOf? ==> Recoverable(s.properties[k], v.entries[k], sensitive, at + [k])
    {
      var child := s.properties[k];
      forall q | at + [k] + q in sensitive
        ensures q in PasswordPaths(child)
      {
        assert at + ([k] + q) == at + [k] + q;
        PasswordPathsAt(s, k, q);
      }
      if at + [k] in sensitive {
        assert at + [k] + [] == at + [k];
        assert [] in PasswordPaths(child);
        NoEmptyPasswordPath(child);
      }
      if child.ObjectOf? {
        PasswordsAreRecoverable(child, v.entries[k], sensitive, at + [k]);
      }
    }
  }

  lemma NoEmptyPasswordPath(s: Schema)
    ensures [] !in PasswordPaths(s)
  {
  }

  lemma {:induction false} SparseIsDeclared(s: Schema, v: Value)
    requires Normalize(Sparse(s), v).Ok?
    ensures Declared(s, v)
    decreases s
  {
    if s.ObjectOf? {
      forall k | k in v.entries
        ensures k in s.properties && Declared(s.properties[k], v.entries[k])
      {
        assert Property(Sparse(s), v.entries, k).Ok?;
        SparseIsDeclared(s.properties[k], v.entries[k]);
      }
    }
  }

  // ----- what a redacted document tells -----

  /** Two documents that differ at most at or below the given paths. */
  ghost predicate EqualOutside(v: Value, w: Value, secret: set<Path>, at: Path)
    decreases v
  {
    || v == w
    || at in secret
    || (v.Object? && w.Object? && v.entries.Keys == w.entries.Keys
        && forall k :: k in v.entries ==> EqualOutside(v.entries[k], w.entries[k], secret, at + [k]))
  }

  /** Redaction shows two declared documents alike exactly when they differ at most at sensitive paths and passwords. */
  lemma {:induction false} RedactHidesSecretsOnly(s: Schema, v: Value, w: Value, sensitive: set<Path>,
                                                  secret: set<Path>, at: Path)
    requires s.ObjectOf? && Declared(s, v) && Declared(s, w) && at !in secret
    requires forall q :: at + q in secret <==> at + q in sensitive || q in PasswordPaths(s)
    ensures Redact(s, v, sensitive, at) == Redact(s, w, sensitive, at) <==> EqualOutside(v, w, secret, at)
    decreases s
  {
    if v.entries.Keys == w.entries.Keys {
      forall k | k in v.entries
        ensures RedactEntry(s.properties[k], v.entries[k], sensitive, at + [k])
             == RedactEntry(s.properties[k], w.entries[k], sensitive, at + [k])
             <==> EqualOutside(v.entries[k], w.entries[k], secret, at + [k])
      {
        var child := s.properties[k];
        forall q
          ensures at + [k] + q in secret <==> at + [k] + q in sensitive || q in PasswordTails(child)
        {
          assert at + ([k] + q) == at + [k] + q;
          PasswordPathsAt(s, k, q);
        }
        assert at + [k] + [] == at + [k];
        NoEmptyPasswordPath(child);
        if !IsPassword(child) && at + [k] !in sensitive && child.ObjectOf? {
          RedactHidesSecretsOnly(child, v.entries[k], w.entries[k], sensitive, secret, at + [k]);
        }
      }
      assert EqualOutside(v, w, secret, at) <==>
             forall k :: k in v.entries ==> EqualOutside(v.entries[k], w.entries[k], secret, at + [k]) by {
        if v == w {
          forall k | k in v.entries
            ensures EqualOutside(v.entries[k], w.entries[k], secret, at + [k])
          {
          }
        }
      }
      assert Redact(s, v, sensitive, at).entries.Keys == v.entries.Keys;
      assert Redact(s, w, sensitive, at).entries.Keys == v.entries.Keys;
    } else {
      assert Redact(s, v, sensitive, at).entries.Keys == v.entries.Keys;
      assert Redact(s, w, sensitive, at).entries.Keys == w.entries.Keys;
    }
  }

  /** The value found by following a path. */
  function ValueAt(v: Value, p: Path): Option<Value>
    decreases |p|
  {
    if p == [] then Some(v)
    else if v.Object? && p[0] in v.entries then ValueAt(v.entries[p[0]], p[1..])
    else None
  }

  // ----- what restoring makes of an edit -----

  /** The edit leaves a password blank that the stored document has. */
  ghost predicate Restored(s: Schema, v: Value, existing: Value, p: Path) {
    p in PasswordPaths(s) && ValueAt(v, p) == Some(Text("")) && ValueAt(existing, p).Some?
  }

  lemma EntryOfPath(s: Schema, v: Value, existing: Value, p: Path)
    requires p != [] && s.ObjectOf? && p[0] in s.properties && v.Object? && p[0] in v.entries
    ensures var inner := GetOption(Lookup(Entries(existing), p[0]), Null);
            && ValueAt(v, p) == ValueAt(v.entries[p[0]], p[1..])
            && (p[1..] != [] ==> ValueAt(existing, p) == ValueAt(inner, p[1..]))
            && (p[1..] == [] ==> ValueAt(existing, p) == Lookup(Entries(existing), p[0]))
            && (p in PasswordPaths(s) <==> p[1..] in PasswordTails(s.properties[p[0]]))
  {
    assert p == [p[0]] + p[1..];
    PasswordPathsAt(s, p[0], p[1..]);
  }

  /** Every leaf of an edit is kept, whatever was stored, but for blanks at passwords that are stored: those become what
      is stored. */
  lemma {:induction false} PreserveKeepsLeaves(s: Schema, v: Value, existing: Value, p: Path)
    requires ValueAt(v, p).Some? && !ValueAt(v, p).value.Object?
    ensures ValueAt(Preserve(s, v, existing), p)
            == if Restored(s, v, existing, p) then ValueAt(existing, p) else ValueAt(v, p)
    decreases s
  {
    if p == [] {
      NoEmptyPasswordPath(s);
    } else if s.ObjectOf? && p[0] in s.properties {
      hide PasswordPaths;
      EntryOfPath(s, v, existing, p);
      var child := s.properties[p[0]];
      NoEmptyPasswordPath(child);
      if child.ObjectOf? {
        PreserveKeepsLeaves(child, v.entries[p[0]], GetOption(Lookup(Entries(existing), p[0]), Null), p[1..]);
      }
    } else {
      hide PasswordPaths;
      if s.ObjectOf? {
        assert p == [p[0]] + p[1..];
        PasswordPathsAt(s, p[0], p[1..]);
      } else {
        NoPasswordsInLeaf(s);
      }
    }
  }

  lemma NoPasswordsInLeaf(s: Schema)
    requires s.Leaf?
    ensures PasswordPaths(s) == {}
  {
  }

  /** Restoring adds nothing to an edit but at and below such blanks. */
  lemma {:induction false} PreserveAddsNothing(s: Schema, v: Value, existing: Value, p: Path)
    requires ValueAt(v, p).None? && ValueAt(Preserve(s, v, existing), p).Some?
    ensures exists i :: 0 <= i < |p| && Restored(s, v, existing, p[..i])
    decreases s
  {
    var k := p[0];
    var child := s.properties[k];
    if child.ObjectOf? {
      var inner := GetOption(Lookup(Entries(existing), k), Null);
      PreserveAddsNothing(child, v.entries[k], inner, p[1..]);
      var i :| 0 <= i < |p[1..]| && Restored(child, v.entries[k], inner, p[1..][..i]);
      NoEmptyPasswordPath(child);
      assert p[..i + 1][0] == k && p[..i + 1][1..] == p[1..][..i];
      EntryOfPath(s, v, existing, p[..i + 1]);
      assert Restored(s, v, existing, p[..i + 1]);
    } else {
      assert p[..1][0] == k && p[..1][1..] == [];
      EntryOfPath(s, v, existing, p[..1]);
      assert Restored(s, v, existing, p[..1]);
    }
  }

  // ----- what an accepted number is -----

  /** The leaf schema at a path. */
  function LeafAt(s: Schema, p: Path): (r: Option<Schema>)
    ensures r.Some? ==> r.value.Leaf?
    decreases |p|
  {
    if p == [] then (if s.Leaf? then Some(s) else None)
    else if s.ObjectOf? && p[0] in s.properties then LeafAt(s.properties[p[0]], p[1..])
    else None
  }

  /** Every value that normalising lets through lies between the bounds of its property: as a number, a truth value
      counting as zero or one; and a property whose bound is written as null lets nothing through. */
  lemma {:induction false} AcceptedIsBounded(s: Schema, v: Value, p: Path)
    requires Normalize(s, v).Ok? && LeafAt(s, p).Some? && ValueAt(Normalize(s, v).value, p).Some?
    ensures var leaf, x := LeafAt(s, p).value, ValueAt(Normalize(s, v).value, p).value;
            && (leaf.minimum.BoundAt? ==> Number(x).Some? && leaf.minimum.limit <= Number(x).value)
            && (leaf.maximum.BoundAt? ==> Number(x).Some? && Number(x).value <= leaf.maximum.limit)
            && !leaf.minimum.NullBound? && !leaf.maximum.NullBound?
    decreases |p|
  {
    if p != [] {
      var child := s.properties[p[0]];
      assert Property(s, v.entries, p[0]).Ok?;
      AcceptedIsBounded(child, if p[0] in v.entries then v.entries[p[0]] else child.default.value, p[1..]);
    }
  }

  /** Following a path through a schema stops short at a leaf that is neither a password nor sensitive itself. */
  predicate LeafAbove(s: Schema, sensitive: set<Path>, at: Path, p: Path)
    decreases s
  {
    && s.ObjectOf? && |p| >= 2 && p[0] in s.properties
    && at + [p[0]] !in sensitive && !IsPassword(s.properties[p[0]])
    && (s.properties[p[0]].Leaf? || LeafAbove(s.properties[p[0]], sensitive, at + [p[0]], p[1..]))
  }

  lemma {:induction false} RedactMasks(s: Schema, v: Value, sensitive: set<Path>, at: Path, p: Path)
    requires p != [] && at + p in sensitive && !LeafAbove(s, sensitive, at, p)
    ensures ValueAt(Redact(s, v, sensitive, at), p) in {None, Some(Text(""))}
    decreases s
  {
    var r := Redact(s, v, sensitive, at);
    var k := p[0];
    if k in r.entries {
      assert p == [k] + p[1..];
      assert at + p == at + [k] + p[1..];
      if at + [k] !in sensitive && !IsPassword(s.properties[k]) {
        assert p[1..] != [] by { assert at + [k] + [] == at + [k]; }
        RedactMasks(s.properties[k], v.entries[k], sensitive, at + [k], p[1..]);
      }
    }
  }

  /** The document that holds one value, at a path. */
  function Holding(p: Path, x: Value): Value
    decreases |p|
  {
    if p == [] then x else Object(map[p[0] := Holding(p[1..], x)])
  }

  lemma {:induction false} HoldingAt(p: Path, x: Value)
    ensures ValueAt(Holding(p, x), p) == Some(x)
    decreases |p|
  {
    if p != [] {
      HoldingAt(p[1..], x);
    }
  }

  lemma {:induction false} LeafAboveShows(s: Schema, sensitive: set<Path>, at: Path, p: Path, x: Value)
    requires LeafAbove(s, sensitive, at, p)
    ensures ValueAt(Redact(s, Holding(p, x), sensitive, at), p) == Some(x)
    decreases s
  {
    if s.properties[p[0]].Leaf? {
      HoldingAt(p[1..], x);
    } else {
      LeafAboveShows(s.properties[p[0]], sensitive, at + [p[0]], p[1..], x);
    }
  }

  /** A sensitive path shows at most a blank in every document exactly when no leaf of the current schema lies
      above it. */
  lemma RedactMasksExactly(s: Schema, sensitive: set<Path>, p: Path)
    requires p in sensitive && p != []
    ensures (forall v :: ValueAt(Redact(s, v, sensitive, []), p) in {None, Some(Text(""))})
            <==> !LeafAbove(s, sensitive, [], p)
  {
    assert [] + p == p;
    if LeafAbove(s, sensitive, [], p) {
      LeafAboveShows(s, sensitive, [], p, Null);
      assert ValueAt(Redact(s, Holding(p, Null), sensitive, []), p) == Some(Null);
    } else {
      forall v
        ensures ValueAt(Redact(s, v, sensitive, []), p) in {None, Some(Text(""))}
      {
        RedactMasks(s, v, sensitive, [], p);
      }
    }
  }
}
