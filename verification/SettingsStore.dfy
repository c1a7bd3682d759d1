/** `PluginConfigStore`: saved settings and the paths that ever held a password, over any run of edits. */
module SettingsStore {
  import opened Json
  import opened Outcomes
  import opened SettingsSchema
  import opened SettingsSecrets

  /** The settings file of a plugin, and its sensitive-path file. */
  datatype Files = Files(saved: Option<map<string, Value>>, sensitive: Option<set<Path>>)

  function Loaded(f: Files): Value {
    Object(GetOption(f.saved, map[]))
  }

  /** The paths of the text values of a document. */
  function TextPaths(v: Value): set<Path>
    decreases v
  {
    match v
    case Text(_) => {[]}
    case Object(m) => set k, q | k in m && q in TextPaths(m[k]) :: [k] + q
    case _ => {}
  }

  /** `sensitive_paths`: a settings file older than its sensitive-path file hides all its texts. */
  function Sensitive(f: Files, s: Schema): set<Path> {
    match f.sensitive
    case Some(paths) => paths + PasswordPaths(s)
    case None => if f.saved.Some? then PasswordPaths(s) + TextPaths(Loaded(f)) else PasswordPaths(s)
  }

  /** What an editor is shown: nothing when the saved settings do not fit the schema. */
  function Shown(f: Files, s: Schema): Outcome<Value> {
    if !ValidSchema(s) then Raised else
      var v :- Normalize(Sparse(s), Loaded(f));
      Ok(Redact(s, v, Sensitive(f, s), []))
  }

  /** `save`. */
  function Saved(f: Files, s: Schema, provided: set<string>, edited: Value): Outcome<Files> {
    var v := Preserve(s, edited, Loaded(f));
    if !ValidSchema(s) then Raised else
      var sparse :- Normalize(Sparse(s), v);
      if !sparse.Object? then Raised else
        var resolved :- Resolve(s, provided, sparse.entries);
        Ok(Files(Some(sparse.entries), Some(GetOption(f.sensitive, {}) + PasswordPaths(s))))
  }

  /** The new settings have every leaf of the edit, but for the blanks that restoring fills from the old ones. */
  ghost predicate KeepsLeaves(s: Schema, edited: Value, before: Value, after: Value) {
    forall p :: ValueAt(edited, p).Some? && !ValueAt(edited, p).value.Object? ==>
      ValueAt(after, p) == if Restored(s, edited, before, p) then ValueAt(before, p) else ValueAt(edited, p)
  }

  class PluginConfigStore {
    var saved: map<string, map<string, Value>>
    var sensitive: map<string, set<Path>>

    constructor ()
      ensures saved == map[] && sensitive == map[]
    {
      saved, sensitive := map[], map[];
    }

    ghost function FilesOf(plugin: string): Files
      reads this
    {
      Files(Lookup(saved, plugin), Lookup(sensitive, plugin))
    }

    method Save(plugin: string, s: Schema, provided: set<string>, edited: Value)
        returns (r: Outcome<map<string, Value>>)
      modifies this
      ensures r.Ok? <==> Saved(old(FilesOf(plugin)), s, provided, edited).Ok?
      ensures r.Ok? ==> FilesOf(plugin) == Saved(old(FilesOf(plugin)), s, provided, edited).value
                        && FilesOf(plugin).saved == Some(r.value)
      ensures r.Ok? ==> KeepsLeaves(s, edited, old(Loaded(FilesOf(plugin))), Object(r.value))
      ensures r.Raised? ==> saved == old(saved) && sensitive == old(sensitive)
      ensures forall p :: p != plugin ==> FilesOf(p) == old(FilesOf(p))
    {
      hide Normalize, ValidSchema, Preserve, Sparse, Resolve, PasswordPaths, KeepsLeaves;
      var existing := Object(if plugin in saved then saved[plugin] else map[]);
      var values := PreservePasswords(s, edited, existing);
      if !ValidSchema(s) {
        return Raised;
      }
      var normalized := NormalizeValue(Sparse(s), values);
      if normalized.Raised? || !normalized.value.Object? {
        return Raised;
      }
      if Resolve(s, provided, normalized.value.entries).Raised? {
        return Raised;
      }
      var historical := if plugin in sensitive then sensitive[plugin] else {};
      sensitive := sensitive[plugin := historical + PasswordPaths(s)];
      saved := saved[plugin := normalized.value.entries];
      r := Ok(normalized.value.entries);
      SavedKeepsLeaves(old(FilesOf(plugin)), s, provided, edited);
    }

    method Delete(plugin: string)
      modifies this
      ensures FilesOf(plugin) == Files(None, None)
      ensures forall p :: p != plugin ==> FilesOf(p) == old(FilesOf(p))
    {
      saved := saved - {plugin};
      sensitive := sensitive - {plugin};
    }

    /** The settings part of the record an editor reads. */
    method Show(plugin: string, s: Schema) returns (r: Outcome<Value>)
      ensures r == Shown(FilesOf(plugin), s)
    {
      if !ValidSchema(s) {
        return Raised;
      }
      var existing := Object(if plugin in saved then saved[plugin] else map[]);
      var normalized := NormalizeValue(Sparse(s), existing);
      if normalized.Raised? {
        return Raised;
      }
      var paths := PasswordPaths(s);
      if plugin in sensitive {
        paths := paths + sensitive[plugin];
      } else if plugin in saved {
        paths := paths + TextPaths(existing);
      }
      var view := RedactSettings(s, normalized.value, paths, []);
      assert paths == Sensitive(FilesOf(plugin), s);
      r := Ok(view);
    }
  }

  // ----- what a save makes of an edit -----

  /** After a successful save the settings hold every leaf of the edit, but for blanks at passwords that were saved
      before, which keep what was saved. */
  lemma SavedKeepsLeaves(f: Files, s: Schema, provided: set<string>, edited: Value)
    requires Saved(f, s, provided, edited).Ok?
    ensures KeepsLeaves(s, edited, Loaded(f), Loaded(Saved(f, s, provided, edited).value))
  {
    hide Normalize, Preserve, Resolve, Sparse, ValidSchema, PasswordPaths, ValueAt, Restored;
    SparseIsExact(s, Preserve(s, edited, Loaded(f)));
    forall p | ValueAt(edited, p).Some? && !ValueAt(edited, p).value.Object?
      ensures ValueAt(Preserve(s, edited, Loaded(f)), p)
              == if Restored(s, edited, Loaded(f), p) then ValueAt(Loaded(f), p) else ValueAt(edited, p)
    {
      PreserveKeepsLeaves(s, edited, Loaded(f), p);
    }
  }

  /** And they hold nothing else, but at and below such blanks. */
  lemma SavedAddsNothing(f: Files, s: Schema, provided: set<string>, edited: Value, p: Path)
    requires Saved(f, s, provided, edited).Ok?
    requires ValueAt(edited, p).None? && ValueAt(Loaded(Saved(f, s, provided, edited).value), p).Some?
    ensures exists i :: 0 <= i < |p| && Restored(s, edited, Loaded(f), p[..i])
  {
    hide Normalize, Preserve, Resolve, Sparse, ValidSchema, PasswordPaths, ValueAt, Restored;
    SparseIsExact(s, Preserve(s, edited, Loaded(f)));
    PreserveAddsNothing(s, edited, Loaded(f), p);
  }

  // ----- saving the shown settings back -----

  /** Saving back what the editor was shown, unedited, keeps the saved settings exactly when every blanked value is a
      current password or was blank, given that the saved settings could be saved at all. */
  lemma SaveShownBack(f: Files, s: Schema, provided: set<string>)
    requires Shown(f, s).Ok? && Resolve(s, provided, Loaded(f).entries).Ok?
    ensures (Saved(f, s, provided, Shown(f, s).value).Ok?
             && Loaded(Saved(f, s, provided, Shown(f, s).value).value) == Loaded(f))
            <==> Recoverable(s, Loaded(f), Sensitive(f, s), [])
  {
    hide Normalize, Redact, Preserve, Recoverable, Resolve, Sensitive;
    var v := Loaded(f);
    SparseIsExact(s, v);
    RoundTrip(s, v, Sensitive(f, s), []);
    var back := Preserve(s, Shown(f, s).value, v);
    SparseIsExact(s, back);
  }

  /** Under one schema the saved settings always survive: what is sensitive are then its own passwords. */
  lemma SaveShownBackSameSchema(f: Files, s: Schema, provided: set<string>)
    requires s.ObjectOf? && f.sensitive.Some? && f.sensitive.value <= PasswordPaths(s)
    requires Shown(f, s).Ok? && Resolve(s, provided, Loaded(f).entries).Ok?
    ensures Saved(f, s, provided, Shown(f, s).value).Ok?
    ensures Loaded(Saved(f, s, provided, Shown(f, s).value).value) == Loaded(f)
  {
    hide Normalize, Redact, Preserve, Recoverable, Resolve, PasswordPaths;
    SparseIsDeclared(s, Loaded(f));
    forall q: Path | [] + q in Sensitive(f, s)
      ensures q in PasswordPaths(s)
    {
      assert [] + q == q;
    }
    PasswordsAreRecoverable(s, Loaded(f), Sensitive(f, s), []);
    SaveShownBack(f, s, provided);
  }

  // ----- runs of edits under changing schemas -----

  datatype Edit = Edit(schema: Schema, provided: set<string>, edited: Value)

  /** A save that raises leaves the files alone. */
  function Run(f: Files, edits: seq<Edit>): Files {
    if edits == [] then f else
      var g := Run(f, edits[..|edits| - 1]);
      var e := edits[|edits| - 1];
      match Saved(g, e.schema, e.provided, e.edited) case Ok(h) => h case Raised => g
  }

  /** Whether some save of the run succeeded under a schema that declares p a password. */
  ghost predicate WasPassword(f: Files, edits: seq<Edit>, p: Path) {
    exists i :: 0 <= i < |edits| && p in PasswordPaths(edits[i].schema)
                && Saved(Run(f, edits[..i]), edits[i].schema, edits[i].provided, edits[i].edited).Ok?
  }

  /** The recorded paths are those recorded before and every password of a successful save. */
  lemma {:induction false} RunRecordsPasswords(f: Files, edits: seq<Edit>, p: Path)
    ensures p in GetOption(Run(f, edits).sensitive, {})
            <==> p in GetOption(f.sensitive, {}) || WasPassword(f, edits, p)
    ensures f.sensitive.Some? ==> Run(f, edits).sensitive.Some?
    decreases |edits|
  {
    hide PasswordPaths, Preserve, Normalize, Resolve, ValidSchema;
    if edits != [] {
      var front := edits[..|edits| - 1];
      RunRecordsPasswords(f, front, p);
      forall i | 0 <= i < |front|
        ensures front[..i] == edits[..i] && front[i] == edits[i]
      {
      }
      assert WasPassword(f, front, p) ==> WasPassword(f, edits, p);
      if WasPassword(f, edits, p) && !WasPassword(f, front, p) {
        var i :| 0 <= i < |edits| && p in PasswordPaths(edits[i].schema)
                 && Saved(Run(f, edits[..i]), edits[i].schema, edits[i].provided, edits[i].edited).Ok?;
        assert i == |edits| - 1;
      }
    }
  }

  /** One text setting, a password or not. */
  function OneText(key: string, format: Format): Schema {
    ObjectOf(map[key := Leaf(StringKind, format, Unbounded, Unbounded, None, None)], {}, None, None)
  }

  function OneValue(key: string, text: string): Value {
    Object(map[key := Text(text)])
  }

  /** A setting is saved as a password; the next schema declares it plain; saving back what is then shown blanks it. */
  lemma FormerPasswordIsLost(key: string, secret: string)
    requires secret != ""
    ensures var plain := OneText(key, Plain);
            var f := Run(Files(None, None), [Edit(OneText(key, Password), {}, OneValue(key, secret))]);
            && Loaded(f) == OneValue(key, secret)
            && Shown(f, plain) == Ok(OneValue(key, ""))
            && Saved(f, plain, {}, OneValue(key, "")).Ok?
            && Loaded(Saved(f, plain, {}, OneValue(key, "")).value) == OneValue(key, "")
  {
    hide Run, Saved, Shown, Loaded, PasswordPaths, Sensitive;
    SavedAsPassword(key, secret);
    var f := Run(Files(None, None), [Edit(OneText(key, Password), {}, OneValue(key, secret))]);
    SensitiveIsBlanked(f, key, secret);
    BlankIsSaved(f, key);
  }

  lemma SavedAsPassword(key: string, secret: string)
    ensures var f := Run(Files(None, None), [Edit(OneText(key, Password), {}, OneValue(key, secret))]);
            Loaded(f) == OneValue(key, secret) && [key] in Sensitive(f, OneText(key, Plain))
  {
    hide Normalize, ValidSchema, Preserve, Resolve, Sparse, PasswordPaths;
    OneTextFits(key, Password, secret);
    var edits := [Edit(OneText(key, Password), {}, OneValue(key, secret))];
    assert edits[..0] == [];
    PasswordPathsAt(OneText(key, Password), key, []);
    assert [key] + [] == [key];
  }

  lemma SensitiveIsBlanked(f: Files, key: string, secret: string)
    requires Loaded(f) == OneValue(key, secret) && [key] in Sensitive(f, OneText(key, Plain))
    ensures Shown(f, OneText(key, Plain)) == Ok(OneValue(key, ""))
  {
    hide Normalize, ValidSchema, Sensitive, Sparse;
    OneTextFits(key, Plain, secret);
    assert [] + [key] == [key];
    assert Redact(OneText(key, Plain), OneValue(key, secret), Sensitive(f, OneText(key, Plain)), []).entries
        == OneValue(key, "").entries;
  }

  lemma BlankIsSaved(f: Files, key: string)
    ensures var r := Saved(f, OneText(key, Plain), {}, OneValue(key, ""));
            r.Ok? && Loaded(r.value) == OneValue(key, "")
  {
    hide Normalize, ValidSchema, Preserve, Resolve, Sparse, PasswordPaths;
    OneTextFits(key, Plain, "");
  }

  lemma OneTextFits(key: string, format: Format, text: string)
    requires format == Plain || format == Password
    ensures var s, v := OneText(key, format), OneValue(key, text);
            && ValidSchema(s) && Normalize(Sparse(s), v) == Ok(v) && Resolve(s, {}, v.entries).Ok?
            && Preserve(s, v, Object(map[])) == v
            && (format == Plain ==> forall w :: Preserve(s, v, w) == v)
  {
    var s, v := OneText(key, format), OneValue(key, text);
    assert Sparse(s).properties == s.properties;
    assert AtStart(s, {}, v.entries).properties == s.properties;
    assert AtStart(s, {}, v.entries) == s;
    OneTextIsNormal(key, format, text);
    hide Normalize, Sparse, AtStart;
    assert Preserve(s, v, Object(map[])).entries == v.entries;
  }

  lemma OneTextIsNormal(key: string, format: Format, text: string)
    requires format == Plain || format == Password
    ensures Normalize(OneText(key, format), OneValue(key, text)) == Ok(OneValue(key, text))
  {
    var s, v := OneText(key, format), OneValue(key, text);
    assert Property(s, v.entries, key) == Ok(Some(Text(text)));
    assert Normalize(s, v).Ok?;
    assert Normalize(s, v).value.entries == v.entries;
  }

  lemma {:induction false} DeclaredHasNoLeafAbove(s: Schema, v: Value, sensitive: set<Path>, at: Path, p: Path)
    requires Declared(s, v) && ValueAt(v, p).Some?
    ensures !LeafAbove(s, sensitive, at, p)
    decreases s
  {
    if s.ObjectOf? && |p| >= 2 && !s.properties[p[0]].Leaf? {
      DeclaredHasNoLeafAbove(s.properties[p[0]], v.entries[p[0]], sensitive, at + [p[0]], p[1..]);
    }
  }

  lemma {:induction false} RedactAddsNothing(s: Schema, v: Value, sensitive: set<Path>, at: Path, p: Path)
    requires ValueAt(Redact(s, v, sensitive, at), p).Some? && Declared(s, v) && s.ObjectOf?
    ensures ValueAt(v, p).Some?
    decreases s
  {
    if p != [] {
      var child := s.properties[p[0]];
      if at + [p[0]] in sensitive || IsPassword(child) {
        assert p[1..] == [];
      } else if child.ObjectOf? {
        RedactAddsNothing(child, v.entries[p[0]], sensitive, at + [p[0]], p[1..]);
      }
    }
  }

  /** Whatever schemas the settings were saved under and are shown under later: a path that was a password at some
      save, or is one now, never shows more than a blank. */
  lemma PasswordsStayHidden(f: Files, edits: seq<Edit>, s: Schema, p: Path)
    requires WasPassword(f, edits, p) || p in PasswordPaths(s)
    requires Shown(Run(f, edits), s).Ok?
    ensures ValueAt(Shown(Run(f, edits), s).value, p) in {None, Some(Text(""))}
  {
    hide Normalize, Redact, PasswordPaths, Run, ValidSchema, Declared, WasPassword, LeafAbove;
    var g := Run(f, edits);
    var v := Loaded(g);
    RunRecordsPasswords(f, edits, p);
    SparseIsExact(s, v);
    SparseIsDeclared(s, v);
    assert p in Sensitive(g, s);
    PasswordIsBelowTheRoot(f, edits, s, p);
    HiddenWhenSensitive(s, v, Sensitive(g, s), p);
  }

  lemma PasswordIsBelowTheRoot(f: Files, edits: seq<Edit>, s: Schema, p: Path)
    requires WasPassword(f, edits, p) || p in PasswordPaths(s)
    ensures p != []
  {
    hide Saved, Run;
    NoEmptyPasswordPath(s);
    forall i | 0 <= i < |edits|
      ensures [] !in PasswordPaths(edits[i].schema)
    {
      NoEmptyPasswordPath(edits[i].schema);
    }
  }

  lemma HiddenWhenSensitive(s: Schema, v: Value, sensitive: set<Path>, p: Path)
    requires p in sensitive && p != [] && Declared(s, v) && v.Object?
    ensures ValueAt(Redact(s, v, sensitive, []), p) in {None, Some(Text(""))}
  {
    hide Redact;
    if ValueAt(Redact(s, v, sensitive, []), p).Some? {
      assert [] + p == p;
      RedactAddsNothing(s, v, sensitive, [], p);
      DeclaredHasNoLeafAbove(s, v, sensitive, [], p);
      RedactMasks(s, v, sensitive, [], p);
    }
  }
}
