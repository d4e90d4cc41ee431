/** Loading the configuration (load_config_at in src/config.rs): reading a
    document through the typed settings, the two one-shot keybind migrations,
    dropping retired keys, and the save that makes them run once. */
module ConfigLoad {
  import opened TomlMerge
  import opened Wrappers

  // ---------------------------------------------------------------- typed reading

  /** What the typed configuration asks of one key: a list of key specs, some
      other value (`read` is deserialising followed by serialising, None when the
      type does not fit; a field without a default is optional), or a section.
      Unknown keys are ignored; an absent section is one with every default. */
  datatype Schema =
    | SpecList(usual: seq<string>)
    | Field(read: Value -> Option<Value>, default: Option<Value>)
    | Section(fields: map<string, Schema>)

  datatype Outcome = Refused | Omitted | Is(item: Item)

  /** An inline table reads like a table. */
  function AsTable(item: Item): Item {
    if item.Leaf? && item.value.Inline?
    then Table(map k | k in item.value.fields :: Leaf(item.value.fields[k]))
    else item
  }

  function Lookup(item: Item, key: string): Option<Item> {
    if item.Table? && key in item.entries then Some(item.entries[key]) else None
  }

  /** The setting as it would be serialised again. */
  function Read(s: Schema, found: Option<Item>): (r: Outcome)
    ensures found.None? ==> !r.Refused?
    ensures r.Omitted? ==> s.Field? && found.None?
    decreases s
  {
    match s
    case SpecList(usual) =>
      if found.None? then Is(Leaf(Specs(usual)))
      else if found.value.Leaf? && found.value.value.Specs? then Is(found.value)
      else Refused
    case Field(read, default) =>
      if found.None? then if default.Some? then Is(Leaf(default.value)) else Omitted
      else if found.value.Leaf? && read(found.value.value).Some? then Is(Leaf(read(found.value.value).value))
      else Refused
    case Section(fields) =>
      var table := if found.Some? then AsTable(found.value) else Table(map[]);
      if table.Leaf? || exists k :: k in fields && Read(fields[k], Lookup(table, k)).Refused? then Refused
      else Is(Table(map k | k in fields && Read(fields[k], Lookup(table, k)).Is?
                      :: Read(fields[k], Lookup(table, k)).item))
  }

  ghost predicate ReadsBack(read: Value -> Option<Value>, v: Value) {
    read(v).Some? ==> read(read(v).value) == read(v)
  }

  /** Serialised values read back as themselves, defaults included. */
  ghost predicate Lawful(s: Schema)
    decreases s
  {
    match s
    case SpecList(_) => true
    case Field(read, default) => (forall v :: ReadsBack(read, v)) && (default.Some? ==> read(default.value) == default)
    case Section(fields) => forall k :: k in fields ==> Lawful(fields[k])
  }

  /** A configuration is its own reading. */
  lemma {:induction false} ReadIsStable(s: Schema, found: Option<Item>)
    requires Lawful(s) && Read(s, found).Is?
    ensures Read(s, Some(Read(s, found).item)) == Read(s, found)
    decreases s
  {
    if s.Field? && found.Some? {
      assert ReadsBack(s.read, found.value.value);
    }
    if s.Section? {
      var table := if found.Some? then AsTable(found.value) else Table(map[]);
      var c := Read(s, found).item;
      forall k | k in s.fields ensures Read(s.fields[k], Lookup(c, k)) == Read(s.fields[k], Lookup(table, k)) {
        if Read(s.fields[k], Lookup(table, k)).Is? {
          ReadIsStable(s.fields[k], Lookup(table, k));
        }
      }
      assert Read(s, Some(c)).item.entries == c.entries;
    }
  }

  // ---------------------------------------------------------------- save, then load

  /** The document still holds an optional key that the configuration has unset. */
  ghost predicate Stale(s: Schema, doc: Item, c: Item)
    decreases s
  {
    s.Section? && doc.Table? && c.Table?
    && exists k :: k in s.fields && k in doc.entries
        && (k !in c.entries || Stale(s.fields[k], doc.entries[k], c.entries[k]))
  }

  /** Reading a saved document gives back what was saved, unless the save unset
      an optional key the document holds: the merge has no way to remove it. */
  lemma {:induction false} SaveThenLoad(s: Schema, doc: Item, c: Item)
    requires Lawful(s) && Read(s, Some(c)) == Is(c)
    ensures Read(s, Some(Merge(doc, c))) == Is(c) <==> !Stale(s, doc, c)
    decreases s
  {
    if s.Section? && doc.Table? {
      assert AsTable(c) == c;
      var saved := Merge(doc, c);
      forall k | k in s.fields
        ensures k in c.entries ==> Read(s.fields[k], Some(c.entries[k])) == Is(c.entries[k])
        ensures k in c.entries && k in doc.entries ==>
          (Read(s.fields[k], Lookup(saved, k)) == Is(c.entries[k]) <==>
              !Stale(s.fields[k], doc.entries[k], c.entries[k]))
        ensures k !in c.entries ==> (Read(s.fields[k], Lookup(saved, k)).Omitted? <==> k !in doc.entries)
      {
        if k in c.entries && k in doc.entries {
          SaveThenLoad(s.fields[k], doc.entries[k], c.entries[k]);
        }
      }
      SavedSectionReads(s, saved, c);
    }
  }

  // The one optional key of the configuration, `config_path` of `[ssh]`.

  function ReadText(v: Value): Option<Value> {
    if v.Scalar? then Some(v) else None
  }

  const SSH := Section(map["config_path" := Field(ReadText, None)])
  const SSH_ONLY := Section(map["ssh" := SSH])

  /** That section without the key, and with it. */
  const UNSET := Table(map[])

  function Held(path: string): Item {
    Table(map["config_path" := Leaf(Scalar(path))])
  }

  lemma SshReads(path: string)
    ensures Lawful(SSH_ONLY)
    ensures Read(SSH, Some(UNSET)) == Is(UNSET)
    ensures Read(SSH, Some(Held(path))) == Is(Held(path))
    ensures Merge(Held(path), UNSET) == Held(path) && Stale(SSH, Held(path), UNSET)
  {
    assert ReadText(Scalar(path)) == Some(Scalar(path));
    assert Lawful(SSH);
    SavedSectionReads(SSH, UNSET, UNSET);
    SavedSectionReads(SSH, Held(path), Held(path));
    assert Merge(Held(path), UNSET).entries == Held(path).entries;
    assert "config_path" in Held(path).entries;
  }

  /** A document that sets it keeps it through a save of a configuration without
      it, and the next read finds it again. */
  lemma UnsetKeyComesBack(path: string)
    ensures var doc, c := Table(map["ssh" := Held(path)]), Table(map["ssh" := UNSET]);
            Lawful(SSH_ONLY) && Read(SSH_ONLY, Some(c)) == Is(c) && Stale(SSH_ONLY, doc, c)
            && Read(SSH_ONLY, Some(Merge(doc, c))) == Is(doc) && doc != c
  {
    var doc, c := Table(map["ssh" := Held(path)]), Table(map["ssh" := UNSET]);
    SshReads(path);
    assert Merge(doc, c).entries == doc.entries;
    OneSectionReads(UNSET);
    OneSectionReads(Held(path));
    StaleThere(path);
  }

  lemma OneSectionReads(section: Item)
    requires Read(SSH, Some(section)) == Is(section)
    ensures Read(SSH_ONLY, Some(Table(map["ssh" := section]))) == Is(Table(map["ssh" := section]))
  {
    var c := Table(map["ssh" := section]);
    assert Lookup(c, "ssh") == Some(section);
    SavedSectionReads(SSH_ONLY, c, c);
  }

  lemma StaleThere(path: string)
    ensures var doc, c := Table(map["ssh" := Held(path)]), Table(map["ssh" := UNSET]);
            Stale(SSH_ONLY, doc, c) && doc != c
  {
    var doc, c := Table(map["ssh" := Held(path)]), Table(map["ssh" := UNSET]);
    SshReads(path);
    assert "config_path" in Held(path).entries && Held(path) != UNSET;
    assert doc.entries["ssh"] == Held(path) && c.entries["ssh"] == UNSET;
  }

  // A section written inline, with a key of the user's own.

  const LOGO := Section(map["os_logo" := Field(ReadText, Some(Scalar("true")))])
  const LOGO_ONLY := Section(map["appearance" := LOGO])

  /** `appearance = { os_logo = true, mine = "x" }` */
  const INLINE := Table(map["appearance" := Leaf(Inline(map["os_logo" := Scalar("true"), "mine" := Scalar("x")]))])
  const WITH_LOGO := Table(map["appearance" := Table(map["os_logo" := Leaf(Scalar("true"))])])

  lemma LogoReads()
    ensures Read(LOGO, Lookup(INLINE, "appearance")) == Is(WITH_LOGO.entries["appearance"])
  {
    var section := AsTable(INLINE.entries["appearance"]);
    assert Lookup(section, "os_logo") == Some(Leaf(Scalar("true")));
    SavedSectionReads(LOGO, section, WITH_LOGO.entries["appearance"]);
  }

  /** Such a document is read, and saving what was read loses the key. */
  lemma InlineKeyIsLost()
    ensures Read(LOGO_ONLY, Some(INLINE)) == Is(WITH_LOGO)
    ensures Untouched(WITH_LOGO, ["appearance", "mine"]) && MeetsInline(INLINE, WITH_LOGO, ["appearance", "mine"])
    ensures Get(INLINE, ["appearance", "mine"]) == Some(Leaf(Scalar("x")))
    ensures Get(Merge(INLINE, WITH_LOGO), ["appearance", "mine"]) == None
  {
    var path := ["appearance", "mine"];
    LogoReads();
    SavedSectionReads(LOGO_ONLY, INLINE, WITH_LOGO);
    assert path[1..] == ["mine"] && ["mine"][1..] == [];
    assert Get(INLINE.entries["appearance"], ["mine"]) == Some(Leaf(Scalar("x")));
    assert Untouched(WITH_LOGO.entries["appearance"], ["mine"]);
    UntouchedIsAbsent(WITH_LOGO, path);
    UntouchedStays(INLINE, WITH_LOGO, path);
  }

  /** A section reads as `c` exactly when each of its keys does. */
  lemma SavedSectionReads(s: Schema, saved: Item, c: Item)
    requires s.Section? && saved.Table? && c.Table? && c.entries.Keys <= s.fields.Keys
    ensures Read(s, Some(saved)) == Is(c) <==>
            forall k :: k in s.fields ==>
              Read(s.fields[k], Lookup(saved, k)) == if k in c.entries then Is(c.entries[k]) else Omitted
  {
    if forall k :: k in s.fields ==>
         Read(s.fields[k], Lookup(saved, k)) == if k in c.entries then Is(c.entries[k]) else Omitted
    {
      assert Read(s, Some(saved)).item.entries == c.entries;
    }
  }

  // ---------------------------------------------------------------- retired keys

  const HOLDER := "appearance"
  const RETIRED := "opaque_background"

  predicate HasRetired(doc: Item) {
    doc.Table? && HOLDER in doc.entries && doc.entries[HOLDER].Table? && RETIRED in doc.entries[HOLDER].entries
  }

  function DropRetired(doc: Item): (r: Item)
    ensures !HasRetired(r)
  {
    if HasRetired(doc) then Table(doc.entries[HOLDER := Table(doc.entries[HOLDER].entries - {RETIRED})]) else doc
  }

  /** The settings have no use for the retired key. */
  ghost predicate RetiredIsUnknown(s: Schema) {
    s.Section? && HOLDER in s.fields && s.fields[HOLDER].Section? && RETIRED !in s.fields[HOLDER].fields
  }

  lemma {:induction false} DropIsInvisible(s: Schema, doc: Item)
    requires RetiredIsUnknown(s)
    ensures Read(s, Some(DropRetired(doc))) == Read(s, Some(doc))
  {
    if HasRetired(doc) {
      var dropped := DropRetired(doc);
      SameKeysReadSame(s.fields[HOLDER], doc.entries[HOLDER], dropped.entries[HOLDER]);
      assert forall k :: k in s.fields ==> Read(s.fields[k], Lookup(dropped, k)) == Read(s.fields[k], Lookup(doc, k));
      SameReadingsReadSame(s, doc, dropped);
    }
  }

  lemma SameReadingsReadSame(s: Schema, a: Item, b: Item)
    requires s.Section? && a.Table? && b.Table?
    requires forall k :: k in s.fields ==> Read(s.fields[k], Lookup(a, k)) == Read(s.fields[k], Lookup(b, k))
    ensures Read(s, Some(a)) == Read(s, Some(b))
  {
    if Read(s, Some(a)).Is? {
      assert Read(s, Some(a)).item.entries == Read(s, Some(b)).item.entries;
    }
  }

  lemma SameKeysReadSame(s: Schema, a: Item, b: Item)
    requires s.Section? && a.Table? && b.Table?
    requires forall k :: k in s.fields ==> Lookup(a, k) == Lookup(b, k)
    ensures Read(s, Some(a)) == Read(s, Some(b))
  {
    SameReadingsReadSame(s, a, b);
  }
}
