/** The configuration file (load_config_at and save_config_at in
    src/config.rs): what a load returns and leaves behind, and that the
    migrations settle after one successful save. */
module ConfigFile {
  import opened ConfigLoad
  import opened Keybinds
  import opened TomlMerge
  import opened Wrappers
  import Text

  /** The TOML library: parsing, and printing a document into the layout of an
      earlier text (comments, order and spelling of the keys). */
  datatype Toml = Toml(parse: string -> Option<Item>, print_: (string, Item) -> string)
  {
    /** Printing and parsing gives back the document; the text names its bare keys. */
    ghost predicate Lawful() {
      parse("") == Some(Table(map[])) && (forall layout, doc :: RoundTrips(layout, doc))
      && (forall text :: ParsesToTable(text))
    }

    ghost predicate RoundTrips(layout: string, doc: Item) {
      doc.Table? ==> parse(print_(layout, doc)) == Some(doc)
                     && forall k, j :: Bare(j) && Get(doc, [k, j]).Some? ==> Text.Contains(print_(layout, doc), j)
    }

    ghost predicate ParsesToTable(text: string) {
      parse(text).Some? ==> parse(text).value.Table?
    }
  }

  /** A key TOML writes without quotes. */
  predicate Bare(key: string) {
    key != "" && forall c :: c in key ==> Text.IsLower(c) || Text.IsUpper(c) || '0' <= c <= '9' || c == '_' || c == '-'
  }

  const KEYBINDS := "keybinds"

  /** What the typed configuration of SSHub looks like, as far as loading goes. */
  ghost predicate AppSchema(s: Schema) {
    RetiredIsUnknown(s) && ConfigLoad.Lawful(s)
    && KEYBINDS in s.fields && s.fields[KEYBINDS].Section?
    && (forall k :: k in s.fields[KEYBINDS].fields ==> s.fields[KEYBINDS].fields[k].SpecList?)
    && MIGRATED + {"known_hosts"} <= s.fields[KEYBINDS].fields.Keys
  }

  predicate HasBinds(c: Item) {
    c.Table? && KEYBINDS in c.entries && c.entries[KEYBINDS].Table?
    && forall k :: k in c.entries[KEYBINDS].entries ==> IsSpecs(c.entries[KEYBINDS].entries[k])
  }

  predicate IsSpecs(item: Item) {
    item.Leaf? && item.value.Specs?
  }

  function BindsOf(c: Item): Binds
    requires HasBinds(c)
  {
    map k | k in c.entries[KEYBINDS].entries :: c.entries[KEYBINDS].entries[k].value.specs
  }

  function WithBinds(c: Item, binds: Binds): Item
    requires HasBinds(c)
  {
    Table(c.entries[KEYBINDS := Table(map k | k in binds :: Leaf(Specs(binds[k])))])
  }

  ghost predicate IsConfig(s: Schema, c: Item) {
    Read(s, Some(c)) == Is(c)
  }

  lemma ConfigHasBinds(s: Schema, c: Item)
    requires AppSchema(s) && IsConfig(s, c)
    ensures HasBinds(c) && BindsOf(c).Keys == s.fields[KEYBINDS].fields.Keys
  {
    var kb := s.fields[KEYBINDS];
    assert Read(kb, Lookup(c, KEYBINDS)).Is?;
    assert c.entries[KEYBINDS] == Read(kb, Lookup(c, KEYBINDS)).item;
    assert forall k :: k in kb.fields ==> Read(kb.fields[k], Lookup(AsTable(c.entries[KEYBINDS]), k)).Is?;
  }

  /** Changing the binds of a configuration gives a configuration. */
  lemma RebindingIsConfig(s: Schema, c: Item, binds: Binds)
    requires AppSchema(s) && IsConfig(s, c) && HasBinds(c) && binds.Keys == s.fields[KEYBINDS].fields.Keys
    ensures IsConfig(s, WithBinds(c, binds)) && BindsOf(WithBinds(c, binds)) == binds
  {
    var r := WithBinds(c, binds);
    BindsReadBack(s.fields[KEYBINDS], binds);
    assert AsTable(c) == c && c.entries.Keys <= s.fields.Keys;
    SavedSectionReads(s, c, c);
    forall k | k in s.fields
      ensures Read(s.fields[k], Lookup(r, k)) == if k in r.entries then Is(r.entries[k]) else Omitted
    {
      if k != KEYBINDS {
        assert Lookup(r, k) == Lookup(c, k);
      }
    }
    SavedSectionReads(s, r, r);
  }

  lemma BindsReadBack(kb: Schema, binds: Binds)
    requires kb.Section? && kb.fields.Keys == binds.Keys && forall k :: k in kb.fields ==> kb.fields[k].SpecList?
    ensures var section := Table(map k | k in binds :: Leaf(Specs(binds[k]))); Read(kb, Some(section)) == Is(section)
  {
  }

  // ---------------------------------------------------------------- saving

  function SavedDoc(doc: Item, c: Item): Item {
    DropRetired(Merge(doc, c))
  }

  /** A text that does not parse is treated as empty. */
  function SavedText(toml: Toml, text: string, c: Item): string {
    match toml.parse(text)
    case Some(doc) => toml.print_(text, SavedDoc(doc, c))
    case None => toml.print_("", SavedDoc(Table(map[]), c))
  }

  // ---------------------------------------------------------------- loading

  function Migrated(raw: string, c: Item): Item
    requires HasBinds(c) && MIGRATED <= BindsOf(c).Keys
  {
    WithBinds(c, HelpMigrated(raw, TabsMigrated(raw, BindsOf(c))))
  }

  /** The load rewrites the file exactly for one of these reasons. */
  predicate MustSave(doc: Item, raw: string, c: Item)
    requires HasBinds(c) && MIGRATED <= BindsOf(c).Keys
  {
    PreSftp(raw) || HelpMigrated(raw, BindsOf(c))["help"] != BindsOf(c)["help"] || HasRetired(doc)
  }

  /** What reading a text yields, before migrations; None is an error. */
  function Parsed(toml: Toml, s: Schema, text: string): Option<Item> {
    match toml.parse(text)
    case None => None
    case Some(doc) => if Read(s, Some(doc)).Is? then Some(Read(s, Some(doc)).item) else None
  }

  ghost predicate Rewrites(toml: Toml, s: Schema, text: string)
    requires AppSchema(s) && Parsed(toml, s, text).Some?
  {
    ParsedIsConfig(toml, s, text);
    MustSave(toml.parse(text).value, text, Parsed(toml, s, text).value)
  }

  /** The outcome of a load of that text: the configuration and the file left. */
  ghost function Loaded(toml: Toml, s: Schema, text: string, writes: bool): (Option<Item>, string)
    requires AppSchema(s)
  {
    match Parsed(toml, s, text)
    case None => (None, text)
    case Some(c) =>
      ParsedIsConfig(toml, s, text);
      (Some(Migrated(text, c)),
       if Rewrites(toml, s, text) && writes then SavedText(toml, text, Migrated(text, c)) else text)
  }

  function Defaults(s: Schema): Item
    requires AppSchema(s)
  {
    Read(s, None).item
  }

  class ConfigFile {
    const toml: Toml
    const schema: Schema
    var text: Option<string>

    constructor (toml: Toml, schema: Schema, text: Option<string>)
      ensures this.toml == toml && this.schema == schema && this.text == text
    {
      this.toml, this.schema, this.text := toml, schema, text;
    }

    /** The text a load reads: the defaults are written where no file exists. */
    ghost function Found(): string
      requires AppSchema(schema)
      reads this
    {
      if text.Some? then text.value else toml.print_("", Defaults(schema))
    }

    /** save_config_at; `writes` says whether the write goes through. */
    method SaveConfigAt(config: Item, writes: bool)
      modifies this`text
      ensures text ==
        if writes then Some(SavedText(toml, if old(text).Some? then old(text).value else "", config)) else old(text)
    {
      var existing := if text.Some? then text.value else "";
      if writes {
        text := Some(SavedText(toml, existing, config));
      }
    }

    method LoadConfigAt(writes: bool) returns (config: Option<Item>)
      requires AppSchema(schema) && toml.Lawful()
      modifies this`text
      ensures text.Some? && (config, text.value) == Loaded(toml, schema, old(Found()), writes)
    {
      if text.None? {
        text := Some(toml.print_("", Defaults(schema)));
      }
      var content := text.value;
      if Parsed(toml, schema, content).None? {
        return None;
      }
      var c := Parsed(toml, schema, content).value;
      ParsedIsConfig(toml, schema, content);
      var migrated := false;
      var keybinds := new KeybindsConfig(BindsOf(c));
      var tabs := keybinds.MigratePreSftpTabs(content);
      var help := keybinds.MigrateHelpFreesKnownHosts(content);
      if tabs || help || HasRetired(toml.parse(content).value) {
        migrated := true;
      }
      config := Some(WithBinds(c, keybinds.binds));
      if migrated {
        SaveConfigAt(config.value, writes);
      }
    }
  }

  lemma ParsedIsConfig(toml: Toml, s: Schema, text: string)
    requires AppSchema(s) && Parsed(toml, s, text).Some?
    ensures IsConfig(s, Parsed(toml, s, text).value)
    ensures HasBinds(Parsed(toml, s, text).value)
        && BindsOf(Parsed(toml, s, text).value).Keys == s.fields[KEYBINDS].fields.Keys
  {
    ReadIsStable(s, toml.parse(text));
    ConfigHasBinds(s, Parsed(toml, s, text).value);
  }

  // ---------------------------------------------------------------- settling

  /** What was read from a document leaves no optional key of it unset. */
  lemma {:induction false} ReadIsNotStale(s: Schema, doc: Item, c: Item)
    requires doc.Table? && Read(s, Some(doc)) == Is(c)
    ensures !Stale(s, doc, c)
    decreases s
  {
    if s.Section? {
      forall k | k in s.fields && k in doc.entries
        ensures k in c.entries && !Stale(s.fields[k], doc.entries[k], c.entries[k])
      {
        assert Read(s.fields[k], Lookup(doc, k)).Is?;
        if doc.entries[k].Table? {
          ReadIsNotStale(s.fields[k], doc.entries[k], c.entries[k]);
        }
      }
    }
  }

  lemma RebindingIsNotStale(s: Schema, doc: Item, c: Item, binds: Binds)
    requires AppSchema(s) && HasBinds(c) && !Stale(s, doc, c) && binds.Keys == s.fields[KEYBINDS].fields.Keys
    ensures !Stale(s, doc, WithBinds(c, binds))
  {
    var r := WithBinds(c, binds);
    if doc.Table? {
      forall k | k in s.fields && k in doc.entries
        ensures k in r.entries && !Stale(s.fields[k], doc.entries[k], r.entries[k])
      {
        assert k in c.entries && !Stale(s.fields[k], doc.entries[k], c.entries[k]);
      }
    }
  }

  lemma SavedTextNamesBinds(toml: Toml, s: Schema, text: string, doc: Item, c: Item, k: string)
    requires toml.Lawful() && doc.Table? && HasBinds(c) && k in BindsOf(c) && Bare(k)
    ensures Text.Contains(toml.print_(text, SavedDoc(doc, c)), k)
  {
    var saved := SavedDoc(doc, c);
    assert toml.RoundTrips(text, saved);
    var path := [KEYBINDS, k];
    assert path[1..] == [k] && [k][1..] == [];
    assert Get(c.entries[KEYBINDS], [k]) == Some(Leaf(Specs(BindsOf(c)[k])));
    SourceReadsBack(doc, c, path, Specs(BindsOf(c)[k]));
    DropKeepsTheRest(Merge(doc, c), path);
  }

  /** A saved configuration is what the next load reads. */
  lemma SavedConfigIsRead(toml: Toml, s: Schema, text: string, doc: Item, c: Item)
    requires AppSchema(s) && toml.Lawful() && toml.parse(text) == Some(doc) && IsConfig(s, c)
    ensures Parsed(toml, s, SavedText(toml, text, c)) == Some(c) <==> !Stale(s, doc, c)
    ensures toml.parse(SavedText(toml, text, c)) == Some(SavedDoc(doc, c))
  {
    assert toml.ParsesToTable(text);
    assert toml.RoundTrips(text, SavedDoc(doc, c));
    SaveThenLoad(s, doc, c);
    DropIsInvisible(s, Merge(doc, c));
  }

  /** A file that does not parse is no obstacle: it is replaced by the configuration,
      which the next load reads. */
  lemma BrokenTextIsReplaced(toml: Toml, s: Schema, text: string, c: Item)
    requires AppSchema(s) && toml.Lawful() && toml.parse(text).None? && IsConfig(s, c)
    ensures toml.parse(SavedText(toml, text, c)) == Some(c) && Parsed(toml, s, SavedText(toml, text, c)) == Some(c)
  {
    assert Merge(Table(map[]), c).entries == c.entries;
    ConfigHasNoRetired(s, c);
    assert toml.RoundTrips("", c);
  }

  lemma ConfigHasNoRetired(s: Schema, c: Item)
    requires AppSchema(s) && IsConfig(s, c)
    ensures c.Table? && !HasRetired(c)
  {
    var section := s.fields[HOLDER];
    if HOLDER in c.entries {
      assert Read(section, Lookup(c, HOLDER)) == Is(c.entries[HOLDER]);
      assert c.entries[HOLDER].entries.Keys <= section.fields.Keys;
    }
  }

  /** The retired key is gone from its table after a load whose save went through. */
  lemma RetiredKeyIsDropped(toml: Toml, s: Schema, text: string)
    requires AppSchema(s) && toml.Lawful() && Parsed(toml, s, text).Some?
    requires Get(toml.parse(text).value, ["appearance"]).Some?
        && Get(toml.parse(text).value, ["appearance"]).value.Table?
    ensures var after := toml.parse(Loaded(toml, s, text, true).1);
            after.Some? && Get(after.value, ["appearance", "opaque_background"]) == None
  {
    var doc, c0 := toml.parse(text).value, Parsed(toml, s, text).value;
    HolderIs(doc);
    ParsedIsConfig(toml, s, text);
    if Rewrites(toml, s, text) {
      MigratedMatches(toml, s, text, c0);
      SavedHolder(doc, Migrated(text, c0));
      assert toml.ParsesToTable(text);
      assert toml.RoundTrips(text, SavedDoc(doc, Migrated(text, c0)));
      RetiredIsGone(SavedDoc(doc, Migrated(text, c0)));
    } else {
      RetiredIsGone(doc);
    }
  }

  lemma HolderIs(doc: Item)
    requires Get(doc, ["appearance"]).Some? && Get(doc, ["appearance"]).value.Table? && doc.Table?
    ensures HOLDER in doc.entries && doc.entries[HOLDER].Table?
  {
    assert ["appearance"][1..] == [];
  }

  lemma SavedHolder(doc: Item, c: Item)
    requires TablesMatch(doc, c) && doc.Table? && c.Table? && HOLDER in doc.entries && doc.entries[HOLDER].Table?
    requires HOLDER in c.entries
    ensures SavedDoc(doc, c).Table? && HOLDER in SavedDoc(doc, c).entries && SavedDoc(doc, c).entries[HOLDER].Table?
  {
    assert TablesMatch(doc.entries[HOLDER], c.entries[HOLDER]);
    assert Merge(doc, c).entries[HOLDER] == Merge(doc.entries[HOLDER], c.entries[HOLDER]);
  }

  lemma RetiredIsGone(doc: Item)
    requires !HasRetired(doc) && doc.Table? && HOLDER in doc.entries && doc.entries[HOLDER].Table?
    ensures Get(doc, ["appearance", "opaque_background"]) == None
  {
    assert ["appearance", "opaque_background"][1..] == ["opaque_background"];
  }

  lemma UnchangedBinds(c: Item)
    requires HasBinds(c)
    ensures WithBinds(c, BindsOf(c)) == c
  {
    assert WithBinds(c, BindsOf(c)).entries[KEYBINDS].entries == c.entries[KEYBINDS].entries;
    assert WithBinds(c, BindsOf(c)).entries == c.entries;
  }

  /** A text that names both new keys and holds no retired one is left alone. */
  lemma NothingToMigrate(toml: Toml, s: Schema, text: string, c: Item, writes: bool)
    requires AppSchema(s) && Parsed(toml, s, text) == Some(c) && !HasRetired(toml.parse(text).value)
    requires Text.Contains(text, "tab_sftp") && Text.Contains(text, "known_hosts")
    ensures Loaded(toml, s, text, writes) == (Some(c), text)
  {
    ParsedIsConfig(toml, s, text);
    UnchangedBinds(c);
  }

  /** What the migrations produce can be saved without leaving anything stale. */
  lemma MigratedSavesCleanly(toml: Toml, s: Schema, text: string, c: Item)
    requires AppSchema(s) && toml.Lawful() && Parsed(toml, s, text) == Some(c)
    ensures HasBinds(c) && MIGRATED <= BindsOf(c).Keys
    ensures IsConfig(s, Migrated(text, c)) && !Stale(s, toml.parse(text).value, Migrated(text, c))
    ensures HasBinds(Migrated(text, c)) && BindsOf(Migrated(text, c)).Keys == s.fields[KEYBINDS].fields.Keys
  {
    ParsedIsConfig(toml, s, text);
    assert toml.ParsesToTable(text);
    ReadIsNotStale(s, toml.parse(text).value, c);
    var binds := HelpMigrated(text, TabsMigrated(text, BindsOf(c)));
    RebindingIsConfig(s, c, binds);
    RebindingIsNotStale(s, toml.parse(text).value, c, binds);
  }

  lemma SavedTextIsMarked(toml: Toml, s: Schema, text: string, doc: Item, c: Item)
    requires toml.Lawful() && toml.parse(text) == Some(doc) && HasBinds(c)
        && {"tab_sftp", "known_hosts"} <= BindsOf(c).Keys
    ensures Text.Contains(SavedText(toml, text, c), "tab_sftp")
    ensures Text.Contains(SavedText(toml, text, c), "known_hosts")
  {
    assert toml.ParsesToTable(text);
    assert Bare("tab_sftp");
    assert Bare("known_hosts");
    SavedTextNamesBinds(toml, s, text, doc, c, "tab_sftp");
    SavedTextNamesBinds(toml, s, text, doc, c, "known_hosts");
  }

  /** After a load whose save, if it needed one, went through, the next load
      returns the same configuration and has no reason to write. */
  lemma LoadSettles(toml: Toml, s: Schema, text: string, writes: bool)
    requires AppSchema(s) && toml.Lawful() && Parsed(toml, s, text).Some?
    ensures Loaded(toml, s, Loaded(toml, s, text, true).1, writes) == Loaded(toml, s, text, true)
  {
    var c0 := Parsed(toml, s, text).value;
    MigratedSavesCleanly(toml, s, text, c0);
    var doc := toml.parse(text).value;
    if MustSave(doc, text, c0) {
      var c := Migrated(text, c0);
      SavedConfigIsRead(toml, s, text, doc, c);
      SavedTextIsMarked(toml, s, text, doc, c);
      NothingToMigrate(toml, s, SavedText(toml, text, c), c, writes);
    }
  }

  // ---------------------------------------------------------------- a user's own keys

  /** Where the document has a table, so has the configuration, if it has anything. */
  ghost predicate TablesMatch(doc: Item, c: Item)
    decreases doc
  {
    doc.Table? ==>
      c.Table? && forall k :: k in doc.entries && k in c.entries ==> TablesMatch(doc.entries[k], c.entries[k])
  }

  lemma {:induction false} ReadMatches(s: Schema, doc: Item, c: Item)
    requires Read(s, Some(doc)) == Is(c)
    ensures TablesMatch(doc, c)
    decreases s
  {
    if doc.Table? {
      forall k | k in doc.entries && k in c.entries ensures TablesMatch(doc.entries[k], c.entries[k]) {
        assert Lookup(doc, k) == Some(doc.entries[k]) && Read(s.fields[k], Lookup(doc, k)) == Is(c.entries[k]);
        ReadMatches(s.fields[k], doc.entries[k], c.entries[k]);
      }
    }
  }

  lemma SpecsAreLeaves(kb: Schema, section: Item)
    requires kb.Section? && forall k :: k in kb.fields ==> kb.fields[k].SpecList?
    requires section.Table? && Read(kb, Some(section)).Is?
    ensures forall k :: k in section.entries && k in kb.fields ==> section.entries[k].Leaf?
  {
    forall k | k in section.entries && k in kb.fields ensures section.entries[k].Leaf? {
      assert !Read(kb.fields[k], Lookup(section, k)).Refused?;
    }
  }

  lemma RebindingMatches(s: Schema, doc: Item, c: Item, binds: Binds)
    requires AppSchema(s) && Read(s, Some(doc)) == Is(c) && HasBinds(c)
    requires binds.Keys == s.fields[KEYBINDS].fields.Keys
    ensures TablesMatch(doc, WithBinds(c, binds))
  {
    ReadMatches(s, doc, c);
    if doc.Table? {
      forall k | k in doc.entries && k in WithBinds(c, binds).entries
        ensures TablesMatch(doc.entries[k], WithBinds(c, binds).entries[k])
      {
        assert Lookup(doc, k) == Some(doc.entries[k]) && k in c.entries;
        if k == KEYBINDS && doc.entries[k].Table? {
          assert !Read(s.fields[k], Lookup(doc, k)).Refused?;
          SpecsAreLeaves(s.fields[k], doc.entries[k]);
        }
      }
    }
  }

  /** The path runs into an inline table of the document at a place the
      configuration writes. */
  ghost predicate InsideInline(doc: Item, c: Item, path: seq<string>)
    decreases |path|
  {
    path != []
    && if doc.Leaf? then doc.value.Inline?
       else c.Table? && path[0] in doc.entries && path[0] in c.entries
            && InsideInline(doc.entries[path[0]], c.entries[path[0]], path[1..])
  }

  lemma {:induction false} ReplacedIsInside(doc: Item, c: Item, path: seq<string>)
    requires TablesMatch(doc, c) && Get(c, path).None? && Get(doc, path).Some?
    ensures Replaced(doc, c, path) <==> InsideInline(doc, c, path)
    decreases |path|
  {
    if doc.Table? && path[0] in doc.entries && path[0] in c.entries {
      ReplacedIsInside(doc.entries[path[0]], c.entries[path[0]], path[1..]);
    }
  }

  /** Of the keys the configuration does not have, the retired one aside, a load
      loses exactly those in an inline table where it writes, when it rewrites the
      file. */
  lemma LoadKeepsTheRest(toml: Toml, s: Schema, text: string, writes: bool, path: seq<string>)
    requires AppSchema(s) && toml.Lawful() && Parsed(toml, s, text).Some?
    requires Get(Loaded(toml, s, text, writes).0.value, path).None? && !([HOLDER, RETIRED] <= path)
    ensures toml.parse(Loaded(toml, s, text, writes).1).Some?
    ensures var doc, c := toml.parse(text).value, Loaded(toml, s, text, writes).0.value;
            Get(toml.parse(Loaded(toml, s, text, writes).1).value, path) ==
            if Rewrites(toml, s, text) && writes && InsideInline(doc, c, path) then None else Get(doc, path)
  {
    var c0 := Parsed(toml, s, text).value;
    ParsedIsConfig(toml, s, text);
    if Rewrites(toml, s, text) && writes {
      MigratedMatches(toml, s, text, c0);
      SavedDocKeepsTheRest(toml.parse(text).value, Migrated(text, c0), path);
      assert toml.ParsesToTable(text);
      assert toml.RoundTrips(text, SavedDoc(toml.parse(text).value, Migrated(text, c0)));
    }
  }

  lemma MigratedMatches(toml: Toml, s: Schema, text: string, c0: Item)
    requires AppSchema(s) && toml.Lawful() && Parsed(toml, s, text) == Some(c0)
    ensures HasBinds(c0) && MIGRATED <= BindsOf(c0).Keys
    ensures TablesMatch(toml.parse(text).value, Migrated(text, c0)) && HOLDER in Migrated(text, c0).entries
  {
    ParsedIsConfig(toml, s, text);
    AppearanceIsWritten(s, c0);
    RebindingMatches(s, toml.parse(text).value, c0, HelpMigrated(text, TabsMigrated(text, BindsOf(c0))));
  }

  lemma SavedDocKeepsTheRest(doc: Item, c: Item, path: seq<string>)
    requires TablesMatch(doc, c) && c.Table? && HOLDER in c.entries
    requires Get(c, path).None? && !([HOLDER, RETIRED] <= path)
    ensures Get(SavedDoc(doc, c), path) == if InsideInline(doc, c, path) then None else Get(doc, path)
  {
    UntouchedStays(doc, c, path);
    if Get(doc, path).Some? {
      ReplacedIsInside(doc, c, path);
    }
    assert path != [HOLDER];
    DropKeepsTheRest(Merge(doc, c), path);
  }

  lemma AppearanceIsWritten(s: Schema, c: Item)
    requires AppSchema(s) && IsConfig(s, c)
    ensures c.Table? && HOLDER in c.entries
  {
  }

  lemma DropKeepsTheRest(doc: Item, path: seq<string>)
    requires path != [] && path != [HOLDER] && !([HOLDER, RETIRED] <= path)
    ensures Get(DropRetired(doc), path) == Get(doc, path)
  {
  }
}
