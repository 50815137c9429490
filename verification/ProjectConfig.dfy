/** The configuration a project's table leaves: what is merged, read back and selected, and what that changes. */
module ProjectConfig {
  import opened Wrappers
  import opened Text
  import opened ConfigMerge
  import opened ConfigReader

  /** How the program reads its configuration, and which configurations can be printed as a table. */
  datatype Schema = Schema(root: Shape, prints: Value -> bool)

  const MODE := ["aishe", "mode"]
  const PROVIDER := ["aishe", "provider"]
  const CONNECTION := ["aishe", "connection"]

  predicate IsText(fields: map<string, Field>, name: string) {
    name in fields && fields[name].shape.Text? && !fields[name].absent.Missing?
  }

  predicate IsRecord(fields: map<string, Field>, name: string) {
    name in fields && fields[name].shape.Record?
  }

  /** What the merge needs to know of the program's configuration. */
  ghost predicate Framed(root: Shape) {
    && Sound(root) && root.Record?
    && IsRecord(root.fields, "aishe")
    && (forall name <- {"mode", "provider", "connection"} :: IsText(root.fields["aishe"].shape.fields, name))
    && IsRecord(root.fields, "providers")
    && (forall name <- root.fields["providers"].shape.fields :: IsRecord(root.fields["providers"].shape.fields, name))
    && "connections" in root.fields && root.fields["connections"].shape.Dict?
    && root.fields["connections"].shape.entries.Record?
    && IsText(root.fields["connections"].shape.entries.fields, "provider")
  }

  ghost predicate Configured(schema: Schema, config: Value) {
    Framed(schema.root) && Holds(schema.root, config)
  }

  // ----- connections -----

  function Names(config: Value): set<string> {
    Section(config, "connections").Keys
  }

  function ConnectionProvider(config: Value, id: string): Option<Value> {
    Lookup(config, ["connections", id, "provider"])
  }

  function Dashed(s: string): string {
    seq(|s|, i requires 0 <= i < |s| => if s[i] in {' ', '_'} then '-' else s[i])
  }

  /** normalize_connection_id: at most 64 lowercase letters, digits and single inner hyphens. */
  function NormalConnection(value: string): Option<string> {
    var id := Dashed(Lower(Trim(value)));
    if 0 < |id| <= 64
       && (forall c <- id :: 'a' <= c <= 'z' || IsDigit(c) || c == '-')
       && id[0] != '-' && id[|id| - 1] != '-'
       && (forall i :: 0 < i < |id| ==> id[i - 1] != '-' || id[i] != '-')
    then Some(id) else None
  }

  function WithAishe(config: Value, name: string, value: Value): Value {
    if config.Table? then
      Table(config.fields["aishe" := Table(Section(config, "aishe")[name := value])])
    else config
  }

  /** select_connection: a known connection is named, and its provider with it; an unknown one changes nothing. */
  function Select(config: Value, value: string): Value {
    match NormalConnection(value)
    case None => config
    case Some(id) => (
      match ConnectionProvider(config, id)
      case None => config
      case Some(provider) => WithAishe(WithAishe(config, "provider", provider), "connection", Str(id)))
  }

  // ----- the merge -----

  function Show(schema: Schema, config: Value): Option<Value> {
    if schema.prints(config) then Some(Shown(schema.root, config)) else None
  }

  /** The configuration read back from the merged table, where the old one can be printed. */
  function ReadBack(schema: Schema, config: Value, project: Value, trusted: bool): Option<Value>
    requires project.Table?
  {
    match Show(schema, config)
    case Some(Table(fields)) => Read(schema.root, Merged(Table(fields), Overlay(Names(config), project, trusted)))
    case _ => None
  }

  function AfterMerge(schema: Schema, config: Value, project: Value, trusted: bool): Value
    requires project.Table?
  {
    var overlay := Overlay(Names(config), project, trusted);
    if overlay.fields == map[] then config
    else match ReadBack(schema, config, project, trusted)
      case None => config
      case Some(merged) => (
        match Lookup(overlay, CONNECTION)
        case Some(Str(id)) => Select(merged, id)
        case _ => merged)
  }

  class Configuration {
    var config: Value
    const schema: Schema

    constructor (config: Value, schema: Schema)
      ensures this.config == config && this.schema == schema
    {
      this.config := config;
      this.schema := schema;
    }

    /** merge_project_table */
    method MergeProjectTable(project: Value, trusted: bool) returns (applied: set<Key>, deferred: set<Key>)
      requires project.Table?
      modifies this`config
      ensures config == AfterMerge(schema, old(config), project, trusted)
      ensures forall key :: key in applied <==> Applies(Names(old(config)), trusted, project, key)
      ensures forall key :: key in deferred <==> Defers(Names(old(config)), trusted, project, key)
    {
      hide Applies, Defers, Overlay, Read, Select;
      var overlay;
      overlay, applied, deferred := BuildOverlay(Names(config), project, trusted);
      if overlay.fields != map[] {
        var base := Show(schema, config);
        if base.Some? && base.value.Table? {
          var table := DeepMerge(base.value, overlay);
          var merged := Read(schema.root, table);
          if merged.Some? {
            config := merged.value;
            var connection := Lookup(overlay, CONNECTION);
            if connection.Some? && connection.value.Str? {
              config := Select(config, connection.value.text);
            }
          }
        }
      }
    }
  }

  // ----- what the merge spares -----

  lemma AisheIsSpared(fields: map<string, Value>, trusted: bool, shape: Shape, value: Value, path: Key)
    requires path != [] && path[0] == "aishe" && AisheOverlay(fields, trusted) != map[]
    requires shape.Record? && value.Table?
    requires forall key :: AisheKey(fields, trusted, true, key) ==> !Comparable(key, path)
    ensures Spares(shape, value, Table(AisheOverlay(fields, trusted)), path[1..])
  {
    hide AisheKeyIsSensitive;
    var overlay := AisheOverlay(fields, trusted);
    if |path| == 1 {
      var name :| name in overlay;
      var key := ["aishe", name];
      if AisheKey(fields, trusted, true, key) {
        assert false;
      }
    } else if path[1] in overlay {
      var key := path[..2];
      if AisheKey(fields, trusted, true, key) {
        assert false;
      }
    }
  }

  /** The key is an entry of a table of the section. */
  ghost predicate EntryKey(section: string, overlay: map<string, Value>, key: Key) {
    && |key| == 3 && key[0] == section && key[1] in overlay && overlay[key[1]].Table?
    && key[2] in overlay[key[1]].fields
  }

  ghost predicate TablesOnly(overlay: map<string, Value>) {
    forall name <- overlay :: overlay[name].Table? && overlay[name].fields != map[]
  }

  /** The part of a section that holds the table `name`. */
  predicate HoldsTable(shape: Shape, value: Value, name: string) {
    && value.Table?
    && match shape
       case Record(fields, _) =>
         name in fields ==> fields[name].shape.Record? && name in value.fields && value.fields[name].Table?
       case Dict(entries) => entries.Record? && name in value.fields && value.fields[name].Table?
       case _ => false
  }

  lemma TablesAreSpared(section: string, overlay: map<string, Value>, shape: Shape, value: Value, path: Key)
    requires path != [] && path[0] == section && overlay != map[] && TablesOnly(overlay)
    requires forall name <- overlay :: HoldsTable(shape, value, name)
    requires forall key :: EntryKey(section, overlay, key) ==> !Comparable(key, path)
    ensures Spares(shape, value, Table(overlay), path[1..])
  {
    if |path| <= 2 && (|path| == 1 || path[1] in overlay) {
      var key := PickKey(section, Table(overlay), path);
      assert EntryKey(section, overlay, key);
      assert false;
    }
    var name :| name in overlay;
    assert HoldsTable(shape, value, name);
    if path[1] in overlay {
      assert HoldsTable(shape, value, path[1]);
      var inner := overlay[path[1]];
      if path[2] in inner.fields {
        assert path[..3] == [section, path[1], path[2]];
        assert EntryKey(section, overlay, path[..3]) && Comparable(path[..3], path);
        assert false;
      }
      assert path[1..][0] == path[1] && path[1..][1..] == path[2..];
    }
  }

  lemma ProvidersAreTables(schema: Schema, config: Value, name: string)
    requires Configured(schema, config)
    ensures schema.root.Record? && "providers" in schema.root.fields && schema.root.fields["providers"].shape.Record?
    ensures config.Table? && "providers" in config.fields
    ensures HoldsTable(schema.root.fields["providers"].shape, config.fields["providers"], name)
  {
    hide Sound, Holds;
    var shape := schema.root.fields["providers"].shape;
    FieldIsHeld(schema.root, config, "providers");
    TableIsHeld(shape, config.fields["providers"]);
    if name in shape.fields {
      assert IsRecord(shape.fields, name);
      FieldIsHeld(shape, config.fields["providers"], name);
      TableIsHeld(shape.fields[name].shape, config.fields["providers"].fields[name]);
    }
  }

  lemma ConnectionsAreTables(schema: Schema, config: Value)
    requires Configured(schema, config)
    ensures schema.root.Record? && "connections" in schema.root.fields
    ensures config.Table? && "connections" in config.fields
    ensures forall id <- Names(config) ::
              HoldsTable(schema.root.fields["connections"].shape, config.fields["connections"], id)
  {
    hide Sound;
    FieldIsHeld(schema.root, config, "connections");
    assert Holds(schema.root.fields["connections"].shape, config.fields["connections"]);
  }

  lemma AisheIsATable(schema: Schema, config: Value)
    requires Configured(schema, config)
    ensures schema.root.Record? && "aishe" in schema.root.fields && schema.root.fields["aishe"].shape.Record?
    ensures config.Table? && "aishe" in config.fields && config.fields["aishe"].Table?
    ensures forall name <- {"mode", "provider", "connection"} ::
              name in config.fields["aishe"].fields && config.fields["aishe"].fields[name].Str?
  {
    hide Sound;
    var shape := schema.root.fields["aishe"].shape;
    FieldIsHeld(schema.root, config, "aishe");
    assert Holds(shape, config.fields["aishe"]);
    forall name | name in {"mode", "provider", "connection"}
      ensures name in config.fields["aishe"].fields && config.fields["aishe"].fields[name].Str?
    {
      assert IsText(shape.fields, name);
      FieldIsHeld(shape, config.fields["aishe"], name);
    }
  }

  /** Nothing applied lies above or below `path`. */
  ghost predicate Apart(config: Value, project: Value, trusted: bool, path: Key) {
    forall key :: Applies(Names(config), trusted, project, key) ==> !Comparable(key, path)
  }

  lemma ApartBySection(config: Value, project: Value, trusted: bool, path: Key)
    requires project.Table? && Apart(config, project, trusted, path)
    ensures forall key :: AisheKey(Section(project, "aishe"), trusted, true, key) ==> !Comparable(key, path)
    ensures forall key :: ProviderKey(Section(project, "providers"), trusted, true, key) ==> !Comparable(key, path)
    ensures forall key ::
              ConnectionKey(Section(project, "connections"), Names(config), true, key) ==> !Comparable(key, path)
    ensures forall key :: WholeKey(project, trusted, true, key) ==> !Comparable(key, path)
  {
    hide Applies, Section, AisheKey, ProviderKey, ConnectionKey, WholeKey, Comparable;
    forall key ensures Applies(Names(config), trusted, project, key) <==>
              || AisheKey(Section(project, "aishe"), trusted, true, key)
              || ProviderKey(Section(project, "providers"), trusted, true, key)
              || ConnectionKey(Section(project, "connections"), Names(config), true, key)
              || WholeKey(project, trusted, true, key)
    {
      AppliesBySection(Names(config), trusted, project, key);
    }
  }

  lemma ProvidersAreSpared(schema: Schema, config: Value, project: Value, trusted: bool, path: Key)
    requires Configured(schema, config) && project.Table? && Apart(config, project, trusted, path)
    requires path != [] && path[0] == "providers"
    requires ProvidersOverlay(Section(project, "providers"), trusted) != map[]
    ensures schema.root.Record? && "providers" in schema.root.fields && config.Table? && "providers" in config.fields
    ensures Spares(schema.root.fields["providers"].shape, config.fields["providers"],
                   Table(ProvidersOverlay(Section(project, "providers"), trusted)), path[1..])
  {
    hide ProvidersOverlay, Section, Spares, HoldsTable, ProviderKey, Comparable, EntryKey, TablesOnly, Framed, Holds,
         Apart, Configured;
    ProvidersAreTables(schema, config, "");
    ApartBySection(config, project, trusted, path);
    var shape := schema.root.fields["providers"].shape;
    forall name: string ensures HoldsTable(shape, config.fields["providers"], name) {
      ProvidersAreTables(schema, config, name);
    }
    ProviderEntries(Section(project, "providers"), trusted);
    TablesAreSpared("providers", ProvidersOverlay(Section(project, "providers"), trusted), shape,
                    config.fields["providers"], path);
  }

  lemma ConnectionsAreSpared(schema: Schema, config: Value, project: Value, trusted: bool, path: Key)
    requires Configured(schema, config) && project.Table? && Apart(config, project, trusted, path)
    requires path != [] && path[0] == "connections"
    requires ConnectionsOverlay(Section(project, "connections"), Names(config)) != map[]
    ensures schema.root.Record? && "connections" in schema.root.fields
    ensures config.Table? && "connections" in config.fields
    ensures Spares(schema.root.fields["connections"].shape, config.fields["connections"],
                   Table(ConnectionsOverlay(Section(project, "connections"), Names(config))), path[1..])
  {
    hide ConnectionsOverlay, Section, Spares, HoldsTable, ConnectionKey, Comparable, EntryKey, TablesOnly, Framed,
         Holds, Apart, Configured, Names;
    ConnectionsAreTables(schema, config);
    ApartBySection(config, project, trusted, path);
    ConnectionEntries(Section(project, "connections"), Names(config));
    TablesAreSpared("connections", ConnectionsOverlay(Section(project, "connections"), Names(config)),
                    schema.root.fields["connections"].shape, config.fields["connections"], path);
  }

  lemma SectionIsSpared(schema: Schema, config: Value, project: Value, trusted: bool, path: Key)
    requires Configured(schema, config) && project.Table? && path != [] && Apart(config, project, trusted, path)
    requires schema.root.Record? && path[0] in schema.root.fields
    requires path[0] in Overlay(Names(config), project, trusted).fields
    ensures config.Table? && path[0] in config.fields
    ensures Spares(schema.root.fields[path[0]].shape, config.fields[path[0]],
                   Overlay(Names(config), project, trusted).fields[path[0]], path[1..])
  {
    hide Overlay, AisheOverlay, ProvidersOverlay, ConnectionsOverlay, WholeTables, Section, Spares, AisheKey, WholeKey,
         Apart, Configured, Names, Comparable;
    OverlaySections(Names(config), project, trusted, path[0]);
    if path[0] == "aishe" {
      AisheIsATable(schema, config);
      ApartBySection(config, project, trusted, path);
      AisheIsSpared(Section(project, "aishe"), trusted, schema.root.fields["aishe"].shape, config.fields["aishe"],
                    path);
    } else if path[0] == "providers" {
      ProvidersAreSpared(schema, config, project, trusted, path);
    } else if path[0] == "connections" {
      ConnectionsAreSpared(schema, config, project, trusted, path);
    } else {
      ApartBySection(config, project, trusted, path);
      FirstIsComparable(path);
      WholeIsKey(project, trusted, path[0]);
      assert false;
    }
  }

  lemma ProviderEntries(providers: map<string, Value>, trusted: bool)
    ensures TablesOnly(ProvidersOverlay(providers, trusted))
    ensures forall key :: EntryKey("providers", ProvidersOverlay(providers, trusted), key)
              <==> ProviderKey(providers, trusted, true, key)
  {
    hide ProvidersOverlay;
    ProvidersHave(providers, trusted);
    var overlay := ProvidersOverlay(providers, trusted);
    forall key ensures EntryKey("providers", overlay, key) <==> ProviderKey(providers, trusted, true, key) {
      if |key| == 3 && key[1] in providers && providers[key[1]].Table? {
        EntryIsNonempty(ProviderOverlay(providers[key[1]].fields, trusted), key[2]);
      }
    }
  }

  lemma EntryIsNonempty(fields: map<string, Value>, name: string)
    ensures name in fields ==> fields != map[]
  {
  }

  lemma ConnectionEntries(connections: map<string, Value>, names: set<string>)
    ensures TablesOnly(ConnectionsOverlay(connections, names)) && ConnectionsOverlay(connections, names).Keys <= names
    ensures forall key :: EntryKey("connections", ConnectionsOverlay(connections, names), key)
              <==> ConnectionKey(connections, names, true, key)
  {
    hide ConnectionsOverlay;
    ConnectionsHave(connections, names);
    var overlay := ConnectionsOverlay(connections, names);
    forall key ensures EntryKey("connections", overlay, key) <==> ConnectionKey(connections, names, true, key) {
      if |key| == 3 && key[1] in connections && connections[key[1]].Table? {
        EntryIsNonempty(ConnectionOverlay(connections[key[1]].fields), key[2]);
      }
    }
  }

  lemma WholeIsKey(project: Value, trusted: bool, name: string)
    requires project.Table? && name in WholeTables(project, trusted)
    ensures WholeKey(project, trusted, true, [name])
  {
  }

  /** What does not lie above or below an applied key stands in the configuration read back as it did before. */
  lemma ApartIsKept(schema: Schema, config: Value, project: Value, trusted: bool, path: Key)
    requires Configured(schema, config) && project.Table? && path != [] && Apart(config, project, trusted, path)
    requires ReadBack(schema, config, project, trusted).Some?
    ensures Lookup(ReadBack(schema, config, project, trusted).value, path) == Lookup(config, path)
  {
    hide Overlay, Apart, Read, Sound, Framed, Merged, MergedField, Lookup, Shown;
    var overlay := Overlay(Names(config), project, trusted);
    RootIsRecord(schema, config);
    if path[0] in schema.root.fields && path[0] in overlay.fields {
      SectionIsSpared(schema, config, project, trusted, path);
    }
    assert Spares(schema.root, config, overlay, path);
    SparedIsKept(schema.root, config, overlay, path);
  }

  lemma RootIsRecord(schema: Schema, config: Value)
    requires Configured(schema, config)
    ensures schema.root.Record? && Sound(schema.root) && config.Table?
  {
  }

  // ----- the selected connection -----

  /** The known connection a trusted project selects. */
  function Selection(config: Value, project: Value, trusted: bool): Option<string> {
    if !trusted then None
    else match Lookup(project, CONNECTION)
      case Some(Str(value)) => (
        match NormalConnection(value)
        case Some(id) => if ConnectionProvider(config, id).Some? then Some(id) else None
        case None => None)
      case _ => None
  }

  function Selected(config: Value, id: string, provider: Value): Value {
    WithAishe(WithAishe(config, "provider", provider), "connection", Str(id))
  }

  lemma ConnectionIsOverlaid(names: set<string>, project: Value, trusted: bool)
    requires project.Table?
    ensures Lookup(Overlay(names, project, trusted), CONNECTION)
            == if trusted then Lookup(project, CONNECTION) else None
  {
    hide Overlay, Section;
    SectionsOfOverlay(names, project, trusted);
    LookupUnfolds(project, CONNECTION);
    LookupUnfolds(Overlay(names, project, trusted), CONNECTION);
  }

  lemma ProvidersStay(schema: Schema, config: Value, project: Value, trusted: bool, id: string)
    requires Configured(schema, config) && project.Table? && ReadBack(schema, config, project, trusted).Some?
    ensures ConnectionProvider(ReadBack(schema, config, project, trusted).value, id) == ConnectionProvider(config, id)
  {
    hide ReadBack, Lookup, Configured, Applies, Comparable, Names;
    var key := ["connections", id, "provider"];
    NeverImportedIsApart(Names(config), project, trusted, key, []);
    assert key + [] == key;
    ApartIsKept(schema, config, project, trusted, key);
  }

  lemma MergedWithNothing(base: Value)
    requires base.Table?
    ensures Merged(base, Table(map[])) == base
  {
    assert Merged(base, Table(map[])).fields == base.fields;
  }

  /** The configuration afterwards: the one read back, with the selection's two fields on top. */
  lemma AfterIs(schema: Schema, config: Value, project: Value, trusted: bool)
    requires Configured(schema, config) && project.Table?
    ensures AfterMerge(schema, config, project, trusted) ==
            match ReadBack(schema, config, project, trusted)
            case None => config
            case Some(merged) => (
              match Selection(config, project, trusted)
              case None => merged
              case Some(id) => Selected(merged, id, ConnectionProvider(config, id).value))
  {
    hide Overlay, Read, Shown, Lookup, Merged, MergedField, ConnectionProvider, NormalConnection, WithAishe, Names,
         Framed, Holds, Sound;
    var overlay := Overlay(Names(config), project, trusted);
    ConnectionIsOverlaid(Names(config), project, trusted);
    RootIsRecord(schema, config);
    if overlay.fields == map[] {
      ShownReadsBack(schema.root, config);
      MergedWithNothing(Shown(schema.root, config));
      assert Table(Shown(schema.root, config).fields) == Shown(schema.root, config);
      assert overlay == Table(map[]);
      NothingStandsInNothing();
    } else if ReadBack(schema, config, project, trusted).Some? {
      forall id: string ensures ConnectionProvider(ReadBack(schema, config, project, trusted).value, id)
                        == ConnectionProvider(config, id)
      {
        ProvidersStay(schema, config, project, trusted, id);
      }
    }
  }

  lemma NothingStandsInNothing()
    ensures Lookup(Table(map[]), CONNECTION) == None
  {
  }

  lemma LookupWithAishe(config: Value, name: string, value: Value, path: Key)
    requires config.Table? && "aishe" in config.fields && config.fields["aishe"].Table? && path != []
    requires path != ["aishe"]
    ensures Lookup(WithAishe(config, name, value), path)
            == if |path| >= 2 && path[0] == "aishe" && path[1] == name then Lookup(value, path[2..])
               else Lookup(config, path)
  {
    if path[0] == "aishe" {
      assert path[1..][1..] == path[2..];
    }
  }

  // ----- what the merge changes -----

  /** A merge leaves a configuration. */
  lemma StaysAConfiguration(schema: Schema, config: Value, project: Value, trusted: bool)
    requires Configured(schema, config) && project.Table?
    ensures Configured(schema, AfterMerge(schema, config, project, trusted))
  {
    hide Overlay, Read, Shown, Lookup, Merged, MergedField, NormalConnection, WithAishe, Names, ReadBack, Holds, Sound;
    AfterIs(schema, config, project, trusted);
    var back := ReadBack(schema, config, project, trusted);
    if back.Some? {
      BackIsConfigured(schema, config, project, trusted);
      var selection := Selection(config, project, trusted);
      if selection.Some? {
        var provider := ConnectionProvider(config, selection.value).value;
        ProviderIsText(schema, config, selection.value);
        TextIsStored(schema, back.value, "provider", provider);
        TextIsStored(schema, WithAishe(back.value, "provider", provider), "connection", Str(selection.value));
      }
    }
  }

  lemma BackIsConfigured(schema: Schema, config: Value, project: Value, trusted: bool)
    requires Configured(schema, config) && project.Table? && ReadBack(schema, config, project, trusted).Some?
    ensures Configured(schema, ReadBack(schema, config, project, trusted).value)
  {
    hide Overlay, Read, Merged, MergedField, Shown;
    ReadHolds(schema.root, Merged(Shown(schema.root, config), Overlay(Names(config), project, trusted)));
  }

  lemma ProviderIsText(schema: Schema, config: Value, id: string)
    requires Configured(schema, config)
    ensures ConnectionProvider(config, id).Some? <==> id in Names(config)
    ensures ConnectionProvider(config, id).Some? ==> ConnectionProvider(config, id).value.Str?
  {
    hide Holds, Sound, Lookup;
    var path := ["connections", id, "provider"];
    LookupUnfolds(config, path);
    ConnectionsAreTables(schema, config);
    FieldIsHeld(schema.root, config, "connections");
    if id in Names(config) {
      EntryIsHeld(schema.root.fields["connections"].shape, config.fields["connections"], id);
      FieldIsHeld(schema.root.fields["connections"].shape.entries, config.fields["connections"].fields[id], "provider");
      TextIsHeld(config.fields["connections"].fields[id].fields["provider"]);
    }
  }

  lemma TextIsHeld(value: Value)
    ensures Holds(Shape.Text, value) <==> value.Str?
  {
  }

  lemma TextIsStored(schema: Schema, config: Value, name: string, value: Value)
    requires Configured(schema, config) && value.Str? && name in {"mode", "provider", "connection"}
    ensures Configured(schema, WithAishe(config, name, value))
  {
    hide Sound;
    AisheIsATable(schema, config);
    FieldIsHeld(schema.root, config, "aishe");
    var shape := schema.root.fields["aishe"].shape;
    assert IsText(shape.fields, name);
    FieldIsStored(shape, config.fields["aishe"], name, value);
    FieldIsStored(schema.root, config, "aishe", Table(config.fields["aishe"].fields[name := value]));
  }

  /** Exactly what changes apart from the keys applied: the provider, where a selected connection brings another. */
  lemma ChangesExactly(schema: Schema, config: Value, project: Value, trusted: bool, path: Key)
    requires Configured(schema, config) && project.Table? && path != [] && Apart(config, project, trusted, path)
    ensures Lookup(AfterMerge(schema, config, project, trusted), path) != Lookup(config, path)
            <==> path == PROVIDER && BringsProvider(schema, config, project, trusted)
  {
    hide Configured, ReadBack, Lookup, Overlay, Merged, NormalConnection, WithAishe, Names, Comparable;
    AfterIs(schema, config, project, trusted);
    var back := ReadBack(schema, config, project, trusted);
    if back.Some? {
      ApartIsKept(schema, config, project, trusted, path);
      var selection := Selection(config, project, trusted);
      if selection.Some? {
        ApartFromConnection(config, project, path);
        BackIsConfigured(schema, config, project, trusted);
        SelectedAt(schema, back.value, selection.value, ConnectionProvider(config, selection.value).value, path);
        ProviderIsPlain(schema, config, path);
        ProviderIsText(schema, config, selection.value);
        PlainHasNothingBelow(ConnectionProvider(config, selection.value).value, path);
        assert |path| == 2 ==> path[..2] == path;
      }
    }
  }

  /** The merge succeeds and selects a connection of another provider than the configuration's. */
  predicate BringsProvider(schema: Schema, config: Value, project: Value, trusted: bool)
    requires project.Table?
  {
    && ReadBack(schema, config, project, trusted).Some?
    && Selection(config, project, trusted).Some?
    && ConnectionProvider(config, Selection(config, project, trusted).value) != Lookup(config, PROVIDER)
  }

  lemma ApartFromConnection(config: Value, project: Value, path: Key)
    requires path != [] && Apart(config, project, true, path) && Lookup(project, CONNECTION).Some?
    ensures path != ["aishe"] && (|path| >= 2 ==> path[..2] != CONNECTION)
  {
    hide Lookup, Names;
    assert Applies(Names(config), true, project, CONNECTION);
    assert !Comparable(CONNECTION, path);
  }

  lemma SelectedAt(schema: Schema, config: Value, id: string, provider: Value, path: Key)
    requires Configured(schema, config) && path != [] && path != ["aishe"]
    ensures Lookup(Selected(config, id, provider), path)
            == if |path| >= 2 && path[..2] == CONNECTION then Lookup(Str(id), path[2..])
               else if |path| >= 2 && path[..2] == PROVIDER then Lookup(provider, path[2..])
               else Lookup(config, path)
  {
    hide Configured, Lookup;
    AisheIsATable(schema, config);
    LookupWithAishe(config, "provider", provider, path);
    LookupWithAishe(WithAishe(config, "provider", provider), "connection", Str(id), path);
  }

  lemma {:induction false} LookupBelow(value: Value, a: Key, b: Key)
    ensures Lookup(value, a + b) == if Lookup(value, a).Some? then Lookup(Lookup(value, a).value, b) else None
  {
    if a == [] {
      assert a + b == b;
    } else if value.Table? && a[0] in value.fields {
      assert (a + b)[1..] == a[1..] + b;
      LookupBelow(value.fields[a[0]], a[1..], b);
    }
  }

  lemma ProviderIsPlain(schema: Schema, config: Value, path: Key)
    requires Configured(schema, config)
    ensures |path| > 2 && path[..2] == PROVIDER ==> Lookup(config, path) == None
  {
    hide Configured, Lookup;
    if |path| > 2 && path[..2] == PROVIDER {
      AisheIsATable(schema, config);
      LookupUnfolds(config, PROVIDER);
      assert path == PROVIDER + path[2..];
      LookupBelow(config, PROVIDER, path[2..]);
      assert Lookup(config, PROVIDER).Some? && Lookup(config, PROVIDER).value.Str?;
      assert Lookup(Lookup(config, PROVIDER).value, path[2..]) == None by {
        PlainHasNothingBelow(Lookup(config, PROVIDER).value, path);
      }
    }
  }

  lemma PlainHasNothingBelow(value: Value, path: Key)
    ensures value.Str? && |path| > 2 ==> Lookup(value, path[2..]) == None
    ensures |path| == 2 ==> Lookup(value, path[2..]) == Some(value)
  {
  }

  /** An untrusted project leaves every guarded key of the configuration, and all below it, as it was. */
  lemma UntrustedKeepsGuarded(schema: Schema, config: Value, project: Value, key: Key, below: Key)
    requires Configured(schema, config) && project.Table? && Guarded(Names(config), key)
    ensures Lookup(AfterMerge(schema, config, project, false), key + below) == Lookup(config, key + below)
  {
    hide Configured, Lookup, Guarded, Applies, Comparable;
    GuardedIsApart(Names(config), project, key, below);
    ChangesExactly(schema, config, project, false, key + below);
  }

  /** Not even a trusted project adds a connection or changes the endpoint or the authentication of one. */
  lemma NoProjectImportsSecrets(schema: Schema, config: Value, project: Value, trusted: bool, key: Key, below: Key)
    requires Configured(schema, config) && project.Table? && NeverImported(Names(config), key)
    ensures Lookup(AfterMerge(schema, config, project, trusted), key + below) == Lookup(config, key + below)
  {
    hide Configured, Lookup, Applies, Comparable, BringsProvider, AfterMerge, Names;
    NeverImportedIsApart(Names(config), project, trusted, key, below);
    assert (key + below)[0] == "connections";
    ChangesExactly(schema, config, project, trusted, key + below);
  }

  /** After an untrusted merge the mode is the old one, or a text other than the two that ask for an agent. */
  lemma UntrustedSelectsNoAgent(schema: Schema, config: Value, project: Value)
    requires Configured(schema, config) && project.Table?
    ensures var mode := Lookup(AfterMerge(schema, config, project, false), MODE);
            || mode == Lookup(config, MODE)
            || (mode.Some? && mode.value.Str? && Lower(Trim(mode.value.text)) != "yolo"
                && Lower(Trim(mode.value.text)) != "agent")
  {
    hide Configured, Lookup, Applies, Comparable, Names, ReadBack, Lower, Trim;
    if Applies(Names(config), false, project, MODE) {
      AfterIs(schema, config, project, false);
      ModeIsHarmless(Names(config), project);
      AisheTextPart(schema, config, "mode");
      if ReadBack(schema, config, project, false).Some? {
        if Lookup(project, MODE).value.Table? {
          TableModeIsRefused(schema, config, project);
        } else {
          ReadBackAt(schema, config, project, false, MODE, MODE, Lookup(project, MODE).value);
        }
      }
    } else {
      forall key | Applies(Names(config), false, project, key) ensures !Comparable(key, MODE) {
        if Comparable(key, MODE) {
          OnlyModeTouchesMode(Names(config), project, key);
        }
      }
      ChangesExactly(schema, config, project, false, MODE);
    }
  }

  lemma TableModeIsRefused(schema: Schema, config: Value, project: Value)
    requires Configured(schema, config) && project.Table? && Applies(Names(config), false, project, MODE)
    requires Lookup(project, MODE).Some? && Lookup(project, MODE).value.Table?
    ensures ReadBack(schema, config, project, false) == None
  {
    hide Overlay, Applies, Merged, MergedField, Lookup, Shown, Names;
    RootIsRecord(schema, config);
    AisheTextPart(schema, config, "mode");
    var overlay, shown := Overlay(Names(config), project, false), Shown(schema.root, config);
    AppliedIsOverlaid(Names(config), project, false, MODE);
    MergedAt(shown, overlay, MODE);
    if Read(schema.root, Merged(shown, overlay)).Some? {
      ReadAt(schema.root, Merged(shown, overlay), MODE);
    }
  }

  lemma AisheTextPart(schema: Schema, config: Value, name: string)
    requires Configured(schema, config) && name in {"mode", "provider", "connection"}
    ensures Part(schema.root, ["aishe", name]) == Some(Shape.Text)
  {
    hide Sound, Holds;
    assert IsText(schema.root.fields["aishe"].shape.fields, name);
    assert ["aishe", name][1..] == [name];
    assert [name][1..] == [];
    assert Part(schema.root.fields["aishe"].shape, [name]) == Part(Shape.Text, []);
  }

  /** A plain value at or below an applied key stands in the merged table. */
  lemma WantedIsMerged(names: set<string>, base: Value, project: Value, trusted: bool, key: Key, path: Key)
    requires project.Table? && base.Table? && Applies(names, trusted, project, key) && key <= path
    requires Lookup(project, path).Some? && !Lookup(project, path).value.Table?
    ensures Lookup(Merged(base, Overlay(names, project, trusted)), path) == Lookup(project, path)
  {
    hide Overlay, Applies, Merged, MergedField, Lookup;
    assert path == key + path[|key|..];
    AppliedIsOverlaid(names, project, trusted, key);
    LookupBelow(project, key, path[|key|..]);
    LookupBelow(Overlay(names, project, trusted), key, path[|key|..]);
    MergedAt(base, Overlay(names, project, trusted), path);
  }

  lemma ReadBackAt(schema: Schema, config: Value, project: Value, trusted: bool, key: Key, path: Key, wanted: Value)
    requires Configured(schema, config) && project.Table? && ReadBack(schema, config, project, trusted).Some?
    requires Applies(Names(config), trusted, project, key) && key <= path
    requires Lookup(project, path) == Some(wanted) && !wanted.Table? && Part(schema.root, path).Some?
    ensures Made(schema.root, path, wanted).Some?
    ensures Lookup(ReadBack(schema, config, project, trusted).value, path) == Made(schema.root, path, wanted)
  {
    hide Overlay, Applies, Merged, MergedField, Lookup, Read, Shown, Made;
    var overlay := Overlay(Names(config), project, trusted);
    RootIsRecord(schema, config);
    WantedIsMerged(Names(config), Shown(schema.root, config), project, trusted, key, path);
    ReadAt(schema.root, Merged(Shown(schema.root, config), overlay), path);
  }

  /** Untrusted projects that agree on the keys applied yield the same configuration, whatever else they hold. */
  lemma UntrustedDoesNotInterfere(schema: Schema, config: Value, p: Value, q: Value)
    requires p.Table? && q.Table? && AgreeOnApplied(Names(config), p, q)
    ensures AfterMerge(schema, config, p, false) == AfterMerge(schema, config, q, false)
  {
    hide Overlay, AgreeOnApplied;
    SameOverlay(Names(config), p, q);
  }

  // ----- what a project may set -----

  /** The keys an untrusted project may set, by name. */
  predicate Harmless(names: set<string>, key: Key, value: Value) {
    || (&& |key| == 2 && key[0] == "aishe" && !Guarded(names, key)
        && !(key[1] == "mode" && value.Str?
             && (Lower(Trim(value.text)) == "yolo" || Lower(Trim(value.text)) == "agent")))
    || (|key| == 3 && key[0] == "providers" && key[2] == "model")
    || (&& |key| == 3 && key[0] == "connections" && key[1] in names
        && (key[2] == "model" || key[2] == "reasoning_effort"))
    || (|key| == 1 && (key[0] == "ui" || key[0] == "named_dirs" || key[0] == "pricing"))
  }

  /** The keys that trust adds. */
  predicate NeedsTrust(key: Key) {
    || (|key| == 2 && key[0] == "aishe")
    || (|key| == 3 && key[0] == "providers")
    || (|key| == 1 && (key[0] == "mcp_servers" || key[0] == "logging" || key[0] == "backend" || key[0] == "sandbox"))
  }

  /** A key of the project is applied exactly when it is harmless, or the project is trusted and trust is what it
      needs. */
  lemma AppliesExactly(names: set<string>, trusted: bool, project: Value, key: Key)
    ensures Applies(names, trusted, project, key) <==>
            && Lookup(project, key).Some?
            && (Harmless(names, key, Lookup(project, key).value) || (trusted && NeedsTrust(key)))
  {
    hide Lookup, Lower, Trim;
  }

  /** The keys a report speaks of, one by one. */
  predicate Reportable(names: set<string>, project: Value, key: Key) {
    && Lookup(project, key).Some?
    && (|| (|key| == 2 && key[0] == "aishe")
        || (|key| == 3 && key[0] == "providers")
        || (|key| == 3 && key[0] == "connections" && key[1] in names)
        || (|key| == 2 && key[0] == "connections" && (key[1] !in names || !Lookup(project, key).value.Table?))
        || (|key| == 1 && key[0] in {"ui", "named_dirs", "pricing", "mcp_servers", "logging", "backend", "sandbox"}))
  }

  /** Each of them is reported once: as applied or as deferred, and nothing else is. */
  lemma ReportedOnce(names: set<string>, trusted: bool, project: Value, key: Key)
    ensures Applies(names, trusted, project, key) || Defers(names, trusted, project, key)
            <==> Reportable(names, project, key)
    ensures !(Applies(names, trusted, project, key) && Defers(names, trusted, project, key))
  {
    hide Lookup, AisheKeyIsSensitive;
  }

  // ----- connection names -----

  /** A connection's name as the program writes it. */
  predicate IsConnectionName(id: string) {
    && 0 < |id| <= 64
    && (forall c <- id :: 'a' <= c <= 'z' || '0' <= c <= '9' || c == '-')
    && id[0] != '-' && id[|id| - 1] != '-'
    && forall i :: 0 <= i < |id| - 1 ==> id[i] != '-' || id[i + 1] != '-'
  }

  /** The spellings that stand for one character of a name: either case, and blanks or underscores for hyphens. */
  predicate Spells(c: char, written: char) {
    || c == written
    || ('a' <= c <= 'z' && written as int == c as int - 32)
    || (c == '-' && (written == ' ' || written == '_'))
  }

  predicate SpellsName(id: string, text: string) {
    |text| == |id| && forall i :: 0 <= i < |id| ==> Spells(id[i], text[i])
  }

  /** A text names the connection it spells, and no other. */
  lemma NamesWhatItSpells(value: string, id: string)
    ensures NormalConnection(value) == Some(id) <==> IsConnectionName(id) && SpellsName(id, Trim(value))
  {
    hide Trim;
    var made := Dashed(Lower(Trim(value)));
    if IsConnectionName(id) && SpellsName(id, Trim(value)) {
      assert forall i :: 0 <= i < |id| ==> id[i] in id;
      assert made == id;
    }
    if NormalConnection(value) == Some(id) {
      assert forall i :: 0 <= i < |id| ==> id[i] in id;
    }
  }
}
