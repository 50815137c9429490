/** What the keys reported as applied do: when they take effect, and the ways they do not. */
module ConfigReports {
  import opened Wrappers
  import opened ConfigMerge
  import opened ConfigReader
  import opened ProjectConfig

  lemma AppliedPath(names: set<string>, project: Value, key: Key, path: Key)
    requires Applies(names, true, project, key) && key <= path
    ensures path != [] && path != ["aishe"]
  {
  }

  lemma SelectableIsText(schema: Schema, config: Value, path: Key, wanted: Value)
    requires Configured(schema, config) && Part(schema.root, path).Some?
    requires |path| >= 2 && path[..2] in {CONNECTION, PROVIDER}
    ensures path == path[..2]
    ensures Made(schema.root, path, wanted).Some? ==> Made(schema.root, path, wanted).value == wanted
  {
    AisheTextPart(schema, config, path[1]);
    PartBelow(schema.root, path[..2], path[2..]);
    assert path == path[..2] + path[2..];
  }

  /** A selected connection puts another value where the project gave one. */
  predicate Overwritten(config: Value, project: Value, trusted: bool, path: Key, wanted: Value) {
    match Selection(config, project, trusted)
    case None => false
    case Some(id) =>
      || (path == CONNECTION && wanted != Str(id))
      || (path == PROVIDER && Some(wanted) != ConnectionProvider(config, id))
  }

  /** A plain value at or below a key reported as applied takes effect exactly when the merge reads back, the program
      knows the place, and no selected connection overwrites it. Where the merge does not read back, only what stood
      there before does. */
  lemma ReportedTakesEffect(schema: Schema, config: Value, project: Value, trusted: bool, key: Key, path: Key,
                            wanted: Value)
    requires Configured(schema, config) && project.Table? && Applies(Names(config), trusted, project, key)
    requires key <= path && Lookup(project, path) == Some(wanted) && !wanted.Table?
    ensures var made := Made(schema.root, path, wanted);
            made.Some? && Lookup(AfterMerge(schema, config, project, trusted), path) == made
            <==> if ReadBack(schema, config, project, trusted).Some?
                 then Part(schema.root, path).Some? && !Overwritten(config, project, trusted, path, wanted)
                 else made.Some? && Lookup(config, path) == made
  {
    hide Configured, Lookup, Applies, Names, ReadBack, Read, NormalConnection;
    AfterIs(schema, config, project, trusted);
    var back := ReadBack(schema, config, project, trusted);
    if back.Some? && Part(schema.root, path).Some? {
      ReadBackAt(schema, config, project, trusted, key, path, wanted);
      var selection := Selection(config, project, trusted);
      if selection.Some? {
        AppliedPath(Names(config), project, key, path);
        BackIsConfigured(schema, config, project, trusted);
        var provider := ConnectionProvider(config, selection.value).value;
        SelectedAt(schema, back.value, selection.value, provider, path);
        if |path| >= 2 && path[..2] in {CONNECTION, PROVIDER} {
          SelectableIsText(schema, config, path, wanted);
        }
        PlainHasNothingBelow(provider, path);
        PlainHasNothingBelow(Str(selection.value), path);
      }
    }
  }

  /** What an untrusted project may set takes effect wherever the merge reads back and the program knows the place. */
  lemma HarmlessTakesEffect(schema: Schema, config: Value, project: Value, key: Key, path: Key, wanted: Value)
    requires Configured(schema, config) && project.Table? && ReadBack(schema, config, project, false).Some?
    requires Lookup(project, key).Some? && Harmless(Names(config), key, Lookup(project, key).value)
    requires key <= path && Lookup(project, path) == Some(wanted) && !wanted.Table?
    requires Part(schema.root, path).Some?
    ensures Lookup(AfterMerge(schema, config, project, false), path) == Made(schema.root, path, wanted)
    ensures Made(schema.root, path, wanted).Some?
  {
    hide Configured, Lookup, Harmless, Names, ReadBack, Read, Applies, AfterMerge, Made;
    AppliesExactly(Names(config), false, project, key);
    ReportedTakesEffect(schema, config, project, false, key, path, wanted);
  }

  /** A configuration that cannot be printed as a table is left as it is, whatever is reported. */
  lemma UnprintableIsLeft(schema: Schema, config: Value, project: Value, trusted: bool)
    requires project.Table? && !schema.prints(config)
    ensures AfterMerge(schema, config, project, trusted) == config
  {
    hide Overlay;
  }

  /** One value the program cannot read takes every other key of the project down with it, reported or not. */
  lemma RefusedValueSpoilsAll(schema: Schema, config: Value, project: Value, trusted: bool, key: Key, path: Key,
                              wanted: Value)
    requires Configured(schema, config) && project.Table? && Applies(Names(config), trusted, project, key)
    requires key <= path && Lookup(project, path) == Some(wanted) && !wanted.Table?
    requires Part(schema.root, path).Some? && Made(schema.root, path, wanted).None?
    ensures AfterMerge(schema, config, project, trusted) == config
  {
    hide Configured, Lookup, Applies, Names, ReadBack, Made;
    AfterIs(schema, config, project, trusted);
    if ReadBack(schema, config, project, trusted).Some? {
      ReadBackAt(schema, config, project, trusted, key, path, wanted);
      assert false;
    }
  }

  // ----- projects that only set aishe keys -----

  function AisheOnly(fields: map<string, Value>): Value {
    Table(map["aishe" := Table(fields)])
  }

  /** Plain values, each of which the project may set. */
  predicate PlainGrants(fields: map<string, Value>, trusted: bool) {
    && fields != map[]
    && forall name <- fields :: !fields[name].Table? && (trusted || !AisheKeyIsSensitive(name, fields[name]))
  }

  lemma AisheOnlyOverlay(names: set<string>, fields: map<string, Value>, trusted: bool)
    requires PlainGrants(fields, trusted)
    ensures Overlay(names, AisheOnly(fields), trusted) == AisheOnly(fields)
    ensures forall name <- fields :: Applies(names, trusted, AisheOnly(fields), ["aishe", name])
  {
    hide AisheKeyIsSensitive;
    var project := AisheOnly(fields);
    assert Section(project, "aishe") == fields;
    assert AisheOverlay(fields, trusted) == fields;
    assert Section(project, "providers") == map[] && Section(project, "connections") == map[];
    assert ProvidersOverlay(map[], trusted) == map[] && ConnectionsOverlay(map[], names) == map[];
    assert WholeTables(project, trusted) == map[];
    forall name | name in fields ensures Applies(names, trusted, project, ["aishe", name]) {
      LookupUnfolds(project, ["aishe", name]);
    }
  }

  lemma PlainIsMerged(base: Value, fields: map<string, Value>)
    requires base.Table? && forall name <- fields :: !fields[name].Table?
    ensures Merged(base, Table(fields)) == Table(base.fields + fields)
  {
    assert Merged(base, Table(fields)).fields == base.fields + fields;
  }

  /** The fields of a record that are read from what a project gives. */
  function Taken(shape: Shape, fields: map<string, Value>): map<string, Value>
    requires shape.Record?
  {
    map name | name in fields && name in shape.fields && Read(shape.fields[name].shape, fields[name]).Some?
      :: Read(shape.fields[name].shape, fields[name]).value
  }

  predicate AllRead(shape: Shape, fields: map<string, Value>)
    requires shape.Record?
  {
    forall name <- fields :: name in shape.fields ==> Read(shape.fields[name].shape, fields[name]).Some?
  }

  lemma RecordTakes(shape: Shape, value: Value, fields: map<string, Value>)
    requires shape.Record? && Sound(shape) && Holds(shape, value)
    requires forall name <- fields :: !fields[name].Table?
    ensures Read(shape, Merged(Shown(shape, value), Table(fields)))
            == if AllRead(shape, fields) then Some(Table(value.fields + Taken(shape, fields))) else None
  {
    hide Merged, Sound;
    TableIsHeld(shape, value);
    PlainIsMerged(Shown(shape, value), fields);
    var merged := Table(Shown(shape, value).fields + fields);
    forall name | name in shape.fields
      ensures ReadField(shape.fields[name], merged.fields, name)
              == if name in fields then
                   (if name in Taken(shape, fields) then Got(Taken(shape, fields)[name]) else Refused)
                 else if name in value.fields then Got(value.fields[name]) else Nothing
    {
      FieldReadsBack(shape, value, name);
    }
    if AllRead(shape, fields) {
      assert (value.fields + Taken(shape, fields)).Keys <= shape.fields.Keys;
      RecordIsRead(shape, merged, value.fields + Taken(shape, fields));
    } else {
      var name :| name in fields && name in shape.fields && Read(shape.fields[name].shape, fields[name]).None?;
      assert ReadField(shape.fields[name], merged.fields, name).Refused?;
    }
  }

  /** A project of plain aishe keys: what its known keys say replaces what was there, unknown keys are ignored, and
      one value that cannot be read stops the whole. */
  lemma AisheOnlyReadsBack(schema: Schema, config: Value, fields: map<string, Value>, trusted: bool)
    requires Configured(schema, config) && schema.prints(config) && PlainGrants(fields, trusted)
    ensures schema.root.Record? && IsRecord(schema.root.fields, "aishe") && config.Table? && "aishe" in config.fields
    ensures config.fields["aishe"].Table?
    ensures var shape := schema.root.fields["aishe"].shape;
            ReadBack(schema, config, AisheOnly(fields), trusted) ==
            if AllRead(shape, fields)
            then Some(Table(config.fields["aishe" := Table(config.fields["aishe"].fields + Taken(shape, fields))]))
            else None
  {
    hide Holds, Overlay, Merged, Read, Sound, AllRead, Taken, Framed;
    AisheIsATable(schema, config);
    RootIsRecord(schema, config);
    FieldIsHeld(schema.root, config, "aishe");
    AisheOnlyOverlay(Names(config), fields, trusted);
    var root, shape, value := schema.root, schema.root.fields["aishe"].shape, config.fields["aishe"];
    var shown := Shown(root, config);
    var merged := Merged(shown, AisheOnly(fields));
    RecordTakes(shape, value, fields);
    AisheIsShown(schema, config);
    MergedFieldOf(shown, AisheOnly(fields), "aishe");
    if AllRead(shape, fields) {
      AisheIsReplaced(root, config, fields, Table(value.fields + Taken(shape, fields)));
    } else {
      OneRefused(root, merged, "aishe");
    }
  }

  lemma AisheIsReplaced(root: Shape, config: Value, fields: map<string, Value>, value: Value)
    requires root.Record? && Sound(root) && Holds(root, config) && config.Table?
    requires "aishe" in root.fields && "aishe" in config.fields
    requires ReadField(root.fields["aishe"], Merged(Shown(root, config), AisheOnly(fields)).fields, "aishe")
             == Got(value)
    ensures Read(root, Merged(Shown(root, config), AisheOnly(fields))) == Some(Table(config.fields["aishe" := value]))
  {
    hide Sound, Merged, ReadField, Read;
    var merged := Merged(Shown(root, config), AisheOnly(fields));
    forall name | name in root.fields && name != "aishe"
      ensures ReadField(root.fields[name], merged.fields, name)
              == if name in config.fields then Got(config.fields[name]) else Nothing
    {
      OtherIsRead(root, config, fields, name);
    }
    KeysAreKnown(root, config);
    RecordIsRead(root, merged, config.fields["aishe" := value]);
  }

  lemma OtherIsRead(root: Shape, config: Value, fields: map<string, Value>, name: string)
    requires root.Record? && Sound(root) && Holds(root, config) && name in root.fields && name != "aishe"
    ensures config.Table?
    ensures ReadField(root.fields[name], Merged(Shown(root, config), AisheOnly(fields)).fields, name)
            == if name in config.fields then Got(config.fields[name]) else Nothing
  {
    hide Sound, Merged;
    TableIsHeld(root, config);
    MergedFieldOf(Shown(root, config), AisheOnly(fields), name);
    FieldReadsBack(root, config, name);
  }

  lemma KeysAreKnown(shape: Shape, value: Value)
    requires shape.Record? && Holds(shape, value)
    ensures value.Table? && value.fields.Keys <= shape.fields.Keys
  {
  }

  lemma OneRefused(shape: Shape, value: Value, name: string)
    requires shape.Record? && value.Table? && name in shape.fields
    requires ReadField(shape.fields[name], value.fields, name).Refused?
    ensures Read(shape, value) == None
  {
  }

  /** Printing never leaves the aishe table out. */
  lemma AisheIsShown(schema: Schema, config: Value)
    requires Configured(schema, config) && "aishe" in schema.root.fields && config.Table? && "aishe" in config.fields
    ensures "aishe" in Shown(schema.root, config).fields
    ensures Shown(schema.root, config).fields["aishe"]
            == Shown(schema.root.fields["aishe"].shape, config.fields["aishe"])
  {
    assert SoundField(schema.root.fields["aishe"]);
    FieldIsHeld(schema.root, config, "aishe");
  }

  // ----- three ways a reported key has no effect, and one unreported change -----

  /** A mode that is not text is reported as applied and changes nothing. */
  lemma UnreadableMergeIsReported(schema: Schema, config: Value, trusted: bool)
    requires Configured(schema, config)
    ensures var project := AisheOnly(map["mode" := Scalar(1)]);
            && Applies(Names(config), trusted, project, MODE)
            && AfterMerge(schema, config, project, trusted) == config
  {
    hide Holds, Sound, Overlay, Read;
    var fields := map["mode" := Scalar(1)];
    AisheOnlyOverlay(Names(config), fields, trusted);
    AisheTextPart(schema, config, "mode");
    assert Made(schema.root, MODE, Scalar(1)) == None by {
      TextReads(Scalar(1));
    }
    LookupUnfolds(AisheOnly(fields), MODE);
    assert "mode" in fields;
    RefusedValueSpoilsAll(schema, config, AisheOnly(fields), trusted, MODE, MODE, Scalar(1));
  }

  lemma TextReads(value: Value)
    ensures Read(Shape.Text, value) == if value.Str? then Some(value) else None
  {
  }

  /** A key the program does not know is reported as applied and changes nothing. */
  lemma UnknownKeyIsReported(schema: Schema, config: Value, name: string, value: Value, trusted: bool)
    requires Configured(schema, config) && schema.prints(config)
    requires Part(schema.root, ["aishe", name]).None?
    requires !value.Table? && (trusted || !AisheKeyIsSensitive(name, value))
    ensures var project := AisheOnly(map[name := value]);
            && Applies(Names(config), trusted, project, ["aishe", name])
            && ReadBack(schema, config, project, trusted) == Some(config)
            && AfterMerge(schema, config, project, trusted) == config
  {
    hide Holds, Sound, Overlay, Read, AisheKeyIsSensitive, ReadBack;
    var fields := map[name := value];
    assert PlainGrants(fields, trusted);
    AisheOnlyOverlay(Names(config), fields, trusted);
    AisheOnlyReadsBack(schema, config, fields, trusted);
    AfterIs(schema, config, AisheOnly(fields), trusted);
    UnknownIsNotTaken(schema, config, name, value);
    OtherIsNotSelected(schema, config, name, value, trusted);
  }

  lemma UnknownIsNotTaken(schema: Schema, config: Value, name: string, value: Value)
    requires Configured(schema, config) && Part(schema.root, ["aishe", name]).None?
    ensures schema.root.Record? && IsRecord(schema.root.fields, "aishe") && config.Table? && "aishe" in config.fields
    ensures config.fields["aishe"].Table?
    ensures var shape := schema.root.fields["aishe"].shape;
            AllRead(shape, map[name := value])
            && config.fields["aishe" := Table(config.fields["aishe"].fields + Taken(shape, map[name := value]))]
               == config.fields
  {
    hide Holds, Sound, Read;
    AisheIsATable(schema, config);
    var shape := schema.root.fields["aishe"].shape;
    assert ["aishe", name][1..] == [name] && [name][1..] == [];
    assert name in shape.fields ==> Part(shape, [name]) == Some(shape.fields[name].shape);
    assert Taken(shape, map[name := value]) == map[];
    assert config.fields["aishe"].fields + map[] == config.fields["aishe"].fields;
  }

  lemma OtherIsNotSelected(schema: Schema, config: Value, name: string, value: Value, trusted: bool)
    requires Configured(schema, config) && Part(schema.root, ["aishe", name]).None?
    ensures Selection(config, AisheOnly(map[name := value]), trusted) == None
  {
    hide Configured, Lookup;
    AisheTextPart(schema, config, "connection");
    LookupUnfolds(AisheOnly(map[name := value]), CONNECTION);
  }

  lemma TextsAreRead(schema: Schema, config: Value, fields: map<string, Value>)
    requires Configured(schema, config) && fields.Keys <= {"mode", "provider", "connection"}
    requires forall name <- fields :: fields[name].Str?
    ensures schema.root.Record? && IsRecord(schema.root.fields, "aishe")
    ensures AllRead(schema.root.fields["aishe"].shape, fields)
  {
    hide Holds, Sound;
    var shape := schema.root.fields["aishe"].shape;
    forall name | name in fields ensures name in shape.fields && Read(shape.fields[name].shape, fields[name]).Some? {
      assert IsText(shape.fields, name);
    }
  }

  /** Selecting a known connection puts its provider in place, whatever the project says of the provider. */
  lemma SelectionSetsProvider(schema: Schema, config: Value, fields: map<string, Value>, id: string, provider: Value)
    requires Configured(schema, config) && schema.prints(config)
    requires "connection" in fields && fields.Keys <= {"provider", "connection"}
    requires forall name <- fields :: fields[name].Str?
    requires fields["connection"] == Str(id) && NormalConnection(id) == Some(id)
    requires ConnectionProvider(config, id) == Some(provider)
    ensures ReadBack(schema, config, AisheOnly(fields), true).Some?
    ensures Lookup(AfterMerge(schema, config, AisheOnly(fields), true), PROVIDER) == Some(provider)
  {
    hide Configured, AllRead, NormalConnection, ConnectionProvider, ReadBack, Lookup;
    TextsAreRead(schema, config, fields);
    AisheOnlyReadsBack(schema, config, fields, true);
    LookupUnfolds(AisheOnly(fields), CONNECTION);
    AfterIs(schema, config, AisheOnly(fields), true);
    BackIsConfigured(schema, config, AisheOnly(fields), true);
    SelectedAt(schema, ReadBack(schema, config, AisheOnly(fields), true).value, id, provider, PROVIDER);
    PlainHasNothingBelow(provider, PROVIDER);
  }

  /** A provider reported as applied gives way to the provider of the connection selected along with it. */
  lemma ProviderIsOverwritten(schema: Schema, config: Value, wanted: string, id: string, provider: Value)
    requires Configured(schema, config) && schema.prints(config) && NormalConnection(id) == Some(id)
    requires ConnectionProvider(config, id) == Some(provider) && provider != Str(wanted)
    ensures var project := AisheOnly(map["provider" := Str(wanted), "connection" := Str(id)]);
            && Applies(Names(config), true, project, PROVIDER)
            && ReadBack(schema, config, project, true).Some?
            && Lookup(AfterMerge(schema, config, project, true), PROVIDER) == Some(provider)
  {
    hide Configured, NormalConnection, ConnectionProvider, ReadBack, Lookup, AfterMerge, Applies;
    var fields := map["provider" := Str(wanted), "connection" := Str(id)];
    assert "provider" in fields;
    AisheOnlyOverlay(Names(config), fields, true);
    SelectionSetsProvider(schema, config, fields, id, provider);
  }

  /** Selecting a connection of another provider changes the provider, which no report names. */
  lemma ProviderChangesUnreported(schema: Schema, config: Value, id: string, provider: Value)
    requires Configured(schema, config) && schema.prints(config) && NormalConnection(id) == Some(id)
    requires ConnectionProvider(config, id) == Some(provider) && Lookup(config, PROVIDER) != Some(provider)
    ensures var project := AisheOnly(map["connection" := Str(id)]);
            && (forall key :: Applies(Names(config), true, project, key) ==> key == CONNECTION)
            && Lookup(AfterMerge(schema, config, project, true), PROVIDER) == Some(provider)
  {
    hide Configured, NormalConnection, ConnectionProvider, ReadBack, AfterMerge;
    var fields := map["connection" := Str(id)];
    SelectionSetsProvider(schema, config, fields, id, provider);
    forall key | Applies(Names(config), true, AisheOnly(fields), key) ensures key == CONNECTION {
      LookupUnfolds(AisheOnly(fields), key);
    }
  }
}
