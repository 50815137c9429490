/** Merging a project's configuration table over the user's, key by key and by trust. */
module ConfigMerge {
  import opened Wrappers
  import opened Text

  /** A TOML value: a table, a string, or anything else that replaces as a whole. */
  datatype Value = Table(fields: map<string, Value>) | Str(text: string) | Scalar(code: int)

  // ----- deep merge -----

  function Merged(base: Value, overlay: Value): (merged: Value)
    requires base.Table? && overlay.Table?
    ensures merged.Table?
    decreases overlay
  {
    Table(map key | key in base.fields.Keys + overlay.fields.Keys :: key := MergedField(base, overlay, key))
  }

  function MergedField(base: Value, overlay: Value, key: string): Value
    requires base.Table? && overlay.Table? && key in base.fields.Keys + overlay.fields.Keys
    decreases overlay, 0
  {
    if key !in overlay.fields then base.fields[key]
    else if key in base.fields && base.fields[key].Table? && overlay.fields[key].Table? then
      Merged(base.fields[key], overlay.fields[key])
    else overlay.fields[key]
  }

  /** deep_merge: a loop over the overlay's keys that descends where both sides hold a table. */
  method DeepMerge(base: Value, overlay: Value) returns (merged: Value)
    requires base.Table? && overlay.Table?
    ensures merged == Merged(base, overlay)
    decreases overlay
  {
    hide MergedField, Merged;
    var fields := base.fields;
    var keys := overlay.fields.Keys;
    MergedNothing(base, overlay);
    while keys != {}
      invariant keys <= overlay.fields.Keys
      invariant MergedExcept(base, overlay, keys, fields)
      decreases |keys|
    {
      var key :| key in keys;
      keys := keys - {key};
      var value := overlay.fields[key];
      FieldCases(base, overlay, key);
      if key in fields && fields[key].Table? && value.Table? {
        value := DeepMerge(fields[key], value);
      }
      fields := fields[key := value];
    }
    MergedWhole(base, overlay, fields);
    merged := Table(fields);
  }

  ghost predicate MergedExcept(base: Value, overlay: Value, keys: set<string>, fields: map<string, Value>)
    requires base.Table? && overlay.Table? && keys <= overlay.fields.Keys
  {
    && fields.Keys == base.fields.Keys + (overlay.fields.Keys - keys)
    && forall key <- fields :: fields[key] == if key in keys then base.fields[key] else MergedField(base, overlay, key)
  }

  lemma MergedNothing(base: Value, overlay: Value)
    requires base.Table? && overlay.Table?
    ensures MergedExcept(base, overlay, overlay.fields.Keys, base.fields)
  {
  }

  lemma FieldCases(base: Value, overlay: Value, key: string)
    requires base.Table? && overlay.Table? && key in overlay.fields
    ensures MergedField(base, overlay, key) ==
            if key in base.fields && base.fields[key].Table? && overlay.fields[key].Table?
            then Merged(base.fields[key], overlay.fields[key])
            else overlay.fields[key]
  {
  }

  lemma MergedWhole(base: Value, overlay: Value, fields: map<string, Value>)
    requires base.Table? && overlay.Table? && MergedExcept(base, overlay, {}, fields)
    ensures Table(fields) == Merged(base, overlay)
  {
    hide MergedField;
    assert fields == Merged(base, overlay).fields;
  }

  function Lookup(value: Value, path: seq<string>): Option<Value> {
    if path == [] then Some(value)
    else if value.Table? && path[0] in value.fields then Lookup(value.fields[path[0]], path[1..])
    else None
  }

  /** Something other than a table stands on the way to `path`. */
  predicate Blocks(value: Value, path: seq<string>) {
    path != []
    && (!value.Table? || (path[0] in value.fields && Blocks(value.fields[path[0]], path[1..])))
  }

  /** Path by path: what the overlay holds wins, two tables merge, what a plain value replaces is gone, the rest
      stays. */
  lemma {:induction false} MergedAt(base: Value, overlay: Value, path: seq<string>)
    requires base.Table? && overlay.Table?
    ensures Lookup(Merged(base, overlay), path) ==
            match (Lookup(base, path), Lookup(overlay, path))
            case (Some(b), Some(o)) => Some(if b.Table? && o.Table? then Merged(b, o) else o)
            case (None, Some(o)) => Some(o)
            case (_, None) => if Blocks(overlay, path) then None else Lookup(base, path)
  {
    if path != [] && path[0] in base.fields && path[0] in overlay.fields {
      var b, o := base.fields[path[0]], overlay.fields[path[0]];
      if b.Table? && o.Table? {
        MergedAt(b, o, path[1..]);
      }
      NoneIsBlockedOrMissing(o, path[1..]);
    }
  }

  lemma {:induction false} NoneIsBlockedOrMissing(value: Value, path: seq<string>)
    ensures Blocks(value, path) ==> Lookup(value, path).None?
  {
    if path != [] && value.Table? && path[0] in value.fields {
      NoneIsBlockedOrMissing(value.fields[path[0]], path[1..]);
    }
  }

  // ----- trust -----

  /** A key of a project file: its section and names below it. */
  type Key = seq<string>

  const ALWAYS_SENSITIVE :=
    {"provider", "shell_profile", "provider_fallback", "connection", "connection_fallback", "redact_secrets",
     "yolo_confirm", "yolo_confirm_dangerous", "yolo_sandbox", "sandbox_backend", "hook_timeout_secs",
     "semantic_history", "embedding_provider"}

  const CHOICES := {"model", "reasoning_effort"}
  const SAFE_TABLES := {"ui", "named_dirs", "pricing"}
  const GUARDED_TABLES := {"mcp_servers", "logging", "backend", "sandbox"}

  predicate AsksForAgent(value: Value) {
    value.Str? && Lower(Trim(value.text)) in {"yolo", "agent"}
  }

  predicate AisheKeyIsSensitive(key: string, value: Value) {
    key in ALWAYS_SENSITIVE || (key == "mode" && AsksForAgent(value))
  }

  /** The project may set `key` to `value`; `names` are the connections the user has. */
  predicate Granted(names: set<string>, trusted: bool, key: Key, value: Value) {
    || (|key| == 2 && key[0] == "aishe" && (trusted || !AisheKeyIsSensitive(key[1], value)))
    || (|key| == 3 && key[0] == "providers" && (trusted || key[2] == "model"))
    || (|key| == 3 && key[0] == "connections" && key[1] in names && key[2] in CHOICES)
    || (|key| == 1 && (key[0] in SAFE_TABLES || (trusted && key[0] in GUARDED_TABLES)))
  }

  predicate Applies(names: set<string>, trusted: bool, project: Value, key: Key) {
    Lookup(project, key).Some? && Granted(names, trusted, key, Lookup(project, key).value)
  }

  /** Reported and not applied: sensitive keys, and connections the user does not have. */
  predicate Defers(names: set<string>, trusted: bool, project: Value, key: Key) {
    && Lookup(project, key).Some?
    && !Granted(names, trusted, key, Lookup(project, key).value)
    && (|| (|key| == 2 && key[0] == "aishe")
        || (|key| == 3 && key[0] == "providers")
        || (|key| == 3 && key[0] == "connections" && key[1] in names)
        || (|key| == 2 && key[0] == "connections" && (key[1] !in names || !Lookup(project, key).value.Table?))
        || (|key| == 1 && key[0] in GUARDED_TABLES))
  }

  // ----- the overlay -----

  function Section(project: Value, name: string): map<string, Value> {
    if project.Table? && name in project.fields && project.fields[name].Table? then project.fields[name].fields
    else map[]
  }

  function AisheOverlay(fields: map<string, Value>, trusted: bool): map<string, Value> {
    map key | key in fields && (trusted || !AisheKeyIsSensitive(key, fields[key])) :: fields[key]
  }

  function ProviderOverlay(fields: map<string, Value>, trusted: bool): map<string, Value> {
    map key | key in fields && (trusted || key == "model") :: fields[key]
  }

  function ProvidersOverlay(providers: map<string, Value>, trusted: bool): map<string, Value> {
    map name | name in providers && providers[name].Table? && ProviderOverlay(providers[name].fields, trusted) != map[]
      :: Table(ProviderOverlay(providers[name].fields, trusted))
  }

  function ConnectionOverlay(fields: map<string, Value>): map<string, Value> {
    map key | key in fields && key in CHOICES :: fields[key]
  }

  function ConnectionsOverlay(connections: map<string, Value>, names: set<string>): map<string, Value> {
    map id | id in connections && connections[id].Table? && id in names
             && ConnectionOverlay(connections[id].fields) != map[]
      :: Table(ConnectionOverlay(connections[id].fields))
  }

  function Named(name: string, fields: map<string, Value>): map<string, Value> {
    if fields == map[] then map[] else map[name := Table(fields)]
  }

  function WholeTables(project: Value, trusted: bool): map<string, Value>
    requires project.Table?
  {
    map name | name in project.fields && (name in SAFE_TABLES || (trusted && name in GUARDED_TABLES))
      :: project.fields[name]
  }

  function Overlay(names: set<string>, project: Value, trusted: bool): (overlay: Value)
    requires project.Table?
    ensures overlay.Table?
  {
    Table(Named("aishe", AisheOverlay(Section(project, "aishe"), trusted))
          + Named("providers", ProvidersOverlay(Section(project, "providers"), trusted))
          + Named("connections", ConnectionsOverlay(Section(project, "connections"), names))
          + WholeTables(project, trusted))
  }

  // ----- filtering a project file -----

  function Filtered(fields: map<string, Value>, grants: (string, Value) -> bool): map<string, Value> {
    map key | key in fields && grants(key, fields[key]) :: fields[key]
  }

  ghost predicate FilteredExcept(fields: map<string, Value>, grants: (string, Value) -> bool, keys: set<string>,
                           filtered: map<string, Value>)
  {
    && (forall key :: key in filtered <==> key in fields && key !in keys && grants(key, fields[key]))
    && (forall key <- filtered :: filtered[key] == fields[key])
  }

  /** The loop each section runs over its keys: what is granted goes into the overlay, the rest is deferred. */
  method FilterKeys(fields: map<string, Value>, grants: (string, Value) -> bool)
    returns (filtered: map<string, Value>, applied: set<string>, deferred: set<string>)
    ensures filtered == Filtered(fields, grants)
    ensures applied == filtered.Keys && deferred == fields.Keys - filtered.Keys
  {
    hide FilteredExcept, Filtered, KeysSorted;
    filtered, applied, deferred := map[], {}, {};
    var keys := fields.Keys;
    NothingFiltered(fields, grants);
    assert filtered.Keys == {};
    while keys != {}
      invariant FilteredExcept(fields, grants, keys, filtered)
      invariant KeysSorted(fields.Keys, keys, filtered.Keys, applied, deferred)
      decreases |keys|
    {
      var key :| key in keys;
      KeysWithin(fields.Keys, keys, filtered.Keys, applied, deferred);
      OneKeyFiltered(fields, grants, keys, filtered, key);
      OneKeyFewer(fields.Keys, keys, filtered.Keys, applied, deferred, key);
      keys := keys - {key};
      if grants(key, fields[key]) {
        filtered := Put(filtered, key, fields[key]);
        applied := applied + {key};
      } else {
        deferred := deferred + {key};
      }
    }
    KeysWithin(fields.Keys, keys, filtered.Keys, applied, deferred);
    AllFiltered(fields, grants, filtered);
  }

  function Put(fields: map<string, Value>, key: string, value: Value): (more: map<string, Value>)
    ensures more.Keys == fields.Keys + {key}
  {
    fields[key := value]
  }

  /** Where every key of a section is while the loop runs. */
  predicate KeysSorted(all: set<string>, todo: set<string>, kept: set<string>, applied: set<string>,
                       deferred: set<string>)
  {
    todo <= all && applied == kept && applied !! todo && deferred == all - todo - applied
  }

  lemma NothingFiltered(fields: map<string, Value>, grants: (string, Value) -> bool)
    ensures FilteredExcept(fields, grants, fields.Keys, map[])
    ensures KeysSorted(fields.Keys, fields.Keys, {}, {}, {})
  {
  }

  lemma KeysWithin(all: set<string>, todo: set<string>, kept: set<string>, applied: set<string>, deferred: set<string>)
    requires KeysSorted(all, todo, kept, applied, deferred)
    ensures todo <= all && (todo == {} ==> applied == kept && deferred == all - kept)
  {
  }

  lemma OneKeyFiltered(fields: map<string, Value>, grants: (string, Value) -> bool, keys: set<string>,
                       filtered: map<string, Value>, key: string)
    requires FilteredExcept(fields, grants, keys, filtered) && key in keys && keys <= fields.Keys
    ensures FilteredExcept(fields, grants, keys - {key},
                           if grants(key, fields[key]) then Put(filtered, key, fields[key]) else filtered)
  {
  }

  lemma OneKeyFewer(all: set<string>, todo: set<string>, kept: set<string>, applied: set<string>, deferred: set<string>,
                    key: string)
    requires KeysSorted(all, todo, kept, applied, deferred) && key in todo
    ensures KeysSorted(all, todo - {key}, kept + {key}, applied + {key}, deferred)
    ensures KeysSorted(all, todo - {key}, kept, applied, deferred + {key})
  {
  }

  lemma AllFiltered(fields: map<string, Value>, grants: (string, Value) -> bool, filtered: map<string, Value>)
    requires FilteredExcept(fields, grants, {}, filtered)
    ensures filtered == Filtered(fields, grants)
  {
  }

  /** Names written out below their section. */
  function Under(prefix: Key, names: set<string>): set<Key> {
    set name | name in names :: prefix + [name]
  }

  lemma UnderIs(prefix: Key, names: set<string>)
    ensures forall key: Key :: key in Under(prefix, names)
              <==> |key| == |prefix| + 1 && key[..|prefix|] == prefix && key[|prefix|] in names
  {
    forall key: Key | |key| == |prefix| + 1 && key[..|prefix|] == prefix && key[|prefix|] in names
      ensures key in Under(prefix, names)
    {
      assert key == prefix + [key[|prefix|]];
    }
  }

  /** The keys of one section, `depth` names below it, that are granted or not. */
  ghost predicate AisheKey(fields: map<string, Value>, trusted: bool, granted: bool, key: Key) {
    && |key| == 2 && key[0] == "aishe" && key[1] in fields
    && (trusted || !AisheKeyIsSensitive(key[1], fields[key[1]])) == granted
  }

  ghost predicate ProviderKey(providers: map<string, Value>, trusted: bool, granted: bool, key: Key) {
    && |key| == 3 && key[0] == "providers" && key[1] in providers && providers[key[1]].Table?
    && key[2] in providers[key[1]].fields
    && (trusted || key[2] == "model") == granted
  }

  ghost predicate ConnectionKey(connections: map<string, Value>, names: set<string>, granted: bool, key: Key) {
    && |key| == 3 && key[0] == "connections" && key[1] in connections && key[1] in names && connections[key[1]].Table?
    && key[2] in connections[key[1]].fields
    && (key[2] in CHOICES) == granted
  }

  ghost predicate ForeignConnection(connections: map<string, Value>, names: set<string>, key: Key) {
    && |key| == 2 && key[0] == "connections" && key[1] in connections
    && (key[1] !in names || !connections[key[1]].Table?)
  }

  method OverlayAishe(fields: map<string, Value>, trusted: bool)
    returns (overlay: map<string, Value>, applied: set<Key>, deferred: set<Key>)
    ensures overlay == AisheOverlay(fields, trusted)
    ensures forall key :: key in applied <==> AisheKey(fields, trusted, true, key)
    ensures forall key :: key in deferred <==> AisheKey(fields, trusted, false, key)
  {
    hide AisheKeyIsSensitive;
    var granted, refused;
    overlay, granted, refused := FilterKeys(fields, (key, value) => trusted || !AisheKeyIsSensitive(key, value));
    assert overlay == AisheOverlay(fields, trusted);
    UnderIs(["aishe"], granted);
    UnderIs(["aishe"], refused);
    applied, deferred := Under(["aishe"], granted), Under(["aishe"], refused);
  }

  ghost predicate OverlayExcept(whole: map<string, Value>, todo: set<string>, overlay: map<string, Value>) {
    && (forall name :: name in overlay <==> name in whole && name !in todo)
    && (forall name <- overlay :: overlay[name] == whole[name])
  }

  lemma NothingOverlaid(whole: map<string, Value>, todo: set<string>)
    requires whole.Keys <= todo
    ensures OverlayExcept(whole, todo, map[])
  {
  }

  lemma OneOverlaid(whole: map<string, Value>, todo: set<string>, overlay: map<string, Value>, name: string)
    requires OverlayExcept(whole, todo, overlay) && name in todo
    ensures OverlayExcept(whole, todo - {name}, if name in whole then overlay[name := whole[name]] else overlay)
  {
  }

  lemma AllOverlaid(whole: map<string, Value>, overlay: map<string, Value>)
    requires OverlayExcept(whole, {}, overlay)
    ensures overlay == whole
  {
  }

  ghost predicate IsUnder(section: string, name: string, names: set<string>, key: Key) {
    |key| == 3 && key[0] == section && key[1] == name && key[2] in names
  }

  /** One table below a section: what it overlays and the keys to report. */
  method OverlayTable(section: string, name: string, fields: map<string, Value>, grants: (string, Value) -> bool)
    returns (overlay: map<string, Value>, applied: set<Key>, deferred: set<Key>)
    ensures overlay == Filtered(fields, grants)
    ensures forall key :: key in applied <==> IsUnder(section, name, overlay.Keys, key)
    ensures forall key :: key in deferred <==> IsUnder(section, name, fields.Keys - overlay.Keys, key)
  {
    var granted, refused;
    overlay, granted, refused := FilterKeys(fields, grants);
    UnderIs([section, name], granted);
    UnderIs([section, name], refused);
    applied, deferred := Under([section, name], granted), Under([section, name], refused);
    PairPrefix(section, name);
  }

  lemma PairPrefix(section: string, name: string)
    ensures forall key: Key :: |key| == 3 ==> (key[..2] == [section, name] <==> key[0] == section && key[1] == name)
  {
  }

  lemma PairIs(section: string, name: string)
    ensures forall key: Key :: |key| == 2 && key[0] == section && key[1] == name ==> key == [section, name]
  {
  }

  method OverlayProviders(providers: map<string, Value>, trusted: bool)
    returns (overlay: map<string, Value>, applied: set<Key>, deferred: set<Key>)
    ensures overlay == ProvidersOverlay(providers, trusted)
    ensures forall key :: key in applied <==> ProviderKey(providers, trusted, true, key)
    ensures forall key :: key in deferred <==> ProviderKey(providers, trusted, false, key)
  {
    hide OverlayExcept, ProvidersOverlay;
    overlay, applied, deferred := map[], {}, {};
    ghost var whole := ProvidersOverlay(providers, trusted);
    var todo := providers.Keys;
    ProvidersHave(providers, trusted);
    NothingOverlaid(whole, todo);
    while todo != {}
      invariant todo <= providers.Keys
      invariant OverlayExcept(whole, todo, overlay)
      invariant forall key :: key in applied <==> ProviderKey(providers, trusted, true, key) && key[1] !in todo
      invariant forall key :: key in deferred <==> ProviderKey(providers, trusted, false, key) && key[1] !in todo
      decreases |todo|
    {
      var name :| name in todo;
      OneOverlaid(whole, todo, overlay, name);
      todo := todo - {name};
      if providers[name].Table? {
        var fields := providers[name].fields;
        var sub, granted, refused := OverlayTable("providers", name, fields, (key, value) => trusted || key == "model");
        assert sub == ProviderOverlay(fields, trusted);
        applied, deferred := applied + granted, deferred + refused;
        if sub != map[] {
          overlay := overlay[name := Table(sub)];
        }
      }
    }
    AllOverlaid(whole, overlay);
  }

  lemma ProvidersHave(providers: map<string, Value>, trusted: bool)
    ensures var whole := ProvidersOverlay(providers, trusted);
            && whole.Keys <= providers.Keys
            && forall name <- providers ::
                 && (name in whole
                     <==> providers[name].Table? && ProviderOverlay(providers[name].fields, trusted) != map[])
                 && (name in whole ==> whole[name] == Table(ProviderOverlay(providers[name].fields, trusted)))
  {
  }

  method OverlayConnections(connections: map<string, Value>, names: set<string>)
    returns (overlay: map<string, Value>, applied: set<Key>, deferred: set<Key>)
    ensures overlay == ConnectionsOverlay(connections, names)
    ensures forall key :: key in applied <==> ConnectionKey(connections, names, true, key)
    ensures forall key :: key in deferred
              <==> ConnectionKey(connections, names, false, key) || ForeignConnection(connections, names, key)
  {
    hide OverlayExcept, ConnectionsOverlay;
    overlay, applied, deferred := map[], {}, {};
    ghost var whole := ConnectionsOverlay(connections, names);
    var todo := connections.Keys;
    ConnectionsHave(connections, names);
    NothingOverlaid(whole, todo);
    while todo != {}
      invariant todo <= connections.Keys
      invariant OverlayExcept(whole, todo, overlay)
      invariant forall key :: key in applied <==> ConnectionKey(connections, names, true, key) && key[1] !in todo
      invariant forall key :: key in deferred
                  <==> (ConnectionKey(connections, names, false, key) || ForeignConnection(connections, names, key))
                       && key[1] !in todo
      decreases |todo|
    {
      var id :| id in todo;
      OneOverlaid(whole, todo, overlay, id);
      todo := todo - {id};
      if !connections[id].Table? || id !in names {
        PairIs("connections", id);
        deferred := deferred + {["connections", id]};
        continue;
      }
      var fields := connections[id].fields;
      var safe, granted, refused := OverlayTable("connections", id, fields, (key, value) => key in CHOICES);
      assert safe == ConnectionOverlay(fields);
      applied, deferred := applied + granted, deferred + refused;
      if safe != map[] {
        overlay := overlay[id := Table(safe)];
      }
    }
    AllOverlaid(whole, overlay);
  }

  lemma ConnectionsHave(connections: map<string, Value>, names: set<string>)
    ensures var whole := ConnectionsOverlay(connections, names);
            && whole.Keys <= connections.Keys
            && forall id <- connections ::
                 && (id in whole
                     <==> connections[id].Table? && id in names && ConnectionOverlay(connections[id].fields) != map[])
                 && (id in whole ==> whole[id] == Table(ConnectionOverlay(connections[id].fields)))
  {
  }

  ghost predicate WholeKey(project: Value, trusted: bool, granted: bool, key: Key) {
    && project.Table? && |key| == 1 && key[0] in project.fields
    && (if granted then key[0] in SAFE_TABLES || (trusted && key[0] in GUARDED_TABLES)
        else !trusted && key[0] in GUARDED_TABLES)
  }

  const SAFE_ORDER := ["ui", "named_dirs", "pricing"]
  const GUARDED_ORDER := ["mcp_servers", "logging", "backend", "sandbox"]

  method OverlayWhole(project: Value, trusted: bool)
    returns (overlay: map<string, Value>, applied: set<Key>, deferred: set<Key>)
    requires project.Table?
    ensures overlay == WholeTables(project, trusted)
    ensures forall key :: key in applied <==> WholeKey(project, trusted, true, key)
    ensures forall key :: key in deferred <==> WholeKey(project, trusted, false, key)
  {
    hide SAFE_TABLES, GUARDED_TABLES, SAFE_ORDER, GUARDED_ORDER, WholeTables;
    var safe := TakeTables(project, SAFE_ORDER);
    var guarded := TakeTables(project, GUARDED_ORDER);
    OrdersAreTables();
    overlay := if trusted then safe + guarded else safe;
    applied := Under([], overlay.Keys);
    deferred := if trusted then {} else Under([], guarded.Keys);
    UnderNothing(overlay.Keys);
    UnderNothing(guarded.Keys);
    WholeTaken(project, trusted, overlay);
  }

  lemma UnderNothing(names: set<string>)
    ensures forall key: Key :: key in Under([], names) <==> |key| == 1 && key[0] in names
  {
    UnderIs([], names);
  }

  lemma WholeTaken(project: Value, trusted: bool, overlay: map<string, Value>)
    requires project.Table?
    requires forall name :: name in overlay
               <==> name in project.fields && (name in SAFE_TABLES || (trusted && name in GUARDED_TABLES))
    requires forall name <- overlay :: overlay[name] == project.fields[name]
    ensures overlay == WholeTables(project, trusted)
  {
    hide SAFE_TABLES, GUARDED_TABLES;
  }

  lemma OrdersAreTables()
    ensures forall name :: name in SAFE_ORDER <==> name in SAFE_TABLES
    ensures forall name :: name in GUARDED_ORDER <==> name in GUARDED_TABLES
    ensures SAFE_TABLES !! GUARDED_TABLES
  {
  }

  /** The tables of `project` that stand in a list of names. */
  method TakeTables(project: Value, order: seq<string>) returns (taken: map<string, Value>)
    requires project.Table?
    ensures forall name :: name in taken <==> name in order && name in project.fields
    ensures forall name <- taken :: taken[name] == project.fields[name]
  {
    taken := map[];
    for k := 0 to |order|
      invariant forall name :: name in taken <==> name in order[..k] && name in project.fields
      invariant forall name <- taken :: taken[name] == project.fields[name]
    {
      if order[k] in project.fields {
        taken := taken[order[k] := project.fields[order[k]]];
      }
    }
  }

  lemma AppliesBySection(names: set<string>, trusted: bool, project: Value, key: Key)
    requires project.Table?
    ensures Applies(names, trusted, project, key) <==>
            || AisheKey(Section(project, "aishe"), trusted, true, key)
            || ProviderKey(Section(project, "providers"), trusted, true, key)
            || ConnectionKey(Section(project, "connections"), names, true, key)
            || WholeKey(project, trusted, true, key)
  {
    hide AisheKeyIsSensitive;
    LookupUnfolds(project, key);
  }

  lemma DefersBySection(names: set<string>, trusted: bool, project: Value, key: Key)
    requires project.Table?
    ensures Defers(names, trusted, project, key) <==>
            || AisheKey(Section(project, "aishe"), trusted, false, key)
            || ProviderKey(Section(project, "providers"), trusted, false, key)
            || ConnectionKey(Section(project, "connections"), names, false, key)
            || ForeignConnection(Section(project, "connections"), names, key)
            || WholeKey(project, trusted, false, key)
  {
    hide AisheKeyIsSensitive;
    LookupUnfolds(project, key);
    assert SAFE_TABLES !! GUARDED_TABLES;
  }

  lemma LookupUnfolds(value: Value, key: Key)
    ensures |key| == 1 ==> Lookup(value, key)
                           == if value.Table? && key[0] in value.fields then Some(value.fields[key[0]]) else None
    ensures |key| == 2 ==> Lookup(value, key)
                           == if key[1] in Section(value, key[0]) then Some(Section(value, key[0])[key[1]]) else None
    ensures |key| == 3 ==>
              Lookup(value, key) ==
              var section := Section(value, key[0]);
              if key[1] in section && section[key[1]].Table? && key[2] in section[key[1]].fields
              then Some(section[key[1]].fields[key[2]]) else None
  {
    if |key| >= 1 && value.Table? && key[0] in value.fields {
      var inner := value.fields[key[0]];
      assert Lookup(value, key) == Lookup(inner, key[1..]);
      if |key| >= 2 && inner.Table? && key[1] in inner.fields {
        assert key[1..][1..] == key[2..];
        assert Lookup(inner, key[1..]) == Lookup(inner.fields[key[1]], key[2..]);
        if |key| == 3 {
          assert key[2..] == [key[2]];
        } else if |key| == 2 {
          assert key[2..] == [];
        }
      }
    }
  }

  method BuildOverlay(names: set<string>, project: Value, trusted: bool)
    returns (overlay: Value, applied: set<Key>, deferred: set<Key>)
    requires project.Table?
    ensures overlay == Overlay(names, project, trusted)
    ensures forall key :: key in applied <==> Applies(names, trusted, project, key)
    ensures forall key :: key in deferred <==> Defers(names, trusted, project, key)
  {
    hide AisheOverlay, ProvidersOverlay, ConnectionsOverlay, WholeTables, AisheKey, ProviderKey, ConnectionKey,
         ForeignConnection, WholeKey, Applies, Defers, Section;
    var aishe, applied1, deferred1 := OverlayAishe(Section(project, "aishe"), trusted);
    var providers, applied2, deferred2 := OverlayProviders(Section(project, "providers"), trusted);
    var connections, applied3, deferred3 := OverlayConnections(Section(project, "connections"), names);
    var tables, applied4, deferred4 := OverlayWhole(project, trusted);
    overlay := Table(Named("aishe", aishe) + Named("providers", providers) + Named("connections", connections)
                     + tables);
    applied := applied1 + applied2 + applied3 + applied4;
    deferred := deferred1 + deferred2 + deferred3 + deferred4;
    forall key ensures key in applied <==> Applies(names, trusted, project, key) {
      AppliesBySection(names, trusted, project, key);
    }
    forall key ensures key in deferred <==> Defers(names, trusted, project, key) {
      DefersBySection(names, trusted, project, key);
    }
  }

  // ----- what a project file can change -----

  predicate Comparable(a: Key, b: Key) {
    a <= b || b <= a
  }

  predicate Reaches(value: Value, path: seq<string>) {
    Lookup(value, path).Some? || Blocks(value, path)
  }

  lemma ReachesInto(value: Value, path: seq<string>)
    requires value.Table? && path != [] && Reaches(value, path)
    ensures path[0] in value.fields && Reaches(value.fields[path[0]], path[1..])
  {
    if path[1..] == [] && path[0] in value.fields {
      assert Lookup(value.fields[path[0]], path[1..]).Some?;
    }
  }

  lemma OverlaySections(names: set<string>, project: Value, trusted: bool, name: string)
    requires project.Table?
    ensures name in Overlay(names, project, trusted).fields ==>
              OverlaySection(names, project, trusted, name, Overlay(names, project, trusted).fields[name])
  {
    hide AisheOverlay, ProvidersOverlay, ConnectionsOverlay;
  }

  /** What a field of the overlay can be. */
  ghost predicate OverlaySection(names: set<string>, project: Value, trusted: bool, name: string, value: Value)
    requires project.Table?
  {
    var fields := Section(project, name);
    if name == "aishe" then value == Table(AisheOverlay(fields, trusted)) && value.fields != map[]
    else if name == "providers" then value == Table(ProvidersOverlay(fields, trusted)) && value.fields != map[]
    else if name == "connections" then value == Table(ConnectionsOverlay(fields, names)) && value.fields != map[]
    else name in WholeTables(project, trusted)
  }

  /** Every path the overlay holds or blocks lies above or below an applied key. */
  lemma OverlayIsApplied(names: set<string>, project: Value, trusted: bool, path: Key) returns (key: Key)
    requires project.Table? && path != [] && Reaches(Overlay(names, project, trusted), path)
    ensures Applies(names, trusted, project, key) && Comparable(key, path)
  {
    hide Overlay, AisheOverlay, Reaches, Section, Applies, Comparable;
    var overlay := Overlay(names, project, trusted);
    ReachesInto(overlay, path);
    OverlaySections(names, project, trusted, path[0]);
    var value := overlay.fields[path[0]];
    if path[0] == "aishe" {
      key := AisheApplied(project, trusted, path);
      AppliesBySection(names, trusted, project, key);
    } else if path[0] == "providers" {
      key := ProviderApplied(project, trusted, path);
      AppliesBySection(names, trusted, project, key);
    } else if path[0] == "connections" {
      key := ConnectionApplied(project, names, path);
      AppliesBySection(names, trusted, project, key);
    } else {
      key := [path[0]];
      FirstIsComparable(path);
      AppliesBySection(names, trusted, project, key);
    }
  }

  lemma FirstIsComparable(path: Key)
    requires path != []
    ensures Comparable([path[0]], path)
  {
  }

  lemma AisheApplied(project: Value, trusted: bool, path: Key) returns (key: Key)
    requires path != [] && path[0] == "aishe"
    requires var overlay := Table(AisheOverlay(Section(project, "aishe"), trusted));
             overlay.fields != map[] && Reaches(overlay, path[1..])
    ensures AisheKey(Section(project, "aishe"), trusted, true, key) && Comparable(key, path)
  {
    hide AisheKeyIsSensitive, Section;
    var overlay := Table(AisheOverlay(Section(project, "aishe"), trusted));
    if |path| == 1 {
      var name :| name in overlay.fields;
      key := ["aishe", name];
    } else {
      ReachesInto(overlay, path[1..]);
      key := ["aishe", path[1]];
      assert path[..2] == key;
    }
  }

  lemma ProviderApplied(project: Value, trusted: bool, path: Key) returns (key: Key)
    requires path != [] && path[0] == "providers"
    requires var overlay := Table(ProvidersOverlay(Section(project, "providers"), trusted));
             overlay.fields != map[] && Reaches(overlay, path[1..])
    ensures ProviderKey(Section(project, "providers"), trusted, true, key) && Comparable(key, path)
  {
    hide Section;
    var overlay := Table(ProvidersOverlay(Section(project, "providers"), trusted));
    key := PickKey("providers", overlay, path);
  }

  lemma ConnectionApplied(project: Value, names: set<string>, path: Key) returns (key: Key)
    requires path != [] && path[0] == "connections"
    requires var overlay := Table(ConnectionsOverlay(Section(project, "connections"), names));
             overlay.fields != map[] && Reaches(overlay, path[1..])
    ensures ConnectionKey(Section(project, "connections"), names, true, key) && Comparable(key, path)
  {
    hide Section;
    var overlay := Table(ConnectionsOverlay(Section(project, "connections"), names));
    key := PickKey("connections", overlay, path);
  }

  /** In a section of nonempty tables every path lies above or below some entry of some table. */
  lemma PickKey(section: string, overlay: Value, path: Key) returns (key: Key)
    requires overlay.Table? && overlay.fields != map[]
    requires forall name <- overlay.fields :: overlay.fields[name].Table? && overlay.fields[name].fields != map[]
    requires path != [] && path[0] == section && Reaches(overlay, path[1..])
    ensures |key| == 3 && key[0] == section && Comparable(key, path)
    ensures key[1] in overlay.fields && key[2] in overlay.fields[key[1]].fields
  {
    if |path| == 1 {
      var name :| name in overlay.fields;
      var entry :| entry in overlay.fields[name].fields;
      key := [section, name, entry];
    } else {
      ReachesInto(overlay, path[1..]);
      var table := overlay.fields[path[1]];
      if |path| == 2 {
        var entry :| entry in table.fields;
        key := [section, path[1], entry];
      } else {
        assert path[1..][1..] == path[2..];
        ReachesInto(table, path[2..]);
        key := [section, path[1], path[2]];
        assert path[..3] == key;
      }
    }
  }

  /** The table a merge hands on to be read back differs from the old one only above and below applied keys. */
  lemma ChangesLieUnderApplied(names: set<string>, base: Value, project: Value, trusted: bool, path: Key)
    requires base.Table? && project.Table? && path != []
    requires forall key :: Applies(names, trusted, project, key) ==> !Comparable(key, path)
    ensures Lookup(Merged(base, Overlay(names, project, trusted)), path) == Lookup(base, path)
  {
    hide Applies, Overlay, Merged, Comparable;
    var overlay := Overlay(names, project, trusted);
    MergedAt(base, overlay, path);
    if Reaches(overlay, path) {
      var key := OverlayIsApplied(names, project, trusted, path);
      assert false;
    }
  }

  /** The keys no untrusted project may touch, by name. */
  predicate Guarded(names: set<string>, key: Key) {
    || (|key| == 2 && key[0] == "aishe"
        && key[1] in {"provider", "connection", "connection_fallback", "provider_fallback", "embedding_provider",
                      "shell_profile", "yolo_confirm", "yolo_confirm_dangerous", "yolo_sandbox", "sandbox_backend",
                      "redact_secrets", "semantic_history", "hook_timeout_secs"})
    || (|key| == 3 && key[0] == "providers" && key[2] != "model")
    || NeverImported(names, key)
    || (|key| == 1 && (key[0] == "mcp_servers" || key[0] == "logging" || key[0] == "backend" || key[0] == "sandbox"))
  }

  /** The keys no project may touch, trusted or not: connections the user does not have, and everything about one but
      its model and its reasoning effort. */
  predicate NeverImported(names: set<string>, key: Key) {
    || (|key| == 2 && key[0] == "connections" && key[1] !in names)
    || (|key| == 3 && key[0] == "connections" && key[2] != "model" && key[2] != "reasoning_effort")
  }

  lemma GuardedIsApart(names: set<string>, project: Value, key: Key, below: Key)
    requires Guarded(names, key)
    ensures key != []
    ensures forall other :: Applies(names, false, project, other) ==> !Comparable(other, key + below)
  {
    forall other | Applies(names, false, project, other) ensures !Comparable(other, key + below) {
      if Comparable(other, key + below) {
        ComparableBelow(other, key, below);
      }
    }
  }

  lemma ComparableBelow(other: Key, key: Key, below: Key)
    requires Comparable(other, key + below)
    ensures forall i :: 0 <= i < |other| && i < |key| ==> other[i] == key[i]
  {
    forall i | 0 <= i < |other| && i < |key| ensures other[i] == key[i] {
      assert (key + below)[i] == key[i];
    }
  }

  lemma NeverImportedIsApart(names: set<string>, project: Value, trusted: bool, key: Key, below: Key)
    requires NeverImported(names, key)
    ensures key != []
    ensures forall other :: Applies(names, trusted, project, other) ==> !Comparable(other, key + below)
  {
    forall other | Applies(names, trusted, project, other) ensures !Comparable(other, key + below) {
      if Comparable(other, key + below) {
        ComparableBelow(other, key, below);
      }
    }
  }

  lemma SectionsOfOverlay(names: set<string>, project: Value, trusted: bool)
    requires project.Table?
    ensures var overlay := Overlay(names, project, trusted);
            && Section(overlay, "aishe") == AisheOverlay(Section(project, "aishe"), trusted)
            && Section(overlay, "providers") == ProvidersOverlay(Section(project, "providers"), trusted)
            && Section(overlay, "connections") == ConnectionsOverlay(Section(project, "connections"), names)
  {
    hide AisheOverlay, ProvidersOverlay, ConnectionsOverlay, WholeTables, Named, Section;
    NoSectionIsWhole(project, trusted);
    NamedSections("aishe", "providers", "connections", AisheOverlay(Section(project, "aishe"), trusted),
                  ProvidersOverlay(Section(project, "providers"), trusted),
                  ConnectionsOverlay(Section(project, "connections"), names), WholeTables(project, trusted));
  }

  lemma NoSectionIsWhole(project: Value, trusted: bool)
    requires project.Table?
    ensures "aishe" !in WholeTables(project, trusted)
    ensures "providers" !in WholeTables(project, trusted)
    ensures "connections" !in WholeTables(project, trusted)
  {
  }

  lemma NamedSections(m: string, n: string, o: string, a: map<string, Value>, b: map<string, Value>,
                      c: map<string, Value>, rest: map<string, Value>)
    requires m != n && n != o && m != o && m !in rest && n !in rest && o !in rest
    ensures var all := Table(Named(m, a) + Named(n, b) + Named(o, c) + rest);
            Section(all, m) == a && Section(all, n) == b && Section(all, o) == c
  {
  }

  lemma TablesOfOverlay(names: set<string>, project: Value, trusted: bool)
    requires project.Table?
    ensures forall name <- WholeTables(project, trusted) ::
              name in Overlay(names, project, trusted).fields
              && Overlay(names, project, trusted).fields[name] == project.fields[name]
  {
    hide AisheOverlay, ProvidersOverlay, ConnectionsOverlay, Named;
  }

  /** What is applied enters the overlay as the project has it. */
  lemma AppliedIsOverlaid(names: set<string>, project: Value, trusted: bool, key: Key)
    requires project.Table? && Applies(names, trusted, project, key)
    ensures Lookup(Overlay(names, project, trusted), key) == Lookup(project, key)
  {
    hide Overlay, AisheOverlay, ProvidersOverlay, ConnectionsOverlay, WholeTables, AisheKey, ProviderKey, ConnectionKey,
         WholeKey, Applies, Section, Lookup;
    AppliesBySection(names, trusted, project, key);
    SectionsOfOverlay(names, project, trusted);
    var overlay := Overlay(names, project, trusted);
    if AisheKey(Section(project, "aishe"), trusted, true, key) {
      AisheIsOverlaid(project, overlay, trusted, key);
    } else if ProviderKey(Section(project, "providers"), trusted, true, key) {
      ProviderIsOverlaid(project, overlay, trusted, key);
    } else if ConnectionKey(Section(project, "connections"), names, true, key) {
      ChoiceIsOverlaid(names, project, overlay, key);
    } else {
      TablesOfOverlay(names, project, trusted);
      WholeIsOverlaid(project, overlay, trusted, key);
    }
  }

  lemma AisheIsOverlaid(project: Value, overlay: Value, trusted: bool, key: Key)
    requires Section(overlay, "aishe") == AisheOverlay(Section(project, "aishe"), trusted)
    requires AisheKey(Section(project, "aishe"), trusted, true, key)
    ensures Lookup(overlay, key) == Lookup(project, key)
  {
    hide Section, Lookup;
    LookupUnfolds(project, key);
    LookupUnfolds(overlay, key);
  }

  lemma ProviderIsOverlaid(project: Value, overlay: Value, trusted: bool, key: Key)
    requires Section(overlay, "providers") == ProvidersOverlay(Section(project, "providers"), trusted)
    requires ProviderKey(Section(project, "providers"), trusted, true, key)
    ensures Lookup(overlay, key) == Lookup(project, key)
  {
    hide Section, Lookup, ProvidersOverlay;
    ProvidersHave(Section(project, "providers"), trusted);
    LookupUnfolds(project, key);
    LookupUnfolds(overlay, key);
    assert key[2] in ProviderOverlay(Section(project, "providers")[key[1]].fields, trusted);
  }

  lemma ChoiceIsOverlaid(names: set<string>, project: Value, overlay: Value, key: Key)
    requires Section(overlay, "connections") == ConnectionsOverlay(Section(project, "connections"), names)
    requires ConnectionKey(Section(project, "connections"), names, true, key)
    ensures Lookup(overlay, key) == Lookup(project, key)
  {
    hide Section, Lookup, ConnectionsOverlay;
    ConnectionsHave(Section(project, "connections"), names);
    LookupUnfolds(project, key);
    LookupUnfolds(overlay, key);
    assert key[2] in ConnectionOverlay(Section(project, "connections")[key[1]].fields);
  }

  lemma WholeIsOverlaid(project: Value, overlay: Value, trusted: bool, key: Key)
    requires project.Table? && overlay.Table? && WholeKey(project, trusted, true, key)
    requires forall name <- WholeTables(project, trusted) ::
               name in overlay.fields && overlay.fields[name] == project.fields[name]
    ensures Lookup(overlay, key) == Lookup(project, key)
  {
    hide Lookup;
    LookupUnfolds(project, key);
    LookupUnfolds(overlay, key);
    assert key[0] in WholeTables(project, trusted);
  }

  lemma OnlyModeTouchesMode(names: set<string>, project: Value, key: Key)
    requires Applies(names, false, project, key) && Comparable(key, ["aishe", "mode"])
    ensures key == ["aishe", "mode"]
  {
    hide AisheKeyIsSensitive;
    var mode := ["aishe", "mode"];
    forall i | 0 <= i < |key| && i < 2 ensures key[i] == mode[i] {
    }
  }

  lemma ModeIsHarmless(names: set<string>, project: Value)
    requires Applies(names, false, project, ["aishe", "mode"])
    ensures Lookup(project, ["aishe", "mode"]).Some? && !AsksForAgent(Lookup(project, ["aishe", "mode"]).value)
  {
    hide Lookup, AsksForAgent;
  }

  // ----- non-interference -----

  /** The two projects agree on everything that would be applied. */
  ghost predicate AgreeOnApplied(names: set<string>, p: Value, q: Value) {
    forall key :: AppliedValue(names, p, key) == AppliedValue(names, q, key)
  }

  function AppliedValue(names: set<string>, project: Value, key: Key): Option<Value> {
    if Applies(names, false, project, key) then Lookup(project, key) else None
  }

  lemma AisheAgrees(names: set<string>, p: Value, q: Value, name: string)
    requires p.Table? && q.Table? && AgreeOnApplied(names, p, q)
    ensures var ps, qs := AisheOverlay(Section(p, "aishe"), false), AisheOverlay(Section(q, "aishe"), false);
            name in ps ==> name in qs && qs[name] == ps[name]
  {
    hide AisheKeyIsSensitive, Section, Applies;
    var key := ["aishe", name];
    assert AppliedValue(names, p, key) == AppliedValue(names, q, key);
    AppliesBySection(names, false, p, key);
    AppliesBySection(names, false, q, key);
    LookupUnfolds(p, key);
    LookupUnfolds(q, key);
  }

  function TableFields(section: map<string, Value>, name: string): map<string, Value> {
    if name in section && section[name].Table? then section[name].fields else map[]
  }

  lemma ProviderAgrees(names: set<string>, p: Value, q: Value, name: string, entry: string)
    requires p.Table? && q.Table? && AgreeOnApplied(names, p, q)
    ensures var ps := ProviderOverlay(TableFields(Section(p, "providers"), name), false);
            var qs := ProviderOverlay(TableFields(Section(q, "providers"), name), false);
            entry in ps ==> entry in qs && qs[entry] == ps[entry]
  {
    hide Section, Applies;
    var key := ["providers", name, entry];
    assert AppliedValue(names, p, key) == AppliedValue(names, q, key);
    AppliesBySection(names, false, p, key);
    AppliesBySection(names, false, q, key);
    LookupUnfolds(p, key);
    LookupUnfolds(q, key);
  }

  lemma ConnectionAgrees(names: set<string>, p: Value, q: Value, id: string, entry: string)
    requires p.Table? && q.Table? && AgreeOnApplied(names, p, q) && id in names
    ensures var ps := ConnectionOverlay(TableFields(Section(p, "connections"), id));
            var qs := ConnectionOverlay(TableFields(Section(q, "connections"), id));
            entry in ps ==> entry in qs && qs[entry] == ps[entry]
  {
    hide Section, Applies;
    var key := ["connections", id, entry];
    assert AppliedValue(names, p, key) == AppliedValue(names, q, key);
    AppliesBySection(names, false, p, key);
    AppliesBySection(names, false, q, key);
    LookupUnfolds(p, key);
    LookupUnfolds(q, key);
  }

  lemma WholeAgrees(names: set<string>, p: Value, q: Value, name: string)
    requires p.Table? && q.Table? && AgreeOnApplied(names, p, q)
    ensures var ps, qs := WholeTables(p, false), WholeTables(q, false);
            name in ps ==> name in qs && qs[name] == ps[name]
  {
    hide Section, Applies;
    var key := [name];
    assert AppliedValue(names, p, key) == AppliedValue(names, q, key);
    AppliesBySection(names, false, p, key);
    AppliesBySection(names, false, q, key);
    LookupUnfolds(p, key);
    LookupUnfolds(q, key);
  }

  predicate Within(a: map<string, Value>, b: map<string, Value>) {
    forall key <- a :: key in b && b[key] == a[key]
  }

  lemma SameMap(a: map<string, Value>, b: map<string, Value>)
    requires Within(a, b) && Within(b, a)
    ensures a == b
  {
  }

  lemma ProviderWithin(names: set<string>, p: Value, q: Value, name: string)
    requires p.Table? && q.Table? && AgreeOnApplied(names, p, q)
    ensures Within(ProviderOverlay(TableFields(Section(p, "providers"), name), false),
                   ProviderOverlay(TableFields(Section(q, "providers"), name), false))
  {
    hide Section, AgreeOnApplied, ProviderOverlay, TableFields;
    var ps := ProviderOverlay(TableFields(Section(p, "providers"), name), false);
    var qs := ProviderOverlay(TableFields(Section(q, "providers"), name), false);
    forall entry | entry in ps ensures entry in qs && qs[entry] == ps[entry] {
      ProviderAgrees(names, p, q, name, entry);
    }
  }

  lemma ConnectionWithin(names: set<string>, p: Value, q: Value, id: string)
    requires p.Table? && q.Table? && AgreeOnApplied(names, p, q) && id in names
    ensures Within(ConnectionOverlay(TableFields(Section(p, "connections"), id)),
                   ConnectionOverlay(TableFields(Section(q, "connections"), id)))
  {
    hide Section, AgreeOnApplied, ConnectionOverlay, TableFields;
    var ps := ConnectionOverlay(TableFields(Section(p, "connections"), id));
    var qs := ConnectionOverlay(TableFields(Section(q, "connections"), id));
    forall entry | entry in ps ensures entry in qs && qs[entry] == ps[entry] {
      ConnectionAgrees(names, p, q, id, entry);
    }
  }

  lemma ProvidersWithin(names: set<string>, p: Value, q: Value)
    requires p.Table? && q.Table? && AgreeOnApplied(names, p, q)
    ensures Within(ProvidersOverlay(Section(p, "providers"), false), ProvidersOverlay(Section(q, "providers"), false))
  {
    hide Section, AgreeOnApplied, ProviderOverlay, Within;
    AgreeIsSymmetric(names, p, q);
    EmptyOverlay();
    var ps, qs := Section(p, "providers"), Section(q, "providers");
    var po, qo := ProvidersOverlay(ps, false), ProvidersOverlay(qs, false);
    forall name | name in po ensures name in qo && qo[name] == po[name] {
      ProviderWithin(names, p, q, name);
      ProviderWithin(names, q, p, name);
      SameMap(ProviderOverlay(TableFields(ps, name), false), ProviderOverlay(TableFields(qs, name), false));
    }
    EachWithin(po, qo);
  }

  lemma ConnectionsWithin(names: set<string>, p: Value, q: Value)
    requires p.Table? && q.Table? && AgreeOnApplied(names, p, q)
    ensures Within(ConnectionsOverlay(Section(p, "connections"), names),
                   ConnectionsOverlay(Section(q, "connections"), names))
  {
    hide Section, AgreeOnApplied, ConnectionOverlay, Within;
    AgreeIsSymmetric(names, p, q);
    EmptyOverlay();
    var ps, qs := Section(p, "connections"), Section(q, "connections");
    var po, qo := ConnectionsOverlay(ps, names), ConnectionsOverlay(qs, names);
    forall id | id in po ensures id in qo && qo[id] == po[id] {
      ConnectionWithin(names, p, q, id);
      ConnectionWithin(names, q, p, id);
      SameMap(ConnectionOverlay(TableFields(ps, id)), ConnectionOverlay(TableFields(qs, id)));
    }
    EachWithin(po, qo);
  }

  lemma EachWithin(a: map<string, Value>, b: map<string, Value>)
    requires forall key <- a :: key in b && b[key] == a[key]
    ensures Within(a, b)
  {
  }

  lemma EmptyOverlay()
    ensures ProviderOverlay(map[], false) == map[] && ConnectionOverlay(map[]) == map[]
  {
  }

  lemma AgreeIsSymmetric(names: set<string>, p: Value, q: Value)
    requires AgreeOnApplied(names, p, q)
    ensures AgreeOnApplied(names, q, p)
  {
    hide AppliedValue;
  }

  lemma AisheWithin(names: set<string>, p: Value, q: Value)
    requires p.Table? && q.Table? && AgreeOnApplied(names, p, q)
    ensures Within(AisheOverlay(Section(p, "aishe"), false), AisheOverlay(Section(q, "aishe"), false))
    ensures Within(WholeTables(p, false), WholeTables(q, false))
  {
    hide Section, AgreeOnApplied, AisheOverlay, WholeTables;
    var ps, qs := AisheOverlay(Section(p, "aishe"), false), AisheOverlay(Section(q, "aishe"), false);
    forall name | name in ps ensures name in qs && qs[name] == ps[name] {
      AisheAgrees(names, p, q, name);
    }
    var pw, qw := WholeTables(p, false), WholeTables(q, false);
    forall name | name in pw ensures name in qw && qw[name] == pw[name] {
      WholeAgrees(names, p, q, name);
    }
  }

  lemma SameOverlay(names: set<string>, p: Value, q: Value)
    requires p.Table? && q.Table? && AgreeOnApplied(names, p, q)
    ensures Overlay(names, p, false) == Overlay(names, q, false)
  {
    hide Section, AgreeOnApplied, AisheOverlay, ProvidersOverlay, ConnectionsOverlay, WholeTables, Within;
    AgreeIsSymmetric(names, p, q);
    ProvidersWithin(names, p, q);
    ProvidersWithin(names, q, p);
    ConnectionsWithin(names, p, q);
    ConnectionsWithin(names, q, p);
    AisheWithin(names, p, q);
    AisheWithin(names, q, p);
    SameMap(ProvidersOverlay(Section(p, "providers"), false), ProvidersOverlay(Section(q, "providers"), false));
    SameMap(ConnectionsOverlay(Section(p, "connections"), names), ConnectionsOverlay(Section(q, "connections"), names));
    SameMap(AisheOverlay(Section(p, "aishe"), false), AisheOverlay(Section(q, "aishe"), false));
    SameMap(WholeTables(p, false), WholeTables(q, false));
  }
}
