/** How a configuration is read from a table and printed as one: what stands for each of its parts. */
module ConfigReader {
  import opened Wrappers
  import opened ConfigMerge

  /** A part of the configuration: a text, another value read as a whole, a record of named fields, or a dictionary
      of like entries. A record can also be given as a list, which says what its fields are. */
  datatype Shape =
    | Text
    | Plain(keep: Value -> Option<Value>)
    | Record(fields: map<string, Field>, listed: Value -> Option<Value>)
    | Dict(entries: Shape)

  /** What a missing field means, and when printing leaves the field out. */
  datatype Field = Field(shape: Shape, absent: Absent, omits: Value -> bool)

  datatype Absent = Fails | Missing | Default(value: Value)

  // ----- reading -----

  /** A field may spoil its record, be left empty, or hold a value. */
  datatype Reading = Refused | Nothing | Got(value: Value)

  /** The configuration read from a table: fields the shape does not know are ignored, absent ones get their default,
      one value that does not fit spoils the whole. */
  function Read(shape: Shape, value: Value): Option<Value>
    decreases shape, 0
  {
    match shape
    case Text => if value.Str? then Some(value) else None
    case Plain(keep) => keep(value)
    case Record(fields, listed) => (
      match Given(value, listed)
      case Some(Table(given)) =>
        if exists name <- fields :: ReadField(fields[name], given, name).Refused? then None
        else Some(Table(map name | name in fields && ReadField(fields[name], given, name).Got?
                          :: ReadField(fields[name], given, name).value))
      case _ => None)
    case Dict(entries) =>
      if !value.Table? || exists name <- value.fields :: Read(entries, value.fields[name]).None? then None
      else Some(Table(map name | name in value.fields :: Read(entries, value.fields[name]).value))
  }

  function Given(value: Value, listed: Value -> Option<Value>): Option<Value> {
    if value.Table? then Some(value) else listed(value)
  }

  function ReadField(field: Field, given: map<string, Value>, name: string): Reading
    decreases field.shape, 1
  {
    if name in given then
      match Read(field.shape, given[name])
      case Some(value) => Got(value)
      case None => Refused
    else
      match field.absent
      case Default(value) => Got(value)
      case Missing => Nothing
      case Fails => Refused
  }

  // ----- printing -----

  function Shown(shape: Shape, value: Value): (shown: Value)
    ensures value.Table? ==> shown.Table?
    decreases shape
  {
    if !value.Table? then value
    else match shape
      case Text => value
      case Plain(_) => value
      case Record(fields, _) =>
        Table(map name | name in value.fields && name in fields && !fields[name].omits(value.fields[name])
                :: Shown(fields[name].shape, value.fields[name]))
      case Dict(entries) => Table(map name | name in value.fields :: Shown(entries, value.fields[name]))
  }

  // ----- configurations -----

  /** The values that make up a configuration of this shape. */
  ghost predicate Holds(shape: Shape, value: Value)
    decreases shape
  {
    match shape
    case Text => value.Str?
    case Plain(keep) => keep(value) == Some(value)
    case Record(fields, _) =>
      && value.Table? && value.fields.Keys <= fields.Keys
      && forall name <- fields ::
           if name in value.fields then Holds(fields[name].shape, value.fields[name]) else fields[name].absent.Missing?
    case Dict(entries) => value.Table? && forall name <- value.fields :: Holds(entries, value.fields[name])
  }

  /** What the derived readers and printers have in common: what was read reads again as it is, defaults fit, only
      plain values are optional, and printing leaves out only plain values and empty dictionaries that are the
      default. */
  ghost predicate Sound(shape: Shape)
    decreases shape, 0
  {
    match shape
    case Text => true
    case Plain(keep) => forall value :: IsKept(keep, value)
    case Record(fields, _) => forall name <- fields :: SoundField(fields[name])
    case Dict(entries) => Sound(entries)
  }

  /** What was made of a value is made of itself. */
  predicate IsKept(keep: Value -> Option<Value>, value: Value) {
    keep(value).Some? ==> keep(keep(value).value) == keep(value)
  }

  ghost predicate SoundField(field: Field)
    decreases field.shape, 1
  {
    && Sound(field.shape)
    && (field.absent.Default? ==> Holds(field.shape, field.absent.value))
    && (field.absent.Missing? ==> field.shape.Text? || field.shape.Plain?)
    && forall value :: Holds(field.shape, value) && field.omits(value) ==> Omissible(field, value)
  }

  predicate Omissible(field: Field, value: Value) {
    field.absent == Default(value) && !field.shape.Record? && (field.shape.Dict? ==> value == Table(map[]))
  }

  // ----- laws -----

  /** A record's field as a configuration has it. */
  lemma FieldIsHeld(shape: Shape, value: Value, name: string)
    requires shape.Record? && Sound(shape) && Holds(shape, value) && name in shape.fields
    ensures value.Table? && Sound(shape.fields[name].shape)
    ensures !shape.fields[name].absent.Missing? ==> name in value.fields
    ensures name in value.fields ==> Holds(shape.fields[name].shape, value.fields[name])
    ensures !shape.fields[name].shape.Text? && !shape.fields[name].shape.Plain? ==> name in value.fields
  {
    assert SoundField(shape.fields[name]);
  }

  lemma EntryIsHeld(shape: Shape, value: Value, name: string)
    requires shape.Dict? && Holds(shape, value) && value.Table? && name in value.fields
    ensures Holds(shape.entries, value.fields[name])
  {
  }

  lemma FieldIsStored(shape: Shape, value: Value, name: string, field: Value)
    requires shape.Record? && Holds(shape, value) && name in shape.fields && Holds(shape.fields[name].shape, field)
    ensures Holds(shape, Table(value.fields[name := field]))
  {
  }

  lemma TableIsHeld(shape: Shape, value: Value)
    requires (shape.Record? || shape.Dict?) && Holds(shape, value)
    ensures value.Table?
  {
  }

  /** What a record makes of each of its known fields. */
  lemma RecordIsRead(shape: Shape, value: Value, kept: map<string, Value>)
    requires shape.Record? && value.Table? && kept.Keys <= shape.fields.Keys
    requires forall name <- shape.fields ::
               ReadField(shape.fields[name], value.fields, name) == if name in kept then Got(kept[name]) else Nothing
    ensures Read(shape, value) == Some(Table(kept))
  {
    assert Read(shape, value).value.fields == kept;
  }

  /** A field that was printed reads back, and so does one that was left out. */
  lemma FieldReadsBack(shape: Shape, value: Value, name: string)
    requires shape.Record? && Sound(shape) && Holds(shape, value) && name in shape.fields
    ensures value.Table?
    ensures ReadField(shape.fields[name], Shown(shape, value).fields, name)
            == if name in value.fields then Got(value.fields[name]) else Nothing
  {
    assert SoundField(shape.fields[name]);
    if name in value.fields {
      ShownReadsBack(shape.fields[name].shape, value.fields[name]);
    }
  }

  /** Whatever is read is a configuration. */
  lemma {:induction false} ReadHolds(shape: Shape, value: Value)
    requires Sound(shape) && Read(shape, value).Some?
    ensures Holds(shape, Read(shape, value).value)
    decreases shape
  {
    match shape
    case Text =>
    case Plain(keep) => assert IsKept(keep, value);
    case Record(fields, listed) =>
      var given := Given(value, listed).value.fields;
      forall name | name in fields && name in given && Read(fields[name].shape, given[name]).Some?
        ensures Holds(fields[name].shape, Read(fields[name].shape, given[name]).value)
      {
        assert SoundField(fields[name]);
        ReadHolds(fields[name].shape, given[name]);
      }
    case Dict(entries) =>
      forall name | name in value.fields ensures Holds(entries, Read(entries, value.fields[name]).value) {
        ReadHolds(entries, value.fields[name]);
      }
  }

  /** A configuration printed as a table reads back as itself. */
  lemma {:induction false} ShownReadsBack(shape: Shape, value: Value)
    requires Sound(shape) && Holds(shape, value)
    ensures Read(shape, Shown(shape, value)) == Some(value)
    decreases shape
  {
    match shape
    case Text =>
    case Plain(_) =>
    case Record(fields, _) =>
      forall name | name in fields
        ensures ReadField(fields[name], Shown(shape, value).fields, name)
                == if name in value.fields then Got(value.fields[name]) else Nothing
      {
        assert SoundField(fields[name]);
        if name in value.fields {
          ShownReadsBack(fields[name].shape, value.fields[name]);
        }
      }
      assert Read(shape, Shown(shape, value)).value.fields == value.fields;
    case Dict(entries) =>
      forall name | name in value.fields
        ensures Read(entries, Shown(entries, value.fields[name])) == Some(value.fields[name])
      {
        ShownReadsBack(entries, value.fields[name]);
      }
      assert Read(shape, Shown(shape, value)).value.fields == value.fields;
  }

  // ----- what is known -----

  /** The part of the configuration that `path` names. */
  function Part(shape: Shape, path: Key): Option<Shape>
    decreases path
  {
    if path == [] then Some(shape)
    else match shape
      case Record(fields, _) => if path[0] in fields then Part(fields[path[0]].shape, path[1..]) else None
      case Dict(entries) => Part(entries, path[1..])
      case _ => None
  }

  lemma {:induction false} PartBelow(shape: Shape, a: Key, b: Key)
    ensures Part(shape, a + b) == if Part(shape, a).Some? then Part(Part(shape, a).value, b) else None
    decreases a
  {
    if a == [] {
      assert a + b == b;
    } else {
      assert (a + b)[1..] == a[1..] + b;
      if shape.Record? && a[0] in shape.fields {
        PartBelow(shape.fields[a[0]].shape, a[1..], b);
      } else if shape.Dict? {
        PartBelow(shape.entries, a[1..], b);
      }
    }
  }

  /** What the configuration makes of `value` given at `path`. */
  function Made(shape: Shape, path: Key, value: Value): Option<Value> {
    match Part(shape, path)
    case Some(part) => Read(part, value)
    case None => None
  }

  /** A value standing in a table at a known path is read there. */
  lemma {:induction false} ReadAt(shape: Shape, table: Value, path: Key)
    requires Read(shape, table).Some? && Part(shape, path).Some? && Lookup(table, path).Some?
    ensures Made(shape, path, Lookup(table, path).value).Some?
    ensures Lookup(Read(shape, table).value, path) == Made(shape, path, Lookup(table, path).value)
    decreases path
  {
    if path != [] {
      var inner := table.fields[path[0]];
      if shape.Record? {
        assert !ReadField(shape.fields[path[0]], table.fields, path[0]).Refused?;
        ReadAt(shape.fields[path[0]].shape, inner, path[1..]);
      } else {
        assert Read(shape.entries, inner).Some?;
        ReadAt(shape.entries, inner, path[1..]);
      }
    }
  }

  // ----- what an overlay leaves alone -----

  /** On the way to `path` the overlay only ever descends with the configuration, and leaves it before the end. */
  predicate Spares(shape: Shape, value: Value, overlay: Value, path: Key)
    decreases path
  {
    && path != [] && value.Table? && overlay.Table?
    && match shape
       case Record(fields, _) =>
         path[0] in fields && path[0] in overlay.fields ==>
           path[0] in value.fields
           && Spares(fields[path[0]].shape, value.fields[path[0]], overlay.fields[path[0]], path[1..])
       case Dict(entries) =>
         path[0] in overlay.fields ==>
           path[0] in value.fields && Spares(entries, value.fields[path[0]], overlay.fields[path[0]], path[1..])
       case _ => false
  }

  lemma MergedIntoNothing(overlay: Value)
    requires overlay.Table?
    ensures Merged(Table(map[]), overlay) == overlay
  {
    assert Merged(Table(map[]), overlay).fields == overlay.fields;
  }

  /** Where the overlay has nothing a merged field is the printed one; where both are tables they are merged. */
  lemma MergedFieldOf(shown: Value, overlay: Value, name: string)
    requires shown.Table? && overlay.Table?
    ensures name !in overlay.fields ==>
              (name in Merged(shown, overlay).fields <==> name in shown.fields)
              && (name in shown.fields ==> Merged(shown, overlay).fields[name] == shown.fields[name])
    ensures name in overlay.fields && overlay.fields[name].Table?
            && (name in shown.fields ==> shown.fields[name].Table?)
            ==> name in Merged(shown, overlay).fields
                && Merged(shown, overlay).fields[name]
                   == Merged(if name in shown.fields then shown.fields[name] else Table(map[]), overlay.fields[name])
  {
    if name in overlay.fields && overlay.fields[name].Table? {
      MergedIntoNothing(overlay.fields[name]);
    }
  }

  /** What a printed configuration holds at `path` is still there when it is read back, if the overlay spares it. */
  lemma {:induction false} SparedIsKept(shape: Shape, value: Value, overlay: Value, path: Key)
    requires Sound(shape) && Holds(shape, value) && Spares(shape, value, overlay, path)
    requires Read(shape, Merged(Shown(shape, value), overlay)).Some?
    ensures Lookup(Read(shape, Merged(Shown(shape, value), overlay)).value, path) == Lookup(value, path)
    decreases path
  {
    hide Merged, MergedField;
    var name, shown := path[0], Shown(shape, value);
    var merged := Merged(shown, overlay);
    MergedFieldOf(shown, overlay, name);
    if shape.Record? && name in shape.fields {
      var field := shape.fields[name];
      assert SoundField(field);
      assert !ReadField(field, merged.fields, name).Refused?;
      if name in value.fields {
        ShownReadsBack(field.shape, value.fields[name]);
        if name in overlay.fields {
          SparedIsKept(field.shape, value.fields[name], overlay.fields[name], path[1..]);
        }
      }
    } else if shape.Dict? && name in value.fields {
      ShownReadsBack(shape.entries, value.fields[name]);
      assert Read(shape.entries, merged.fields[name]).Some?;
      if name in overlay.fields {
        SparedIsKept(shape.entries, value.fields[name], overlay.fields[name], path[1..]);
      }
    }
  }
}
