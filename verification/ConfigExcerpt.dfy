/** An excerpt of the program's own configuration, which the results about configurations speak of. */
module ConfigExcerpt {
  import opened Wrappers
  import opened Text
  import opened ConfigMerge
  import opened ConfigReader
  import opened ProjectConfig
  import opened ConfigReports

  /** A record of text fields, each required or with a default, all of them printed. */
  function Texts(defaults: map<string, Option<string>>): Shape {
    Record(map name | name in defaults :: TextField(defaults[name]), _ => None)
  }

  function TextField(text: Option<string>): Field {
    Field(Shape.Text, match text case Some(t) => Default(Str(t)) case None => Fails, _ => false)
  }

  function Filled(texts: map<string, string>): Value {
    Table(map name | name in texts :: Str(texts[name]))
  }

  /** A record field that is always printed. */
  function Printed(shape: Shape, value: Value): Field {
    Field(shape, Default(value), _ => false)
  }

  /** A dictionary, empty by default and then not printed. */
  function Dictionary(entries: Shape): Field {
    Field(Dict(entries), Default(Table(map[])), value => value == Table(map[]))
  }

  // ----- such parts fit -----

  lemma TextsFit(defaults: map<string, Option<string>>, texts: map<string, string>)
    requires texts.Keys == defaults.Keys
    ensures Texts(defaults).Record? && Filled(texts).Table?
    ensures Sound(Texts(defaults)) && Holds(Texts(defaults), Filled(texts))
  {
    forall name | name in defaults ensures SoundField(Texts(defaults).fields[name]) {
    }
  }

  lemma PrintedFits(shape: Shape, value: Value)
    requires shape.Record? && Sound(shape) && Holds(shape, value)
    ensures SoundField(Printed(shape, value))
  {
  }

  lemma DictionaryFits(entries: Shape)
    requires Sound(entries)
    ensures SoundField(Dictionary(entries))
  {
  }

  lemma RecordFits(shape: Shape, value: Value)
    requires shape.Record? && value.Table? && value.fields.Keys == shape.fields.Keys
    requires forall name <- shape.fields :: Holds(shape.fields[name].shape, value.fields[name])
    requires forall name <- shape.fields :: SoundField(shape.fields[name])
    ensures Sound(shape) && Holds(shape, value)
  {
  }

  lemma DictHolds(entries: Shape, value: Value)
    requires value.Table? && forall name <- value.fields :: Holds(entries, value.fields[name])
    ensures Holds(Dict(entries), value)
  {
  }

  // ----- the excerpt -----

  const AISHE_DEFAULTS := map["mode" := Some("suggest"), "provider" := Some("anthropic"), "connection" := Some("")]
  const AISHE := map["mode" := "suggest", "provider" := "anthropic", "connection" := "anthropic"]

  const PROVIDER_DEFAULTS := map["base_url" := None, "model" := None]
  const ANTHROPIC := map["base_url" := "https://api.anthropic.com", "model" := "claude-sonnet-4-20250514"]
  const OPENAI := map["base_url" := "https://api.openai.com", "model" := "gpt-4o"]

  const CONNECTION_DEFAULTS := map["base_url" := None, "model" := None, "provider" := None]
  const TO_ANTHROPIC :=
    map["base_url" := "https://api.anthropic.com", "model" := "claude-sonnet-4-20250514", "provider" := "anthropic"]
  const TO_OPENAI := map["base_url" := "https://api.openai.com", "model" := "gpt-4o", "provider" := "openai"]

  function ProvidersShape(): Shape {
    Record(map["anthropic" := Printed(Texts(PROVIDER_DEFAULTS), Filled(ANTHROPIC)),
               "openai" := Printed(Texts(PROVIDER_DEFAULTS), Filled(OPENAI))], _ => None)
  }

  function Providers(): Value {
    Table(map["anthropic" := Filled(ANTHROPIC), "openai" := Filled(OPENAI)])
  }

  function Connections(): Value {
    Table(map["anthropic" := Filled(TO_ANTHROPIC), "openai" := Filled(TO_OPENAI)])
  }

  function Excerpt(): Schema {
    Schema(Record(map["aishe" := Printed(Texts(AISHE_DEFAULTS), Filled(AISHE)),
                      "providers" := Printed(ProvidersShape(), Providers()),
                      "connections" := Dictionary(Texts(CONNECTION_DEFAULTS)),
                      "named_dirs" := Dictionary(Shape.Text)], _ => None),
           _ => true)
  }

  /** The program's defaults, as far as the excerpt goes. */
  function Defaults(): Value {
    Table(map["aishe" := Filled(AISHE), "providers" := Providers(), "connections" := Connections(),
              "named_dirs" := Table(map[])])
  }

  lemma TextIsKnown(defaults: map<string, Option<string>>, name: string)
    requires name in defaults
    ensures IsText(Texts(defaults).fields, name)
  {
  }

  lemma AisheFits()
    ensures Texts(AISHE_DEFAULTS).Record? && Sound(Texts(AISHE_DEFAULTS)) && Holds(Texts(AISHE_DEFAULTS), Filled(AISHE))
    ensures forall name <- {"mode", "provider", "connection"} :: IsText(Texts(AISHE_DEFAULTS).fields, name)
  {
    hide Sound, Holds, IsText, Texts, Filled;
    TextsFit(AISHE_DEFAULTS, AISHE);
    forall name | name in {"mode", "provider", "connection"} ensures IsText(Texts(AISHE_DEFAULTS).fields, name) {
      TextIsKnown(AISHE_DEFAULTS, name);
    }
  }

  lemma ProvidersFit()
    ensures ProvidersShape().Record? && Sound(ProvidersShape()) && Holds(ProvidersShape(), Providers())
    ensures forall name <- ProvidersShape().fields :: IsRecord(ProvidersShape().fields, name)
  {
    hide Sound, Holds, SoundField, Filled;
    TextsFit(PROVIDER_DEFAULTS, ANTHROPIC);
    TextsFit(PROVIDER_DEFAULTS, OPENAI);
    PrintedFits(Texts(PROVIDER_DEFAULTS), Filled(ANTHROPIC));
    PrintedFits(Texts(PROVIDER_DEFAULTS), Filled(OPENAI));
    RecordFits(ProvidersShape(), Providers());
  }

  lemma ConnectionsFit()
    ensures Texts(CONNECTION_DEFAULTS).Record? && Sound(Texts(CONNECTION_DEFAULTS))
    ensures Holds(Dict(Texts(CONNECTION_DEFAULTS)), Connections())
    ensures IsText(Texts(CONNECTION_DEFAULTS).fields, "provider")
  {
    hide Sound, Holds, Filled, Texts, IsText;
    TextsFit(CONNECTION_DEFAULTS, TO_ANTHROPIC);
    TextsFit(CONNECTION_DEFAULTS, TO_OPENAI);
    TextIsKnown(CONNECTION_DEFAULTS, "provider");
    hide CONNECTION_DEFAULTS, TO_ANTHROPIC, TO_OPENAI;
    DictHolds(Texts(CONNECTION_DEFAULTS), Connections());
  }

  lemma ExcerptFits()
    ensures Excerpt().root.Record? && Sound(Excerpt().root) && Holds(Excerpt().root, Defaults())
  {
    hide Sound, Holds, SoundField, Filled, Texts, ProvidersShape, Providers, Connections, AISHE_DEFAULTS, AISHE,
         CONNECTION_DEFAULTS;
    AisheFits();
    ProvidersFit();
    ConnectionsFit();
    PrintedFits(Texts(AISHE_DEFAULTS), Filled(AISHE));
    PrintedFits(ProvidersShape(), Providers());
    DictionaryFits(Texts(CONNECTION_DEFAULTS));
    TextIsSound();
    DictionaryFits(Shape.Text);
    DictHolds(Shape.Text, Table(map[]));
    RecordFits(Excerpt().root, Defaults());
  }

  /** The excerpt is one the results speak about, and its defaults are a configuration. */
  lemma ExcerptIsConfigured()
    ensures Configured(Excerpt(), Defaults()) && Excerpt().prints(Defaults())
  {
    hide Sound, Holds, Filled, Texts, ProvidersShape, Providers, Connections, AISHE_DEFAULTS, AISHE,
         CONNECTION_DEFAULTS, Defaults;
    ExcerptFits();
    AisheFits();
    ProvidersFit();
    ConnectionsFit();
  }

  lemma TextIsSound()
    ensures Sound(Shape.Text)
  {
  }

  lemma OpenAiIsNormal()
    ensures NormalConnection("openai") == Some("openai")
  {
    assert Trim("openai") == "openai";
    assert Lower("openai") == "openai";
    assert Dashed("openai") == "openai";
  }

  lemma OpenAiIsKnown()
    ensures ConnectionProvider(Defaults(), "openai") == Some(Str("openai"))
    ensures Lookup(Defaults(), PROVIDER) == Some(Str("anthropic"))
  {
    hide Providers, Lookup;
    LookupUnfolds(Defaults(), ["connections", "openai", "provider"]);
    LookupUnfolds(Defaults(), PROVIDER);
  }

  /** On the defaults: selecting the other connection changes the provider, and nothing says so. */
  lemma SelectingOpenAi()
    ensures var project := AisheOnly(map["connection" := Str("openai")]);
            && (forall key :: Applies(Names(Defaults()), true, project, key) ==> key == CONNECTION)
            && Lookup(Defaults(), PROVIDER) == Some(Str("anthropic"))
            && Lookup(AfterMerge(Excerpt(), Defaults(), project, true), PROVIDER) == Some(Str("openai"))
  {
    hide Configured, NormalConnection, ConnectionProvider, Lookup, AfterMerge, Defaults, Excerpt, Applies;
    OpenAiIsNormal();
    OpenAiIsKnown();
    ExcerptIsConfigured();
    ProviderChangesUnreported(Excerpt(), Defaults(), "openai", Str("openai"));
  }
}
