/**
  Labels printed in the documented form, one label for each property of each
  item, and read back by the parser.
 */
module LabelPrinter {
  import opened Wrappers
  import opened Text
  import opened Labels

  predicate IsProperty(property: string) {
    property == LABEL || property == TYPE || property == DESCRIPTION || property == REQUIRED || property == TAGS
  }

  function PropertyOf(item: InputLabels, property: string): string {
    if property == LABEL then item.caption
    else if property == TYPE then item.kind
    else if property == DESCRIPTION then item.description
    else if property == REQUIRED then item.required
    else if item.tags == [] then ""
    else Join(item.tags, ' ')
  }

  ghost predicate DotFree(section: map<string, InputLabels>) {
    forall name :: name in section ==> Free(name, '.')
  }

  /** The printed labels below a prefix. */
  ghost predicate Prints(labels: Labels, prefix: string, section: map<string, InputLabels>) {
    && (forall name, property :: name in section && IsProperty(property) ==>
          && Key(prefix, name, property) in labels
          && labels[Key(prefix, name, property)] == PropertyOf(section[name], property))
    && (forall key :: key in labels && prefix <= key ==> PrintedKey(prefix, section, key))
  }

  ghost predicate PrintedKey(prefix: string, section: map<string, InputLabels>, key: string) {
    exists name, property :: name in section && IsProperty(property) && key == Key(prefix, name, property)
  }

  /** What an item must be for its printed labels to describe it. */
  predicate Printable(name: string, item: InputLabels) {
    && (item.caption == "" ==> name == "")
    && ValidType(item.kind)
    && item.defaultValue == ""
    && item.tags != []
    && forall tag :: tag in item.tags ==> Free(tag, ' ')
  }

  lemma PrintedNames(labels: Labels, prefix: string, section: map<string, InputLabels>)
    requires DotFree(section) && Prints(labels, prefix, section)
    ensures Names(labels, prefix) == section.Keys
  {
    forall name | name in section
      ensures name in Names(labels, prefix)
    {
      KeyParts(prefix, name, TYPE);
      assert IsProperty(TYPE) && Key(prefix, name, TYPE) in labels;
    }
    forall key | key in labels && prefix <= key && Parts(prefix, key).Some?
      ensures Parts(prefix, key).value.0 in section
    {
      assert PrintedKey(prefix, section, key);
      var name, property :| name in section && IsProperty(property) && key == Key(prefix, name, property);
      KeyParts(prefix, name, property);
    }
  }

  lemma PrintedAccepted(labels: Labels, prefix: string, section: map<string, InputLabels>)
    requires DotFree(section) && Prints(labels, prefix, section)
    ensures Accepted(labels, prefix) <==> forall name :: name in section ==> ValidType(section[name].kind)
  {
    assert IsProperty(TYPE);
    forall key | key in labels && prefix <= key
      ensures Parts(prefix, key).Some? && Parts(prefix, key).value.0 in section
    {
      assert PrintedKey(prefix, section, key);
      var name, property :| name in section && IsProperty(property) && key == Key(prefix, name, property);
      KeyParts(prefix, name, property);
    }
    forall name | name in section
      ensures prefix <= Key(prefix, name, TYPE) && Key(prefix, name, TYPE) in labels
      ensures Parts(prefix, Key(prefix, name, TYPE)) == Some((name, TYPE))
      ensures Property(labels, prefix, name, TYPE) == section[name].kind
    {
      KeyParts(prefix, name, TYPE);
    }
  }

  lemma TagsSurviveIff(tags: seq<string>)
    ensures Split(if tags == [] then "" else Join(tags, ' '), ' ') == tags
       <==> tags != [] && forall tag :: tag in tags ==> Free(tag, ' ')
  {
    if tags != [] && forall tag :: tag in tags ==> Free(tag, ' ') {
      SplitJoin(tags, ' ');
    }
    SplitParts(if tags == [] then "" else Join(tags, ' '), ' ');
  }

  lemma PrintedEntry(labels: Labels, prefix: string, section: map<string, InputLabels>, name: string)
    requires Prints(labels, prefix, section)
    requires name in section && ValidType(section[name].kind)
    ensures Entry(labels, prefix, name) == section[name] <==> Printable(name, section[name])
  {
    var item := section[name];
    assert IsProperty(LABEL) && IsProperty(TYPE) && IsProperty(DESCRIPTION) && IsProperty(REQUIRED) && IsProperty(TAGS);
    TagsSurviveIff(item.tags);
    assert PropertyOf(item, TAGS) == (if item.tags == [] then "" else Join(item.tags, ' '));
  }

  lemma PrintedSection(labels: Labels, prefix: string, section: map<string, InputLabels>)
    requires DotFree(section) && Prints(labels, prefix, section)
    ensures Accepted(labels, prefix) && Section(labels, prefix) == section
       <==> forall name :: name in section ==> Printable(name, section[name])
  {
    PrintedNames(labels, prefix, section);
    PrintedAccepted(labels, prefix, section);
    forall name | name in section && ValidType(section[name].kind)
      ensures Entry(labels, prefix, name) == section[name] <==> Printable(name, section[name])
    {
      PrintedEntry(labels, prefix, section, name);
    }
    if Accepted(labels, prefix) && Section(labels, prefix) == section {
      forall name | name in section
        ensures Entry(labels, prefix, name) == section[name]
      {
        assert Section(labels, prefix)[name] == section[name];
      }
    }
  }

  // ---------------------------------------------------------------- printing

  const PROPERTIES: set<string> := {LABEL, TYPE, DESCRIPTION, REQUIRED, TAGS}

  function PrintSection(prefix: string, section: map<string, InputLabels>): Labels
    requires DotFree(section)
  {
    KeysAreDistinct(prefix, section);
    map name, property | name in section && property in PROPERTIES ::
      Key(prefix, name, property) := PropertyOf(section[name], property)
  }

  lemma KeysAreDistinct(prefix: string, section: map<string, InputLabels>)
    requires DotFree(section)
    ensures forall name, property, name', property' ::
      name in section && name' in section && Key(prefix, name, property) == Key(prefix, name', property') ==>
        name == name' && property == property'
  {
    forall name, property | name in section
      ensures prefix <= Key(prefix, name, property)
      ensures Parts(prefix, Key(prefix, name, property)) == Some((name, property))
    {
      KeyParts(prefix, name, property);
    }
  }

  function PrintMeta(meta: MetaLabels): Labels {
    map[META_NAME := meta.name, META_DESCRIPTION := meta.description, META_AUTHOR := meta.author, META_URL := meta.url]
  }

  function Print(parsed: ParsedLabels): Labels
    requires DotFree(parsed.inputs) && DotFree(parsed.config)
  {
    PrintMeta(parsed.meta) + PrintSection(INPUTS, parsed.inputs) + PrintSection(CONFIG, parsed.config)
  }

  lemma PrintSectionPrints(prefix: string, section: map<string, InputLabels>)
    requires DotFree(section)
    ensures Prints(PrintSection(prefix, section), prefix, section)
    ensures forall key :: key in PrintSection(prefix, section) ==> prefix <= key
  {
    KeysAreDistinct(prefix, section);
    var labels := PrintSection(prefix, section);
    forall name, property | name in section && IsProperty(property)
      ensures Key(prefix, name, property) in labels
      ensures labels[Key(prefix, name, property)] == PropertyOf(section[name], property)
    {
      assert property in PROPERTIES;
    }
    forall key | key in labels
      ensures prefix <= key && PrintedKey(prefix, section, key)
    {
      var name, property :| name in section && property in PROPERTIES && key == Key(prefix, name, property);
      KeyParts(prefix, name, property);
      assert IsProperty(property);
    }
  }

  /** Only the keys below a prefix matter to its section. */
  lemma PrintsElsewhere(labels: Labels, labels': Labels, prefix: string, section: map<string, InputLabels>)
    requires Prints(labels, prefix, section)
    requires forall key :: prefix <= key ==>
      (key in labels <==> key in labels') && (key in labels ==> labels[key] == labels'[key])
    ensures Prints(labels', prefix, section)
  {
    forall name, property | name in section && IsProperty(property)
      ensures Key(prefix, name, property) in labels'
      ensures labels'[Key(prefix, name, property)] == PropertyOf(section[name], property)
    {
      assert prefix <= Key(prefix, name, property);
    }
  }

  lemma MetaKeysLieElsewhere(key: string)
    requires key == META_NAME || key == META_DESCRIPTION || key == META_AUTHOR || key == META_URL
    ensures !(INPUTS <= key) && !(CONFIG <= key)
  {
    assert INPUTS[14] == 'i' && CONFIG[14] == 'c';
    assert META_NAME[14] == 'm' && META_DESCRIPTION[14] == 'm' && META_AUTHOR[14] == 'm' && META_URL[14] == 'm';
  }

  lemma MetaKeysDiffer()
    ensures META_NAME != META_DESCRIPTION && META_NAME != META_AUTHOR && META_NAME != META_URL
    ensures META_DESCRIPTION != META_AUTHOR && META_DESCRIPTION != META_URL && META_AUTHOR != META_URL
  {
    assert META_NAME[19] == 'n' && META_DESCRIPTION[19] == 'd' && META_AUTHOR[19] == 'a' && META_URL[19] == 'u';
  }

  lemma GetThrough(labels: Labels, inputs: Labels, config: Labels, key: string)
    requires key in labels
    requires !(INPUTS <= key) && forall k :: k in inputs ==> INPUTS <= k
    requires !(CONFIG <= key) && forall k :: k in config ==> CONFIG <= k
    ensures Get(labels + inputs + config, key) == labels[key]
  {
  }

  lemma PrintedMeta(meta: MetaLabels, inputs: Labels, config: Labels)
    requires forall key :: key in inputs ==> INPUTS <= key
    requires forall key :: key in config ==> CONFIG <= key
    ensures Meta(PrintMeta(meta) + inputs + config) == meta
  {
    MetaKeysDiffer();
    MetaKeysLieElsewhere(META_NAME);
    MetaKeysLieElsewhere(META_DESCRIPTION);
    MetaKeysLieElsewhere(META_AUTHOR);
    MetaKeysLieElsewhere(META_URL);
    var labels := PrintMeta(meta);
    GetThrough(labels, inputs, config, META_NAME);
    GetThrough(labels, inputs, config, META_DESCRIPTION);
    GetThrough(labels, inputs, config, META_AUTHOR);
    GetThrough(labels, inputs, config, META_URL);
  }

  lemma OnlyInputs(meta: Labels, inputs: Labels, config: Labels, key: string)
    requires forall k :: k in meta ==> !(INPUTS <= k)
    requires forall k :: k in config ==> CONFIG <= k
    requires INPUTS <= key
    ensures key in inputs <==> key in meta + inputs + config
    ensures key in inputs ==> inputs[key] == (meta + inputs + config)[key]
  {
    PrefixesDiffer(key);
  }

  lemma OnlyConfig(meta: Labels, inputs: Labels, config: Labels, key: string)
    requires forall k :: k in meta ==> !(CONFIG <= k)
    requires forall k :: k in inputs ==> INPUTS <= k
    requires CONFIG <= key
    ensures key in config <==> key in meta + inputs + config
    ensures key in config ==> config[key] == (meta + inputs + config)[key]
  {
    PrefixesDiffer(key);
  }

  lemma PrintPrints(meta: Labels, inputs: Labels, config: Labels, parsed: ParsedLabels)
    requires forall k :: k in meta ==> !(INPUTS <= k) && !(CONFIG <= k)
    requires forall k :: k in inputs ==> INPUTS <= k
    requires forall k :: k in config ==> CONFIG <= k
    requires Prints(inputs, INPUTS, parsed.inputs) && Prints(config, CONFIG, parsed.config)
    ensures Prints(meta + inputs + config, INPUTS, parsed.inputs)
    ensures Prints(meta + inputs + config, CONFIG, parsed.config)
  {
    var labels := meta + inputs + config;
    forall key | INPUTS <= key
      ensures (key in inputs <==> key in labels) && (key in inputs ==> inputs[key] == labels[key])
    {
      OnlyInputs(meta, inputs, config, key);
    }
    PrintsElsewhere(inputs, labels, INPUTS, parsed.inputs);
    forall key | CONFIG <= key
      ensures (key in config <==> key in labels) && (key in config ==> config[key] == labels[key])
    {
      OnlyConfig(meta, inputs, config, key);
    }
    PrintsElsewhere(config, labels, CONFIG, parsed.config);
  }

  lemma PrintedLabels(parsed: ParsedLabels)
    requires DotFree(parsed.inputs) && DotFree(parsed.config)
    ensures Meta(Print(parsed)) == parsed.meta
    ensures Prints(Print(parsed), INPUTS, parsed.inputs) && Prints(Print(parsed), CONFIG, parsed.config)
  {
    var meta := PrintMeta(parsed.meta);
    var inputs, config := PrintSection(INPUTS, parsed.inputs), PrintSection(CONFIG, parsed.config);
    PrintSectionPrints(INPUTS, parsed.inputs);
    PrintSectionPrints(CONFIG, parsed.config);
    PrintedMeta(parsed.meta, inputs, config);
    forall key | key in meta
      ensures !(INPUTS <= key) && !(CONFIG <= key)
    {
      MetaKeysLieElsewhere(key);
    }
    PrintPrints(meta, inputs, config, parsed);
  }

  lemma PrintedMeaning(labels: Labels, parsed: ParsedLabels)
    requires DotFree(parsed.inputs) && DotFree(parsed.config)
    requires Meta(labels) == parsed.meta
    requires Prints(labels, INPUTS, parsed.inputs) && Prints(labels, CONFIG, parsed.config)
    ensures Parses(labels) && Meaning(labels) == parsed
       <==> AllPrintable(parsed.inputs) && AllPrintable(parsed.config)
  {
    PrintedSection(labels, INPUTS, parsed.inputs);
    PrintedSection(labels, CONFIG, parsed.config);
  }

  ghost predicate AllPrintable(section: map<string, InputLabels>) {
    forall name :: name in section ==> Printable(name, section[name])
  }

  /** Printed labels are parsed back to what was printed, exactly when every item is printable. */
  lemma PrintThenParseIff(parsed: ParsedLabels)
    requires DotFree(parsed.inputs) && DotFree(parsed.config)
    ensures Parses(Print(parsed)) && Meaning(Print(parsed)) == parsed
       <==> AllPrintable(parsed.inputs) && AllPrintable(parsed.config)
  {
    PrintedLabels(parsed);
    PrintedMeaning(Print(parsed), parsed);
  }

  lemma SectionIsPrintable(labels: Labels, prefix: string)
    requires Accepted(labels, prefix)
    ensures DotFree(Section(labels, prefix)) && AllPrintable(Section(labels, prefix))
  {
    forall name | name in Section(labels, prefix)
      ensures Free(name, '.') && Printable(name, Section(labels, prefix)[name])
    {
      var key :| key in labels && prefix <= key && Parts(prefix, key).Some? && Parts(prefix, key).value.0 == name;
      SplitParts(Property(labels, prefix, name, TAGS), ' ');
    }
  }

  /** Whatever labels an image carries, what they mean can be printed and parsed again without loss. */
  lemma ParseThenPrint(labels: Labels)
    requires Parses(labels)
    ensures DotFree(Meaning(labels).inputs) && DotFree(Meaning(labels).config)
    ensures Parses(Print(Meaning(labels))) && Meaning(Print(Meaning(labels))) == Meaning(labels)
  {
    SectionIsPrintable(labels, INPUTS);
    SectionIsPrintable(labels, CONFIG);
    PrintThenParseIff(Meaning(labels));
  }
}
