/**
  Image labels parsed into a task definition.

  The parser ranges over maps, so it meets their keys in an arbitrary order. Its
  results are stated by direct lookups in the label map, which no order enters.
 */
module Labels {
  import opened Wrappers
  import opened Text
  import Tasks

  const INPUTS := "io.oplet.task.inputs."
  const CONFIG := "io.oplet.task.config."
  const META_NAME := "io.oplet.task.meta.name"
  const META_DESCRIPTION := "io.oplet.task.meta.description"
  const META_AUTHOR := "io.oplet.task.meta.author"
  const META_URL := "io.oplet.task.meta.url"

  const LABEL := "label"
  const TYPE := "type"
  const DESCRIPTION := "description"
  const REQUIRED := "required"
  const TAGS := "tags"

  datatype MetaLabels = MetaLabels(name: string, description: string, author: string, url: string)

  datatype InputLabels = InputLabels(
    caption: string,
    kind: string,
    description: string,
    required: string,
    defaultValue: string,
    tags: seq<string>)

  datatype ParsedLabels = ParsedLabels(
    meta: MetaLabels,
    inputs: map<string, InputLabels>,
    config: map<string, InputLabels>)

  datatype PropertyError = MissingType | InvalidType(kind: string)

  datatype LabelError =
    | InvalidFormat(key: string)
    | InvalidItem(name: string, reason: PropertyError)
    | MissingName
    | InvalidRequired(name: string, value: string)

  type Labels = map<string, string>

  /** A Go map lookup: absent keys read as the empty string. */
  function Get(labels: Labels, key: string): string {
    if key in labels then labels[key] else ""
  }

  function TypeOf(kind: string): (r: Tasks.Type) {
    if kind == "text" then Tasks.Text
    else if kind == "number" then Tasks.Number
    else if kind == "file" then Tasks.File
    else if kind == "secret" then Tasks.Secret
    else if kind == "boolean" then Tasks.Boolean
    else Tasks.Other(kind)
  }

  predicate ValidType(kind: string) {
    !TypeOf(kind).Other?
  }

  // ---------------------------------------------------------------- the meaning of a label map

  /** The documented form of a key; the prefix ends in a dot. */
  function Key(prefix: string, name: string, property: string): string {
    prefix + name + ['.'] + property
  }

  /** The name and the property of a key below a prefix. */
  function Parts(prefix: string, key: string): (r: Option<(string, string)>)
    requires prefix <= key
    ensures r.Some? ==> Free(r.value.0, '.') && key == Key(prefix, r.value.0, r.value.1)
  {
    var r := Cut(key[|prefix|..], '.');
    assert r.Some? ==> key == prefix + (r.value.0 + ['.'] + r.value.1) == Key(prefix, r.value.0, r.value.1);
    r
  }

  /** Names and properties of the documented form are read back as they were written. */
  lemma KeyParts(prefix: string, name: string, property: string)
    requires Free(name, '.')
    ensures prefix <= Key(prefix, name, property)
    ensures Parts(prefix, Key(prefix, name, property)) == Some((name, property))
  {
    assert Key(prefix, name, property)[|prefix|..] == name + ['.'] + property;
    CutIsUnique(name, property, '.');
  }

  function Property(labels: Labels, prefix: string, name: string, property: string): string {
    Get(labels, Key(prefix, name, property))
  }

  function Names(labels: Labels, prefix: string): set<string> {
    set key | key in labels && prefix <= key && Parts(prefix, key).Some? :: Parts(prefix, key).value.0
  }

  function Entry(labels: Labels, prefix: string, name: string): InputLabels {
    var caption := Property(labels, prefix, name, LABEL);
    InputLabels(
      if caption == "" then name else caption,
      Property(labels, prefix, name, TYPE),
      Property(labels, prefix, name, DESCRIPTION),
      Property(labels, prefix, name, REQUIRED),
      "",
      Split(Property(labels, prefix, name, TAGS), ' '))
  }

  function Section(labels: Labels, prefix: string): map<string, InputLabels> {
    map name | name in Names(labels, prefix) :: Entry(labels, prefix, name)
  }

  /** Every key below the prefix names an item and a property, and every item has a valid type. */
  ghost predicate Accepted(labels: Labels, prefix: string) {
    forall key :: key in labels && prefix <= key ==>
      && Parts(prefix, key).Some?
      && ValidType(Property(labels, prefix, Parts(prefix, key).value.0, TYPE))
  }

  function Meta(labels: Labels): MetaLabels {
    MetaLabels(Get(labels, META_NAME), Get(labels, META_DESCRIPTION), Get(labels, META_AUTHOR), Get(labels, META_URL))
  }

  ghost predicate Parses(labels: Labels) {
    Accepted(labels, INPUTS) && Accepted(labels, CONFIG)
  }

  function Meaning(labels: Labels): ParsedLabels {
    ParsedLabels(Meta(labels), Section(labels, INPUTS), Section(labels, CONFIG))
  }

  // ---------------------------------------------------------------- the parser

  type Groups = map<string, map<string, string>>

  /** The groups hold exactly the labels below the prefix whose keys were visited. */
  ghost predicate Grouped(labels: Labels, visited: set<string>, prefix: string, groups: Groups) {
    && (forall key :: key in visited && prefix <= key ==> Filed(prefix, key, groups))
    && (forall name :: name in groups ==> groups[name] != map[])
    && (forall name, property :: name in groups && property in groups[name] ==>
          && Free(name, '.')
          && Key(prefix, name, property) in labels
          && Key(prefix, name, property) in visited
          && groups[name][property] == labels[Key(prefix, name, property)])
  }

  ghost predicate Filed(prefix: string, key: string, groups: Groups)
    requires prefix <= key
  {
    && Parts(prefix, key).Some?
    && Parts(prefix, key).value.0 in groups
    && Parts(prefix, key).value.1 in groups[Parts(prefix, key).value.0]
  }

  method GroupLabel(key: string, value: string, prefix: string, groups: Groups)
    returns (r: Result<Groups, LabelError>)
    requires prefix <= key
    ensures r.Failure? <==> Free(key[|prefix|..], '.')
    ensures r.Failure? ==> r.error == InvalidFormat(key)
    ensures r.Success? ==>
      exists name, property ::
        && Free(name, '.') && key == Key(prefix, name, property)
        && r.value == groups[name := (if name in groups then groups[name] else map[])[property := value]]
  {
    var suffix := key[|prefix|..];
    var parts := Parts(prefix, key);
    if parts.None? {
      return Failure(InvalidFormat(key));
    }
    var (name, property) := parts.value;
    var groups' := groups;
    if name !in groups' {
      groups' := groups'[name := map[]];
    }
    groups' := groups'[name := groups'[name][property := value]];
    assert groups' == groups[name := (if name in groups then groups[name] else map[])[property := value]];
    return Success(groups');
  }

  lemma GroupedStep(labels: Labels, visited: set<string>, prefix: string, groups: Groups, name: string,
                    property: string,
                    groups': Groups)
    requires Grouped(labels, visited, prefix, groups)
    requires Free(name, '.') && Key(prefix, name, property) in labels
    requires var value := labels[Key(prefix, name, property)];
      groups' == groups[name := (if name in groups then groups[name] else map[])[property := value]]
    ensures Grouped(labels, visited + {Key(prefix, name, property)}, prefix, groups')
  {
    var key := Key(prefix, name, property);
    KeyParts(prefix, name, property);
    assert Filed(prefix, key, groups');
    forall k | k in visited && prefix <= k
      ensures Filed(prefix, k, groups')
    {
      assert Filed(prefix, k, groups);
    }
    assert property in groups'[name];
  }

  lemma GroupedKey(labels: Labels, visited: set<string>, prefix: string, groups: Groups, key: string, groups': Groups)
    requires Grouped(labels, visited, prefix, groups) && key in labels
    requires exists name, property ::
      && Free(name, '.') && key == Key(prefix, name, property)
      && groups' == groups[name := (if name in groups then groups[name] else map[])[property := labels[key]]]
    ensures Grouped(labels, visited + {key}, prefix, groups')
  {
    var name, property :|
      && Free(name, '.') && key == Key(prefix, name, property)
      && groups' == groups[name := (if name in groups then groups[name] else map[])[property := labels[key]]];
    GroupedStep(labels, visited, prefix, groups, name, property, groups');
  }

  lemma GroupedElsewhere(labels: Labels, visited: set<string>, prefix: string, groups: Groups, key: string)
    requires Grouped(labels, visited, prefix, groups) && !(prefix <= key)
    ensures Grouped(labels, visited + {key}, prefix, groups)
  {
  }

  /** Groups of a whole label map answer lookups as the map itself does. */
  lemma GroupedGet(labels: Labels, prefix: string, groups: Groups, name: string, property: string)
    requires Grouped(labels, labels.Keys, prefix, groups)
    requires name in groups
    ensures Get(groups[name], property) == Property(labels, prefix, name, property)
  {
    var some :| some in groups[name];
    assert Free(name, '.');
    KeyParts(prefix, name, property);
    var key := Key(prefix, name, property);
    if key in labels {
      assert Filed(prefix, key, groups);
    }
  }

  lemma GroupedNames(labels: Labels, prefix: string, groups: Groups)
    requires Grouped(labels, labels.Keys, prefix, groups)
    ensures groups.Keys == Names(labels, prefix)
  {
    forall name | name in groups
      ensures name in Names(labels, prefix)
    {
      var property :| property in groups[name];
      KeyParts(prefix, name, property);
      assert Key(prefix, name, property) in labels;
    }
    forall key | key in labels && prefix <= key && Parts(prefix, key).Some?
      ensures Parts(prefix, key).value.0 in groups
    {
      assert Filed(prefix, key, groups);
    }
  }

  method BuildInputLabels(props: map<string, string>) returns (r: Result<InputLabels, PropertyError>)
    ensures r.Success? <==> ValidType(Get(props, TYPE))
    ensures r.Success? ==>
      r.value == InputLabels(Get(props, LABEL), Get(props, TYPE), Get(props, DESCRIPTION), Get(props, REQUIRED), "",
                             Split(Get(props, TAGS), ' '))
    ensures r.Failure? ==>
      r.error == if Get(props, TYPE) == "" then MissingType else InvalidType(Get(props, TYPE))
  {
    var inputLabels := InputLabels(Get(props, LABEL), Get(props, TYPE), Get(props, DESCRIPTION), Get(props, REQUIRED),
                                   "", Split(Get(props, TAGS), ' '));
    if inputLabels.kind == "" {
      return Failure(MissingType);
    }
    if !ValidType(inputLabels.kind) {
      return Failure(InvalidType(inputLabels.kind));
    }
    return Success(inputLabels);
  }

  /** The item a group of labels describes. */
  function Described(name: string, props: map<string, string>): InputLabels {
    InputLabels(if Get(props, LABEL) == "" then name else Get(props, LABEL),
                Get(props, TYPE), Get(props, DESCRIPTION), Get(props, REQUIRED), "", Split(Get(props, TAGS), ' '))
  }

  ghost predicate InvalidGroup(groups: Groups, name: string) {
    name in groups && !ValidType(Get(groups[name], TYPE))
  }

  method BuildSection(groups: Groups) returns (r: Result<map<string, InputLabels>, LabelError>)
    ensures r.Success? ==> forall name :: !InvalidGroup(groups, name)
    ensures r.Success? ==>
      r.value.Keys == groups.Keys && forall name :: name in groups ==> r.value[name] == Described(name, groups[name])
    ensures r.Failure? ==> r.error.InvalidItem? && InvalidGroup(groups, r.error.name)
    ensures r.Failure? ==>
      var kind := Get(groups[r.error.name], TYPE);
      r.error.reason == if kind == "" then MissingType else InvalidType(kind)
  {
    var section: map<string, InputLabels> := map[];
    var rest := groups.Keys;
    while rest != {}
      invariant rest <= groups.Keys
      invariant section.Keys == groups.Keys - rest
      invariant forall name :: name in section ==>
        section[name] == Described(name, groups[name]) && !InvalidGroup(groups, name)
    {
      var name :| name in rest;
      var built := BuildInputLabels(groups[name]);
      if built.Failure? {
        return Failure(InvalidItem(name, built.error));
      }
      var inputLabels := built.value;
      if inputLabels.caption == "" {
        inputLabels := inputLabels.(caption := name);
      }
      section := section[name := inputLabels];
      rest := rest - {name};
    }
    return Success(section);
  }

  lemma BuiltEntry(labels: Labels, prefix: string, groups: Groups, name: string)
    requires Grouped(labels, labels.Keys, prefix, groups)
    requires name in groups
    ensures Described(name, groups[name]) == Entry(labels, prefix, name)
  {
    GroupedGet(labels, prefix, groups, name, LABEL);
    GroupedGet(labels, prefix, groups, name, TYPE);
    GroupedGet(labels, prefix, groups, name, DESCRIPTION);
    GroupedGet(labels, prefix, groups, name, REQUIRED);
    GroupedGet(labels, prefix, groups, name, TAGS);
  }

  lemma BuiltIsAccepted(labels: Labels, prefix: string, groups: Groups)
    requires Grouped(labels, labels.Keys, prefix, groups)
    requires forall name :: !InvalidGroup(groups, name)
    ensures Accepted(labels, prefix)
  {
    forall key | key in labels && prefix <= key
      ensures Parts(prefix, key).Some? && ValidType(Property(labels, prefix, Parts(prefix, key).value.0, TYPE))
    {
      assert Filed(prefix, key, groups);
      var name := Parts(prefix, key).value.0;
      assert !InvalidGroup(groups, name);
      GroupedGet(labels, prefix, groups, name, TYPE);
    }
  }

  /** A built section reads as the labels below its prefix do. */
  lemma BuiltSection(labels: Labels, prefix: string, groups: Groups, section: map<string, InputLabels>)
    requires Grouped(labels, labels.Keys, prefix, groups)
    requires section.Keys == groups.Keys && forall name :: name in groups ==>
      section[name] == Described(name, groups[name])
    ensures section == Section(labels, prefix)
  {
    hide Grouped, Described, Entry, Names;
    GroupedNames(labels, prefix, groups);
    forall name | name in groups
      ensures section[name] == Entry(labels, prefix, name)
    {
      BuiltEntry(labels, prefix, groups, name);
    }
  }

  /** What makes a label map unacceptable below a prefix. */
  ghost predicate Blames(labels: Labels, prefix: string, error: LabelError) {
    match error
    case InvalidFormat(key) => key in labels && prefix <= key && Parts(prefix, key).None?
    case InvalidItem(name, reason) =>
      var kind := Property(labels, prefix, name, TYPE);
      && name in Names(labels, prefix) && !ValidType(kind)
      && reason == if kind == "" then MissingType else InvalidType(kind)
    case _ => false
  }

  lemma BlamedIsRejected(labels: Labels, prefix: string, error: LabelError)
    requires Blames(labels, prefix, error)
    ensures !Accepted(labels, prefix)
  {
    if error.InvalidItem? {
      var key :| key in labels && prefix <= key && Parts(prefix, key).Some? && Parts(prefix, key).value.0 == error.name;
    }
  }

  lemma InvalidGroupIsBlamed(labels: Labels, prefix: string, groups: Groups, error: LabelError)
    requires Grouped(labels, labels.Keys, prefix, groups)
    requires error.InvalidItem? && InvalidGroup(groups, error.name)
    requires var kind := Get(groups[error.name], TYPE);
      error.reason == if kind == "" then MissingType else InvalidType(kind)
    ensures Blames(labels, prefix, error)
  {
    GroupedNames(labels, prefix, groups);
    GroupedGet(labels, prefix, groups, error.name, TYPE);
  }

  lemma PrefixesDiffer(key: string)
    ensures !(INPUTS <= key && CONFIG <= key)
  {
    assert INPUTS[14] == 'i' && CONFIG[14] == 'c';
  }

  lemma KeyIsBlamed(labels: Labels, prefix: string, key: string)
    requires key in labels && prefix <= key && Free(key[|prefix|..], '.')
    ensures Blames(labels, prefix, InvalidFormat(key))
  {
  }

  /** Groups the labels of inputs and of configuration items by name. */
  method GroupLabels(labels: Labels) returns (r: Result<(Groups, Groups), LabelError>)
    ensures r.Success? ==>
      && Grouped(labels, labels.Keys, INPUTS, r.value.0)
      && Grouped(labels, labels.Keys, CONFIG, r.value.1)
    ensures r.Failure? ==> Blames(labels, INPUTS, r.error) || Blames(labels, CONFIG, r.error)
  {
    hide Blames;
    var inputGroups: Groups, configGroups: Groups := map[], map[];
    var rest := labels.Keys;
    while rest != {}
      invariant rest <= labels.Keys
      invariant Grouped(labels, labels.Keys - rest, INPUTS, inputGroups)
      invariant Grouped(labels, labels.Keys - rest, CONFIG, configGroups)
    {
      var key :| key in rest;
      PrefixesDiffer(key);
      ghost var visited := labels.Keys - rest;
      if INPUTS <= key {
        var grouped := GroupLabel(key, labels[key], INPUTS, inputGroups);
        if grouped.Failure? {
          KeyIsBlamed(labels, INPUTS, key);
          return Failure(grouped.error);
        }
        GroupedKey(labels, visited, INPUTS, inputGroups, key, grouped.value);
        GroupedElsewhere(labels, visited, CONFIG, configGroups, key);
        inputGroups := grouped.value;
      } else if CONFIG <= key {
        var grouped := GroupLabel(key, labels[key], CONFIG, configGroups);
        if grouped.Failure? {
          KeyIsBlamed(labels, CONFIG, key);
          return Failure(grouped.error);
        }
        GroupedKey(labels, visited, CONFIG, configGroups, key, grouped.value);
        GroupedElsewhere(labels, visited, INPUTS, inputGroups, key);
        configGroups := grouped.value;
      } else {
        GroupedElsewhere(labels, visited, INPUTS, inputGroups, key);
        GroupedElsewhere(labels, visited, CONFIG, configGroups, key);
      }
      rest := rest - {key};
      assert labels.Keys - rest == visited + {key};
    }
    assert labels.Keys - rest == labels.Keys;
    return Success((inputGroups, configGroups));
  }

  /** The section of one category, from its groups. */
  method ParseSection(ghost labels: Labels, ghost prefix: string, groups: Groups)
    returns (r: Result<map<string, InputLabels>, LabelError>)
    requires Grouped(labels, labels.Keys, prefix, groups)
    ensures r.Success? ==> Accepted(labels, prefix) && r.value == Section(labels, prefix)
    ensures r.Failure? ==> Blames(labels, prefix, r.error)
  {
    r := BuildSection(groups);
    if r.Failure? {
      InvalidGroupIsBlamed(labels, prefix, groups, r.error);
    } else {
      BuiltIsAccepted(labels, prefix, groups);
      BuiltSection(labels, prefix, groups, r.value);
    }
  }

  lemma BlamedDoesNotParse(labels: Labels, error: LabelError)
    requires Blames(labels, INPUTS, error) || Blames(labels, CONFIG, error)
    ensures !Parses(labels)
  {
    if Blames(labels, INPUTS, error) {
      BlamedIsRejected(labels, INPUTS, error);
    } else {
      BlamedIsRejected(labels, CONFIG, error);
    }
  }

  /**
    Whatever order the maps are visited in, parsing fails or gives one and the
    same result, and an error names a label that is really at fault.
   */
  method ParseLabels(labels: Labels) returns (r: Result<ParsedLabels, LabelError>)
    ensures r.Success? <==> Parses(labels)
    ensures r.Success? ==> r.value == Meaning(labels)
    ensures r.Failure? ==> Blames(labels, INPUTS, r.error) || Blames(labels, CONFIG, r.error)
  {
    var grouped := GroupLabels(labels);
    if grouped.Failure? {
      BlamedDoesNotParse(labels, grouped.error);
      return Failure(grouped.error);
    }
    var inputs := ParseSection(labels, INPUTS, grouped.value.0);
    if inputs.Failure? {
      BlamedDoesNotParse(labels, inputs.error);
      return Failure(inputs.error);
    }
    var config := ParseSection(labels, CONFIG, grouped.value.1);
    if config.Failure? {
      BlamedDoesNotParse(labels, config.error);
      return Failure(config.error);
    }
    return Success(ParsedLabels(Meta(labels), inputs.value, config.value));
  }

  // ---------------------------------------------------------------- from labels to a definition

  /** `strconv.ParseBool`. */
  function ParseBool(s: string): Option<bool> {
    if s == "1" || s == "t" || s == "T" || s == "true" || s == "TRUE" || s == "True" then Some(true)
    else if s == "0" || s == "f" || s == "F" || s == "false" || s == "FALSE" || s == "False" then Some(false)
    else None
  }

  function Requirement(required: string): Option<bool> {
    if required == "" then Some(false) else ParseBool(required)
  }

  /** The input of a definition; tags and default value are not carried over. */
  function Converted(name: string, item: InputLabels, required: bool): Tasks.Input {
    Tasks.Input(name, item.caption, TypeOf(item.kind), item.description, required, "", [], [])
  }

  function ConvertToTaskInput(name: string, item: InputLabels): Result<Tasks.Input, LabelError> {
    match Requirement(item.required)
    case None => Failure(InvalidRequired(name, item.required))
    case Some(required) => Success(Converted(name, item, required))
  }

  ghost predicate Convertible(section: map<string, InputLabels>) {
    forall name :: name in section ==> Requirement(section[name].required).Some?
  }

  ghost predicate FromSection(input: Tasks.Input, section: map<string, InputLabels>) {
    input.name in section && ConvertToTaskInput(input.name, section[input.name]) == Success(input)
  }

  ghost predicate Named(inputs: seq<Tasks.Input>, name: string) {
    exists i :: 0 <= i < |inputs| && inputs[i].name == name
  }

  /** The inputs are those of the section, each once, in some order. */
  ghost predicate Lists(inputs: seq<Tasks.Input>, section: map<string, InputLabels>) {
    && Tasks.Distinct(inputs)
    && (forall input :: input in inputs ==> FromSection(input, section))
    && (forall name :: name in section ==> Named(inputs, name))
  }

  method ConvertSection(section: map<string, InputLabels>) returns (r: Result<seq<Tasks.Input>, LabelError>)
    ensures r.Success? <==> Convertible(section)
    ensures r.Success? ==> Lists(r.value, section)
    ensures r.Failure? ==>
      && r.error.InvalidRequired? && r.error.name in section
      && Requirement(section[r.error.name].required).None?
      && r.error.value == section[r.error.name].required
  {
    var inputs: seq<Tasks.Input> := [];
    var rest := section.Keys;
    while rest != {}
      invariant rest <= section.Keys
      invariant Tasks.Distinct(inputs)
      invariant forall input :: input in inputs ==> FromSection(input, section) && input.name !in rest
      invariant forall name :: name in section && name !in rest ==> Named(inputs, name)
      invariant forall name :: name in section && name !in rest ==> Requirement(section[name].required).Some?
    {
      var name :| name in rest;
      var converted := ConvertToTaskInput(name, section[name]);
      if converted.Failure? {
        return Failure(converted.error);
      }
      ghost var before := inputs;
      inputs := inputs + [converted.value];
      rest := rest - {name};
      assert forall input :: input in inputs ==> input in before || input == converted.value;
      assert inputs[|before|].name == name;
      forall n | n in section && n !in rest
        ensures Named(inputs, n)
      {
        if n != name {
          var i :| 0 <= i < |before| && before[i].name == n;
          assert inputs[i].name == n;
        }
      }
    }
    return Success(inputs);
  }

  /** Fails exactly when the task has no name or some `required` label is not a boolean. */
  method BuildTaskDefinition(parsed: ParsedLabels, imageRef: string) returns (r: Result<Tasks.Definition, LabelError>)
    ensures r.Success? <==> parsed.meta.name != "" && Convertible(parsed.inputs) && Convertible(parsed.config)
    ensures r.Success? ==>
      && Lists(r.value.inputs, parsed.inputs)
      && Lists(r.value.configuration, parsed.config)
      && MetaLabels(r.value.name, r.value.description, r.value.author, r.value.url) == parsed.meta
      && r.value.imageRef == imageRef
    ensures r.Failure? ==> (r.error.MissingName? <==> parsed.meta.name == "")
    ensures r.Failure? && parsed.meta.name != "" ==>
      && r.error.InvalidRequired? && Requirement(r.error.value).None?
      && ((r.error.name in parsed.inputs && parsed.inputs[r.error.name].required == r.error.value)
          || (r.error.name in parsed.config && parsed.config[r.error.name].required == r.error.value))
  {
    if parsed.meta.name == "" {
      return Failure(MissingName);
    }
    var inputs := ConvertSection(parsed.inputs);
    if inputs.Failure? {
      return Failure(inputs.error);
    }
    var configuration := ConvertSection(parsed.config);
    if configuration.Failure? {
      return Failure(configuration.error);
    }
    return Success(Tasks.Definition(parsed.meta.name, parsed.meta.description, parsed.meta.author, parsed.meta.url,
                                    imageRef, inputs.value, configuration.value));
  }

  /** The five types that an item may have. */
  lemma TypesSay(kind: string)
    ensures TypeOf(kind) == Tasks.Text <==> kind == "text"
    ensures TypeOf(kind) == Tasks.Number <==> kind == "number"
    ensures TypeOf(kind) == Tasks.File <==> kind == "file"
    ensures TypeOf(kind) == Tasks.Secret <==> kind == "secret"
    ensures TypeOf(kind) == Tasks.Boolean <==> kind == "boolean"
    ensures ValidType(kind) <==> kind in ["text", "number", "file", "secret", "boolean"]
  {
  }

  /** What `required` may say. */
  lemma RequirementsSay(required: string)
    ensures Requirement(required) == Some(true) <==> required in ["1", "t", "T", "true", "TRUE", "True"]
    ensures Requirement(required) == Some(false) <==> required in ["", "0", "f", "F", "false", "FALSE", "False"]
  {
  }

  /** An input of a definition says what its labels say; it has no tags, default value or constraints. */
  lemma FromSectionIff(input: Tasks.Input, section: map<string, InputLabels>)
    ensures FromSection(input, section) <==>
      && input.name in section
      && var item := section[input.name];
         && input.caption == item.caption && input.description == item.description
         && input.kind == TypeOf(item.kind) && Requirement(item.required) == Some(input.required)
         && input.defaultValue == "" && input.tags == [] && input.constraints == []
  {
  }

  /** The names of the labels. */
  lemma KeysAreDocumented(name: string, property: string)
    ensures Key(INPUTS, name, property) == "io.oplet.task.inputs." + name + ['.'] + property
    ensures Key(CONFIG, name, property) == "io.oplet.task.config." + name + ['.'] + property
    ensures META_NAME == "io.oplet.task.meta.name" && META_DESCRIPTION == "io.oplet.task.meta.description"
    ensures META_AUTHOR == "io.oplet.task.meta.author" && META_URL == "io.oplet.task.meta.url"
    ensures LABEL == "label" && TYPE == "type" && DESCRIPTION == "description"
    ensures REQUIRED == "required" && TAGS == "tags"
  {
  }

  /** Two listings of one section hold the same inputs. */
  lemma ListsAgree(inputs: seq<Tasks.Input>, inputs': seq<Tasks.Input>, section: map<string, InputLabels>)
    requires Lists(inputs, section) && Lists(inputs', section)
    ensures forall input :: input in inputs ==> input in inputs'
  {
    forall input | input in inputs
      ensures input in inputs'
    {
      assert FromSection(input, section);
      assert Named(inputs', input.name);
      var i :| 0 <= i < |inputs'| && inputs'[i].name == input.name;
      assert inputs'[i] in inputs' && FromSection(inputs'[i], section);
    }
  }
}
