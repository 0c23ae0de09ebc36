/**
  From a submitted form to the environment of the container: values become typed
  parameters when the execution is created, and environment variables when a
  runner claims it. Parameters travel as JSON, which loses nothing of them.
 */
module Environments {
  import opened Wrappers
  import opened Forms
  import opened Tasks
  import opened TaskForms

  const ON := "on"
  const TRUE := "true"
  const FALSE := "false"
  const FILES := "_files"

  datatype Parameter = Flag(on: bool) | Plain(text: string) | FileNames(names: map<string, seq<string>>)

  type Parameters = map<string, Parameter>

  type Environment = map<string, string>

  function FlagText(flag: bool): string {
    if flag then TRUE else FALSE
  }

  // ---------------------------------------------------------------- parameters of an execution

  /** The type of a name: the last input that has it decides. */
  function TypeNamed(inputs: seq<Input>, name: string): Option<Type> {
    if inputs == [] then None
    else if inputs[|inputs| - 1].name == name then Some(inputs[|inputs| - 1].kind)
    else TypeNamed(inputs[..|inputs| - 1], name)
  }

  function Typed(inputs: seq<Input>, name: string, value: string): Parameter {
    if TypeNamed(inputs, name) == Some(Boolean) then Flag(value == ON) else Plain(value)
  }

  function Filenames(uploads: seq<Upload>): (names: seq<string>)
    ensures |names| == |uploads|
    ensures forall i :: 0 <= i < |uploads| ==> names[i] == uploads[i].filename
  {
    if uploads == [] then [] else Filenames(uploads[..|uploads| - 1]) + [uploads[|uploads| - 1].filename]
  }

  function FileInfo(files: Files): map<string, seq<string>> {
    map name | name in files :: Filenames(files[name])
  }

  /** Under each name, the names of its uploads in order. */
  lemma FileInfoSays(files: Files, name: string)
    ensures name in FileInfo(files) <==> name in files
    ensures name in files ==> |FileInfo(files)[name]| == |files[name]|
    ensures name in files ==> forall i :: 0 <= i < |files[name]| ==> FileInfo(files)[name][i] == files[name][i].filename
  {
  }

  /** Typed values, and the names of the uploaded files under a key of their own. */
  function ParametersOf(inputs: seq<Input>, values: Values, files: Files): Parameters {
    var typed := map name | name in values :: Typed(inputs, name, values[name]);
    if files == map[] then typed else typed[FILES := FileNames(FileInfo(files))]
  }

  method MarshalInputParameters(definition: Definition, values: Values, files: Files) returns (params: Parameters)
    ensures params == ParametersOf(definition.inputs, values, files)
  {
    var inputTypes := CollectTypes(definition.inputs);
    params := TypeValues(definition.inputs, inputTypes, values);
    var fileInfo := CollectFilenames(files);
    if |fileInfo| > 0 {
      params := params[FILES := FileNames(fileInfo)];
    }
    assert files == map[] <==> files.Keys == {};
    assert fileInfo == map[] <==> fileInfo.Keys == {};
  }

  method CollectTypes(inputs: seq<Input>) returns (inputTypes: map<string, Type>)
    ensures forall name :: name in inputTypes <==> TypeNamed(inputs, name).Some?
    ensures forall name :: name in inputTypes ==> TypeNamed(inputs, name) == Some(inputTypes[name])
  {
    inputTypes := map[];
    var i := 0;
    while i < |inputs|
      invariant i <= |inputs|
      invariant forall name :: name in inputTypes <==> TypeNamed(inputs[..i], name).Some?
      invariant forall name :: name in inputTypes ==> TypeNamed(inputs[..i], name) == Some(inputTypes[name])
    {
      inputTypes := inputTypes[inputs[i].name := inputs[i].kind];
      i := i + 1;
      assert inputs[..i][..i - 1] == inputs[..i - 1];
    }
    assert inputs[..i] == inputs;
  }

  method TypeValues(ghost inputs: seq<Input>, inputTypes: map<string, Type>, values: Values)
    returns (params: Parameters)
    requires forall name :: name in inputTypes <==> TypeNamed(inputs, name).Some?
    requires forall name :: name in inputTypes ==> TypeNamed(inputs, name) == Some(inputTypes[name])
    ensures params == map name | name in values :: Typed(inputs, name, values[name])
  {
    params := map[];
    var rest := values.Keys;
    while rest != {}
      invariant rest <= values.Keys
      invariant params.Keys == values.Keys - rest
      invariant forall name :: name in params ==> params[name] == Typed(inputs, name, values[name])
    {
      var key :| key in rest;
      if key in inputTypes && inputTypes[key] == Boolean {
        if values[key] == ON {
          params := params[key := Flag(true)];
        } else {
          params := params[key := Flag(false)];
        }
      } else {
        params := params[key := Plain(values[key])];
      }
      rest := rest - {key};
    }
  }

  method CollectFilenames(files: Files) returns (fileInfo: map<string, seq<string>>)
    ensures fileInfo == FileInfo(files)
    ensures fileInfo.Keys == files.Keys
  {
    fileInfo := map[];
    var rest := files.Keys;
    while rest != {}
      invariant rest <= files.Keys
      invariant fileInfo.Keys == files.Keys - rest
      invariant forall name :: name in fileInfo ==> fileInfo[name] == Filenames(files[name])
    {
      var key :| key in rest;
      var filenames: seq<string> := [];
      var i := 0;
      while i < |files[key]|
        invariant i <= |files[key]|
        invariant filenames == Filenames(files[key][..i])
      {
        filenames := filenames + [files[key][i].filename];
        i := i + 1;
        assert files[key][..i][..i - 1] == files[key][..i - 1];
      }
      assert files[key][..i] == files[key];
      fileInfo := fileInfo[key := filenames];
      rest := rest - {key};
    }
  }

  // ---------------------------------------------------------------- environment of a container

  /** The variable an input gets from the parameters; `render` prints file names as the runtime does. */
  function Variable(input: Input, params: Parameters, render: map<string, seq<string>> -> string): Option<string> {
    if input.kind == File || input.name !in params then None
    else
      match params[input.name]
      case Flag(on) => Some(FlagText(on))
      case Plain(text) => if input.kind == Boolean then None else Some(text)
      case FileNames(names) => if input.kind == Boolean then None else Some(render(names))
  }

  function InputVariables(inputs: seq<Input>, params: Parameters, render: map<string, seq<string>> -> string)
    : Environment
  {
    if inputs == [] then map[]
    else
      var environment := InputVariables(inputs[..|inputs| - 1], params, render);
      var last := inputs[|inputs| - 1];
      match Variable(last, params, render)
      case None => environment
      case Some(value) => environment[last.name := value]
  }

  function FindInput(inputs: seq<Input>, name: string): (r: Option<Input>)
    ensures r.Some? ==> r.value.name == name && r.value in inputs
    ensures r.None? ==> forall input :: input in inputs ==> input.name != name
  {
    if inputs == [] then None else if inputs[0].name == name then Some(inputs[0]) else FindInput(inputs[1..], name)
  }

  /** The variable a setting gives, if the definition declares its name. */
  function SettingVariable(configuration: seq<Input>, setting: Setting): Option<string> {
    match FindInput(configuration, setting.name)
    case None => None
    case Some(input) => Some(if input.kind == Boolean then FlagText(setting.value == ON) else setting.value)
  }

  function WithSettings(environment: Environment, configuration: seq<Input>, settings: seq<Setting>): Environment {
    if settings == [] then environment
    else
      var before := WithSettings(environment, configuration, settings[..|settings| - 1]);
      var last := settings[|settings| - 1];
      match SettingVariable(configuration, last)
      case None => before
      case Some(value) => before[last.name := value]
  }

  /** An environment is empty when the definition could not be fetched. */
  function EnvironmentOf(definition: Option<Definition>, params: Option<Parameters>, settings: seq<Setting>,
                         render: map<string, seq<string>> -> string): Environment {
    match definition
    case None => map[]
    case Some(definition) =>
      var environment := if params.Some? then InputVariables(definition.inputs, params.value, render) else map[];
      WithSettings(environment, definition.configuration, settings)
  }

  method BuildEnvironment(definition: Option<Definition>, parameters: Option<Parameters>, settings: seq<Setting>,
                          render: map<string, seq<string>> -> string) returns (environment: Environment)
    ensures environment == EnvironmentOf(definition, parameters, settings, render)
  {
    environment := map[];
    if definition.None? {
      return;
    }
    if parameters.Some? {
      environment := SetInputs(definition.value.inputs, parameters.value, render);
    }
    environment := SetConfiguration(environment, definition.value.configuration, settings);
  }

  method SetInputs(inputs: seq<Input>, params: Parameters, render: map<string, seq<string>> -> string)
    returns (environment: Environment)
    ensures environment == InputVariables(inputs, params, render)
  {
    environment := map[];
    var i := 0;
    while i < |inputs|
      invariant i <= |inputs|
      invariant environment == InputVariables(inputs[..i], params, render)
    {
      var input := inputs[i];
      i := i + 1;
      assert inputs[..i][..i - 1] == inputs[..i - 1];
      if input.kind != File {
        if input.name in params {
          var value := params[input.name];
          if input.kind == Boolean {
            if value.Flag? {
              environment := environment[input.name := if value.on then TRUE else FALSE];
            }
          } else {
            var text := match value
              case Flag(on) => FlagText(on)
              case Plain(text) => text
              case FileNames(names) => render(names);
            environment := environment[input.name := text];
          }
        }
      }
    }
    assert inputs[..i] == inputs;
  }

  method SetConfiguration(before: Environment, configuration: seq<Input>, settings: seq<Setting>)
    returns (environment: Environment)
    ensures environment == WithSettings(before, configuration, settings)
  {
    environment := before;
    var i := 0;
    while i < |settings|
      invariant i <= |settings|
      invariant environment == WithSettings(before, configuration, settings[..i])
    {
      var config := settings[i];
      i := i + 1;
      assert settings[..i][..i - 1] == settings[..i - 1];
      var configInput := FindInput(configuration, config.name);
      if configInput.None? {
        continue;
      }
      var value := config.value;
      if configInput.value.kind == Boolean {
        if value == ON {
          value := TRUE;
        } else {
          value := FALSE;
        }
      }
      environment := environment[config.name := value];
    }
    assert settings[..i] == settings;
  }

  // ---------------------------------------------------------------- what survives the way

  lemma {:induction false} TypeOfDistinct(inputs: seq<Input>, i: nat)
    requires Tasks.Distinct(inputs) && i < |inputs|
    ensures TypeNamed(inputs, inputs[i].name) == Some(inputs[i].kind)
  {
    if i < |inputs| - 1 {
      TypeOfDistinct(inputs[..|inputs| - 1], i);
    }
  }

  lemma {:induction false} InputVariable(inputs: seq<Input>, params: Parameters,
                                         render: map<string, seq<string>> -> string, i: nat)
    requires Tasks.Distinct(inputs) && i < |inputs|
    ensures var environment := InputVariables(inputs, params, render);
      match Variable(inputs[i], params, render)
      case None => inputs[i].name !in environment
      case Some(value) => inputs[i].name in environment && environment[inputs[i].name] == value
  {
    if i < |inputs| - 1 {
      InputVariable(inputs[..|inputs| - 1], params, render, i);
    } else {
      InputVariableNames(inputs[..|inputs| - 1], params, render, inputs[i].name);
    }
  }

  lemma {:induction false} InputVariableNames(inputs: seq<Input>, params: Parameters,
                                              render: map<string, seq<string>> -> string,
                                              name: string)
    requires forall i :: 0 <= i < |inputs| ==> inputs[i].name != name
    ensures name !in InputVariables(inputs, params, render)
  {
    if inputs != [] {
      InputVariableNames(inputs[..|inputs| - 1], params, render, name);
    }
  }

  /** The value configured for a name: that of its last setting, if the definition declares the name. */
  function Configured(configuration: seq<Input>, settings: seq<Setting>, name: string): Option<string> {
    if settings == [] then None
    else
      var last := settings[|settings| - 1];
      if last.name == name then SettingVariable(configuration, last)
      else Configured(configuration, settings[..|settings| - 1], name)
  }

  lemma {:induction false} ConfiguredOverrides(environment: Environment, configuration: seq<Input>,
                                               settings: seq<Setting>, name: string)
    ensures var after := WithSettings(environment, configuration, settings);
      match Configured(configuration, settings, name)
      case Some(value) => name in after && after[name] == value
      case None => (name in after <==> name in environment) && (name in after ==> after[name] == environment[name])
  {
    if settings != [] {
      ConfiguredOverrides(environment, configuration, settings[..|settings| - 1], name);
      if settings[|settings| - 1].name == name && FindInput(configuration, name).None? {
        ConfiguredIff(configuration, settings[..|settings| - 1], name);
      }
    }
  }

  /** A name is configured iff the definition declares it and some setting has it. */
  lemma {:induction false} ConfiguredIff(configuration: seq<Input>, settings: seq<Setting>, name: string)
    ensures Configured(configuration, settings, name).Some? <==>
      && FindInput(configuration, name).Some?
      && exists i :: 0 <= i < |settings| && settings[i].name == name
  {
    if settings != [] && settings[|settings| - 1].name != name {
      var before := settings[..|settings| - 1];
      ConfiguredIff(configuration, before, name);
      assert forall i :: 0 <= i < |before| ==> before[i] == settings[i];
    }
  }

  /** The definition declares the name: this is the first item that has it. */
  ghost predicate DeclaredAt(configuration: seq<Input>, name: string, k: nat) {
    && k < |configuration| && configuration[k].name == name
    && forall j :: 0 <= j < k ==> configuration[j].name != name
  }

  lemma {:induction false} FoundWhereDeclared(configuration: seq<Input>, name: string, k: nat)
    requires DeclaredAt(configuration, name, k)
    ensures FindInput(configuration, name) == Some(configuration[k])
  {
    if k > 0 {
      assert DeclaredAt(configuration[1..], name, k - 1);
      FoundWhereDeclared(configuration[1..], name, k - 1);
    }
  }

  lemma {:induction false} ConfiguredByLast(configuration: seq<Input>, settings: seq<Setting>, name: string, i: nat)
    requires LastOf(settings, name, i)
    ensures Configured(configuration, settings, name) == SettingVariable(configuration, settings[i])
  {
    var n := |settings| - 1;
    if i < n {
      assert settings[n].name != name;
      assert LastOf(settings[..n], name, i);
      ConfiguredByLast(configuration, settings[..n], name, i);
    }
  }

  /**
    The last setting of a declared name reaches the container: as its own text, or, for
    a boolean item, as `true` iff it is `on` and as `false` otherwise.
   */
  lemma LastSettingReachesContainer(definition: Definition, params: Option<Parameters>, settings: seq<Setting>,
                                    render: map<string, seq<string>> -> string, i: nat, k: nat)
    requires i < |settings| && LastOf(settings, settings[i].name, i)
    requires DeclaredAt(definition.configuration, settings[i].name, k)
    ensures var environment := EnvironmentOf(Some(definition), params, settings, render);
      && settings[i].name in environment
      && environment[settings[i].name] ==
         if definition.configuration[k].kind != Boolean then settings[i].value
         else if settings[i].value == "on" then "true"
         else "false"
  {
    FoundWhereDeclared(definition.configuration, settings[i].name, k);
    ConfiguredByLast(definition.configuration, settings, settings[i].name, i);
    var environment := if params.Some? then InputVariables(definition.inputs, params.value, render) else map[];
    ConfiguredOverrides(environment, definition.configuration, settings, settings[i].name);
  }

  /** Settings of names that the definition does not declare do not reach the container. */
  lemma UndeclaredSettingsAreIgnored(definition: Definition, params: Option<Parameters>, settings: seq<Setting>,
                                     render: map<string, seq<string>> -> string, name: string)
    requires forall item :: item in definition.configuration ==> item.name != name
    ensures var with := EnvironmentOf(Some(definition), params, settings, render);
      var without := EnvironmentOf(Some(definition), params, [], render);
      (name in with <==> name in without) && (name in with ==> with[name] == without[name])
  {
    ConfiguredIff(definition.configuration, settings, name);
    var environment := if params.Some? then InputVariables(definition.inputs, params.value, render) else map[];
    ConfiguredOverrides(environment, definition.configuration, settings, name);
  }

  /** Without a definition nothing is set. */
  lemma NothingWithoutDefinition(params: Option<Parameters>, settings: seq<Setting>,
                                 render: map<string, seq<string>> -> string)
    ensures EnvironmentOf(None, params, settings, render) == map[]
  {
  }

  lemma FieldOfInput(inputs: seq<Input>, fields: seq<Field>, i: nat, file: bool)
    requires Tasks.Distinct(inputs) && Shows(fields, inputs) && i < |inputs|
    ensures Has(fields, |fields|, inputs[i].name, file) <==> (inputs[i].kind == File) == file
  {
    FormShowsEveryInput(inputs, fields);
    assert FieldOf(inputs[i]) in fields;
    forall k | 0 <= k < |fields| && fields[k].name == inputs[i].name
      ensures fields[k] == FieldOf(inputs[i])
    {
      assert fields[k] in fields;
      var j :| 0 <= j < |inputs| && fields[k] == FieldOf(inputs[j]);
      assert j == i;
    }
  }

  /** The text submitted under a name. */
  function SubmittedText(request: Request, name: string): string {
    if name in request.values then request.values[name] else ""
  }

  /** What a container should find under the name of an input that no setting overrides. */
  function Submitted(input: Input, request: Request): string {
    if input.kind != Boolean then SubmittedText(request, input.name)
    else if SubmittedText(request, input.name) == "on" then "true"
    else "false"
  }

  /** The parameter of an input, read from the form the request filled. */
  lemma ParameterOfInput(inputs: seq<Input>, fields: seq<Field>, request: Request, i: nat)
    requires Tasks.Distinct(inputs) && Shows(fields, inputs) && i < |inputs|
    ensures var values := ValuesUpTo(fields, map[], request, |fields|);
      var typed := ParametersOf(inputs, values, map[]);
      && (inputs[i].name in values <==> inputs[i].kind != File)
      && (inputs[i].name in values ==> values[inputs[i].name] == Value(request.values, inputs[i].name))
      && (inputs[i].name in typed <==> inputs[i].kind != File)
      && (inputs[i].kind != File ==>
            typed[inputs[i].name] ==
              if inputs[i].kind == Boolean then Flag(Value(request.values, inputs[i].name) == ON)
              else Plain(Value(request.values, inputs[i].name)))
  {
    FieldOfInput(inputs, fields, i, false);
    SubmittedValue(fields, map[], request, |fields|, inputs[i].name);
    TypeOfDistinct(inputs, i);
  }

  lemma VariableOfInput(inputs: seq<Input>, fields: seq<Field>, request: Request, files: Files,
                        render: map<string, seq<string>> -> string, i: nat)
    requires Tasks.Distinct(inputs) && Shows(fields, inputs) && i < |inputs|
    ensures var params := ParametersOf(inputs, ValuesUpTo(fields, map[], request, |fields|), files);
      Variable(inputs[i], params, render) ==
        if inputs[i].kind == File then None
        else if inputs[i].name == FILES && files != map[] then
          (if inputs[i].kind == Boolean then None else Some(render(FileInfo(files))))
        else Some(Submitted(inputs[i], request))
  {
    ParameterOfInput(inputs, fields, request, i);
    var values := ValuesUpTo(fields, map[], request, |fields|);
    var params := ParametersOf(inputs, values, files);
    assert inputs[i].name != FILES ==>
      (inputs[i].name in params <==> inputs[i].name in values)
      && (inputs[i].name in params ==> params[inputs[i].name] == ParametersOf(inputs, values, map[])[inputs[i].name]);
  }

  /**
    An input reaches the container as it was submitted, unless a declared setting
    overrides it. The one exception is a plain input called `_files`: once a file
    is uploaded its value is lost.
   */
  lemma SubmittedValuesSurvive(definition: Definition, fields: seq<Field>, request: Request, settings: seq<Setting>,
                               render: map<string, seq<string>> -> string, i: nat)
    requires Tasks.Distinct(definition.inputs) && Shows(fields, definition.inputs) && i < |definition.inputs|
    ensures var values := ValuesUpTo(fields, map[], request, |fields|);
      var files := FilesUpTo(fields, map[], request, |fields|);
      var params := ParametersOf(definition.inputs, values, files);
      var environment := EnvironmentOf(Some(definition), Some(params), settings, render);
      var input := definition.inputs[i];
      match Configured(definition.configuration, settings, input.name)
      case Some(value) => input.name in environment && environment[input.name] == value
      case None =>
        if input.kind == File || (input.name == "_files" && files != map[] && input.kind == Boolean) then
          input.name !in environment
        else
          && input.name in environment
          && environment[input.name] ==
             if input.name == "_files" && files != map[] then render(FileInfo(files)) else Submitted(input, request)
  {
    var files := FilesUpTo(fields, map[], request, |fields|);
    var params := ParametersOf(definition.inputs, ValuesUpTo(fields, map[], request, |fields|), files);
    VariableOfInput(definition.inputs, fields, request, files, render, i);
    InputVariable(definition.inputs, params, render, i);
    ConfiguredOverrides(InputVariables(definition.inputs, params, render), definition.configuration, settings,
                        definition.inputs[i].name);
  }

  /** Nothing but inputs and declared settings reaches the container. */
  lemma NothingElseIsSet(definition: Definition, params: Parameters, settings: seq<Setting>,
                         render: map<string, seq<string>> -> string, name: string)
    requires forall i :: 0 <= i < |definition.inputs| ==> definition.inputs[i].name != name
    ensures var environment := EnvironmentOf(Some(definition), Some(params), settings, render);
      match Configured(definition.configuration, settings, name)
      case Some(value) => name in environment && environment[name] == value
      case None => name !in environment
  {
    InputVariableNames(definition.inputs, params, render, name);
    ConfiguredOverrides(InputVariables(definition.inputs, params, render), definition.configuration, settings, name);
  }
}
