/**
  Definitions fetched from an image. Each fetch lists the inputs in an order of
  its own; the form shown, and the environment of the container, do not depend on
  it, although they come from different fetches.
 */
module Provider {
  import opened Wrappers
  import opened Forms
  import opened TaskForms
  import opened Environments
  import Labels
  import Tasks

  datatype ProviderError = InvalidImageRef | FetchFailed(message: string) | Unparsable(error: Labels.LabelError)

  /** The definition is one that the labels of an image give. */
  ghost predicate Describes(definition: Tasks.Definition, labels: Labels.Labels, imageRef: string) {
    var parsed := Labels.Meaning(labels);
    && Labels.MetaLabels(definition.name, definition.description, definition.author, definition.url) == parsed.meta
    && definition.imageRef == imageRef
    && Labels.Lists(definition.inputs, parsed.inputs)
    && Labels.Lists(definition.configuration, parsed.config)
  }

  ghost predicate Defines(labels: Labels.Labels) {
    var parsed := Labels.Meaning(labels);
    && Labels.Parses(labels)
    && parsed.meta.name != ""
    && Labels.Convertible(parsed.inputs) && Labels.Convertible(parsed.config)
  }

  /** `fetched` is the registry's answer: the labels of the image, or an error. */
  method FetchTaskDefinition(imageRef: string, fetched: Result<Labels.Labels, string>)
    returns (r: Result<Tasks.Definition, ProviderError>)
    ensures r.Success? <==> imageRef != "" && fetched.Success? && Defines(fetched.value)
    ensures r.Success? ==> Describes(r.value, fetched.value, imageRef)
    ensures r.Failure? ==> (r.error.InvalidImageRef? <==> imageRef == "")
    ensures r.Failure? && imageRef != "" ==> (r.error.FetchFailed? <==> fetched.Failure?)
  {
    if imageRef == "" {
      return Failure(InvalidImageRef);
    }
    if fetched.Failure? {
      return Failure(FetchFailed(fetched.error));
    }
    var parsed := Labels.ParseLabels(fetched.value);
    if parsed.Failure? {
      return Failure(Unparsable(parsed.error));
    }
    var definition := Labels.BuildTaskDefinition(parsed.value, imageRef);
    if definition.Failure? {
      return Failure(Unparsable(definition.error));
    }
    return Success(definition.value);
  }

  /** An input found by name is the same in every listing. */
  lemma FoundInListsAgree(section: map<string, Labels.InputLabels>, inputs: seq<Tasks.Input>,
                          inputs': seq<Tasks.Input>, name: string)
    requires Labels.Lists(inputs, section) && Labels.Lists(inputs', section)
    ensures FindInput(inputs, name) == FindInput(inputs', name)
  {
    Labels.ListsAgree(inputs, inputs', section);
    Labels.ListsAgree(inputs', inputs, section);
    var found, found' := FindInput(inputs, name), FindInput(inputs', name);
    if found.Some? && found'.Some? {
      assert Labels.FromSection(found.value, section) && Labels.FromSection(found'.value, section);
    }
  }

  lemma VariableInListsAgrees(section: map<string, Labels.InputLabels>, inputs: seq<Tasks.Input>,
                              inputs': seq<Tasks.Input>,
                              params: Parameters, render: map<string, seq<string>> -> string, name: string)
    requires Labels.Lists(inputs, section) && Labels.Lists(inputs', section)
    ensures var here, there := InputVariables(inputs, params, render), InputVariables(inputs', params, render);
      (name in here <==> name in there) && (name in here ==> here[name] == there[name])
  {
    Labels.ListsAgree(inputs, inputs', section);
    Labels.ListsAgree(inputs', inputs, section);
    if i: nat :| i < |inputs| && inputs[i].name == name {
      assert inputs[i] in inputs';
      var j: nat :| j < |inputs'| && inputs'[j] == inputs[i];
      InputVariable(inputs, params, render, i);
      InputVariable(inputs', params, render, j);
    } else {
      forall j | 0 <= j < |inputs'|
        ensures inputs'[j].name != name
      {
        assert inputs'[j] in inputs;
      }
      InputVariableNames(inputs, params, render, name);
      InputVariableNames(inputs', params, render, name);
    }
  }

  lemma VariablesInListsAgree(section: map<string, Labels.InputLabels>, inputs: seq<Tasks.Input>,
                              inputs': seq<Tasks.Input>,
                              params: Parameters, render: map<string, seq<string>> -> string)
    requires Labels.Lists(inputs, section) && Labels.Lists(inputs', section)
    ensures InputVariables(inputs, params, render) == InputVariables(inputs', params, render)
  {
    var here, there := InputVariables(inputs, params, render), InputVariables(inputs', params, render);
    forall name: string
      ensures (name in here <==> name in there) && (name in here ==> here[name] == there[name])
    {
      VariableInListsAgrees(section, inputs, inputs', params, render, name);
    }
  }

  lemma {:induction false} SettingsInListsAgree(section: map<string, Labels.InputLabels>,
                                                configuration: seq<Tasks.Input>,
                                                configuration': seq<Tasks.Input>, environment: Environment,
                                                settings: seq<Setting>)
    requires Labels.Lists(configuration, section) && Labels.Lists(configuration', section)
    ensures WithSettings(environment, configuration, settings) == WithSettings(environment, configuration', settings)
  {
    if settings != [] {
      SettingsInListsAgree(section, configuration, configuration', environment, settings[..|settings| - 1]);
      FoundInListsAgree(section, configuration, configuration', settings[|settings| - 1].name);
    }
  }

  /** The forms of an image are the same at every fetch. */
  lemma FormsAgree(labels: Labels.Labels, imageRef: string, definition: Tasks.Definition, definition': Tasks.Definition,
                   fields: seq<Field>, fields': seq<Field>)
    requires Describes(definition, labels, imageRef) && Describes(definition', labels, imageRef)
    ensures Shows(fields, definition.inputs) && Shows(fields', definition'.inputs) ==> fields == fields'
    ensures Shows(fields, definition.configuration) && Shows(fields', definition'.configuration) ==> fields == fields'
  {
    var parsed := Labels.Meaning(labels);
    if Shows(fields, definition.inputs) && Shows(fields', definition'.inputs) {
      FormIsCanonical(parsed.inputs, definition.inputs, definition'.inputs, fields, fields');
    }
    if Shows(fields, definition.configuration) && Shows(fields', definition'.configuration) {
      FormIsCanonical(parsed.config, definition.configuration, definition'.configuration, fields, fields');
    }
  }

  /** So is the environment that given parameters and settings make. */
  lemma EnvironmentsAgree(labels: Labels.Labels, imageRef: string, definition: Tasks.Definition,
                          definition': Tasks.Definition, params: Option<Parameters>, settings: seq<Setting>,
                          render: map<string, seq<string>> -> string)
    requires Describes(definition, labels, imageRef) && Describes(definition', labels, imageRef)
    ensures EnvironmentOf(Some(definition), params, settings, render)
         == EnvironmentOf(Some(definition'), params, settings, render)
  {
    var parsed := Labels.Meaning(labels);
    if params.Some? {
      VariablesInListsAgree(parsed.inputs, definition.inputs, definition'.inputs, params.value, render);
    }
    var environment := if params.Some? then InputVariables(definition.inputs, params.value, render) else map[];
    SettingsInListsAgree(parsed.config, definition.configuration, definition'.configuration, environment, settings);
  }

  /**
    From an image's labels to its container: the user fills the form of one fetch,
    the parameters are typed by it, and the runner's environment is made with
    another fetch; still every plain input arrives as it was submitted, unless a
    setting overrides it or it is called `_files` and a file was uploaded.
   */
  lemma ImageInputsSurvive(labels: Labels.Labels, imageRef: string, shown: Tasks.Definition, run: Tasks.Definition,
                           fields: seq<Field>, request: Request, settings: seq<Setting>,
                           render: map<string, seq<string>> -> string, i: nat)
    requires Describes(shown, labels, imageRef) && Describes(run, labels, imageRef)
    requires Shows(fields, shown.inputs) && i < |shown.inputs|
    ensures var files := FilesUpTo(fields, map[], request, |fields|);
      var params := ParametersOf(shown.inputs, ValuesUpTo(fields, map[], request, |fields|), files);
      var environment := EnvironmentOf(Some(run), Some(params), settings, render);
      var input := shown.inputs[i];
      && Configured(run.configuration, settings, input.name).None?
      && input.kind != Tasks.File && (input.name != "_files" || files == map[]) ==>
        input.name in environment && environment[input.name] == Submitted(input, request)
  {
    var files := FilesUpTo(fields, map[], request, |fields|);
    var params := ParametersOf(shown.inputs, ValuesUpTo(fields, map[], request, |fields|), files);
    SubmittedValuesSurvive(shown, fields, request, settings, render, i);
    EnvironmentsAgree(labels, imageRef, shown, run, Some(params), settings, render);
    ConfiguredInListsAgree(Labels.Meaning(labels).config, shown.configuration, run.configuration, settings,
                           shown.inputs[i].name);
  }

  lemma {:induction false} ConfiguredInListsAgree(section: map<string, Labels.InputLabels>,
                                                  configuration: seq<Tasks.Input>,
                                                  configuration': seq<Tasks.Input>, settings: seq<Setting>,
                                                  name: string)
    requires Labels.Lists(configuration, section) && Labels.Lists(configuration', section)
    ensures Configured(configuration, settings, name) == Configured(configuration', settings, name)
  {
    if settings != [] {
      ConfiguredInListsAgree(section, configuration, configuration', settings[..|settings| - 1], name);
      FoundInListsAgree(section, configuration, configuration', settings[|settings| - 1].name);
    }
  }
}
