/** The form of a task: one field for each input, required fields first and names ascending. */
module TaskForms {
  import opened Text
  import opened Wrappers
  import opened Forms
  import Labels
  import Tasks

  /** A configuration value stored for a task. */
  datatype Setting = Setting(name: string, value: string)

  function HtmlType(kind: Tasks.Type): Html {
    match kind
    case Number => NumberField
    case File => FileField
    case Text => TextField
    case Secret => PasswordField
    case Boolean => CheckboxField
    case Other(_) => TextField
  }

  /** The rule of each constraint, in order. */
  function ConstraintRules(constraints: seq<Tasks.Constraint>): (rules: seq<Rule>)
    ensures |rules| == |constraints|
    ensures forall k :: 0 <= k < |constraints| ==> rules[k] == Constrained(constraints[k])
  {
    if constraints == [] then []
    else ConstraintRules(constraints[..|constraints| - 1]) + [Constrained(constraints[|constraints| - 1])]
  }

  function ValidationRules(input: Tasks.Input): seq<Rule> {
    (if input.required then [Required] else []) + ConstraintRules(input.constraints)
  }

  /** Rule 0 of a required input is the required rule; constraint `k` comes `k` rules later. */
  method BuildValidationRules(input: Tasks.Input) returns (rules: seq<Rule>)
    ensures var first := if input.required then 1 else 0;
      && |rules| == first + |input.constraints|
      && (input.required ==> rules[0] == Required)
      && (forall k :: 0 <= k < |input.constraints| ==> rules[first + k] == Constrained(input.constraints[k]))
    ensures rules == ValidationRules(input)
  {
    rules := [];
    if input.required {
      rules := rules + [Required];
    }
    ghost var first := |rules|;
    var i := 0;
    while i < |input.constraints|
      invariant i <= |input.constraints| && |rules| == first + i
      invariant input.required ==> rules[0] == Required
      invariant forall k :: 0 <= k < i ==> rules[first + k] == Constrained(input.constraints[k])
    {
      rules := rules + [Constrained(input.constraints[i])];
      i := i + 1;
    }
    assert rules == ValidationRules(input);
  }

  function FieldOf(input: Tasks.Input): Field {
    Field(input.name, input.caption, HtmlType(input.kind), input.required, ValidationRules(input), input.description,
          HtmlType(input.kind) == PasswordField)
  }

  /**
    What this order means to a user: a required field that is left empty says so,
    whatever its constraints say; else the first violated constraint speaks.
   */
  lemma EmptyRequiredFieldSaysSo(input: Tasks.Input, values: Values, files: Files)
    ensures var field := FieldOf(input);
      var missing := RuleError(Required, field, values, files);
      if input.required && missing.Some? then FieldError(field, values, files) == missing
      else FieldError(field, values, files) == FirstViolation(field, input.constraints, values, files, 0)
  {
    var field := FieldOf(input);
    if input.required {
      assert field.validation[0] == Required;
      if RuleError(Required, field, values, files).None? {
        assert FieldError(field, values, files) == ErrorFrom(field, values, files, 1);
        ConstraintsDecide(input, values, files, 0);
      }
    } else {
      assert field.validation == ConstraintRules(input.constraints);
      ConstraintsDecide(input, values, files, 0);
    }
  }

  /** The error of the first constraint, from `k` on, that is violated. */
  function FirstViolation(field: Field, constraints: seq<Tasks.Constraint>, values: Values, files: Files, k: nat)
    : Option<string>
    requires k <= |constraints|
    decreases |constraints| - k
  {
    if k == |constraints| then None
    else
      match RuleError(Constrained(constraints[k]), field, values, files)
      case Some(message) => Some(message)
      case None => FirstViolation(field, constraints, values, files, k + 1)
  }

  lemma {:induction false} ConstraintsDecide(input: Tasks.Input, values: Values, files: Files, k: nat)
    requires k <= |input.constraints|
    ensures |FieldOf(input).validation| == (if input.required then 1 else 0) + |input.constraints|
    ensures ErrorFrom(FieldOf(input), values, files, (if input.required then 1 else 0) + k)
         == FirstViolation(FieldOf(input), input.constraints, values, files, k)
    decreases |input.constraints| - k
  {
    var first := if input.required then 1 else 0;
    if k < |input.constraints| {
      assert FieldOf(input).validation[first + k] == Constrained(input.constraints[k]);
      ConstraintsDecide(input, values, files, k + 1);
    }
  }

  // ---------------------------------------------------------------- the order of fields

  /** The comparator answers a negative number. */
  predicate Before(f: Field, g: Field) {
    if f.required != g.required then f.required else Less(f.name, g.name)
  }

  lemma BeforeIsStrictOrder(f: Field, g: Field, h: Field)
    ensures !Before(f, f)
    ensures Before(f, g) && Before(g, h) ==> Before(f, h)
    ensures f.name == g.name || Before(f, g) || Before(g, f)
  {
    LessIrreflexive(f.name);
    if Less(f.name, g.name) && Less(g.name, h.name) {
      LessTransitive(f.name, g.name, h.name);
    }
    LessTotal(f.name, g.name);
  }

  ghost predicate Sorted(fields: seq<Field>) {
    forall i, j :: 0 <= i < j < |fields| ==> !Before(fields[j], fields[i])
  }

  ghost predicate SameFields(fields: seq<Field>, fields': seq<Field>) {
    multiset(fields) == multiset(fields')
  }

  method Insert(sorted: seq<Field>, field: Field) returns (r: seq<Field>)
    requires Sorted(sorted)
    ensures Sorted(r)
    ensures SameFields(r, sorted + [field])
  {
    var i := |sorted|;
    while i > 0 && Before(field, sorted[i - 1])
      invariant 0 <= i <= |sorted|
      invariant forall k :: i <= k < |sorted| ==> Before(field, sorted[k])
    {
      i := i - 1;
    }
    r := sorted[..i] + [field] + sorted[i..];
    InsertedIsSorted(sorted, field, i);
    assert sorted == sorted[..i] + sorted[i..];
  }

  lemma InsertedIsSorted(sorted: seq<Field>, field: Field, i: nat)
    requires Sorted(sorted) && i <= |sorted|
    requires forall k :: i <= k < |sorted| ==> Before(field, sorted[k])
    requires i > 0 ==> !Before(field, sorted[i - 1])
    ensures Sorted(sorted[..i] + [field] + sorted[i..])
  {
    forall k | 0 <= k < i
      ensures !Before(field, sorted[k])
    {
      if k < i - 1 && Before(field, sorted[k]) {
        NotBefore(field, sorted[k], sorted[i - 1]);
      }
    }
    forall k | i <= k < |sorted|
      ensures !Before(sorted[k], field)
    {
      BeforeIsStrictOrder(field, sorted[k], field);
    }
  }

  /** What precedes a field precedes everything that does not precede that field. */
  lemma NotBefore(f: Field, g: Field, h: Field)
    requires Before(f, g) && !Before(h, g)
    ensures Before(f, h)
  {
    BeforeIsStrictOrder(f, g, h);
    BeforeIsStrictOrder(g, h, f);
  }

  /** A sorted permutation, as the library's sort promises. */
  method SortFields(fields: seq<Field>) returns (sorted: seq<Field>)
    ensures Sorted(sorted)
    ensures SameFields(sorted, fields)
  {
    sorted := [];
    var i := 0;
    while i < |fields|
      invariant i <= |fields|
      invariant Sorted(sorted)
      invariant SameFields(sorted, fields[..i])
    {
      sorted := Insert(sorted, fields[i]);
      i := i + 1;
      assert fields[..i] == fields[..i - 1] + [fields[i - 1]];
    }
    assert fields[..i] == fields;
  }

  // ---------------------------------------------------------------- building forms

  /** The fields of the inputs, in the order of the inputs. */
  function FieldsOf(inputs: seq<Tasks.Input>): (fields: seq<Field>)
    ensures |fields| == |inputs|
    ensures forall i :: 0 <= i < |inputs| ==> fields[i] == FieldOf(inputs[i])
  {
    if inputs == [] then [] else FieldsOf(inputs[..|inputs| - 1]) + [FieldOf(inputs[|inputs| - 1])]
  }

  /** The fields are those of the inputs, sorted. */
  ghost predicate Shows(fields: seq<Field>, inputs: seq<Tasks.Input>) {
    Sorted(fields) && SameFields(fields, FieldsOf(inputs))
  }

  method NewForm(inputs: seq<Tasks.Input>, defaultValues: Values) returns (form: Form)
    ensures fresh(form)
    ensures Shows(form.fields, inputs)
    ensures form.values == defaultValues && form.files == map[] && form.errors == map[]
  {
    var fields: seq<Field> := [];
    var i := 0;
    while i < |inputs|
      invariant i <= |inputs|
      invariant fields == FieldsOf(inputs[..i])
    {
      var input := inputs[i];
      var field := Field(input.name, input.caption, HtmlType(input.kind), input.required, [], input.description, false);
      if field.kind == PasswordField {
        field := field.(oneTimeCode := true);
      }
      var rules := BuildValidationRules(input);
      field := field.(validation := rules);
      fields := fields + [field];
      i := i + 1;
      assert inputs[..i][..i - 1] == inputs[..i - 1];
    }
    assert inputs[..i] == inputs;
    fields := SortFields(fields);
    form := new Form(fields);
    form.values := defaultValues;
  }

  method NewInputForm(definition: Tasks.Definition) returns (form: Form)
    ensures fresh(form)
    ensures Shows(form.fields, definition.inputs)
    ensures form.values == map[] && form.files == map[] && form.errors == map[]
  {
    form := NewForm(definition.inputs, map[]);
  }

  /** The last setting of a name is the one a lookup sees. */
  function SettingValues(settings: seq<Setting>): Values {
    if settings == [] then map[]
    else
      var last := settings[|settings| - 1];
      SettingValues(settings[..|settings| - 1])[last.name := last.value]
  }

  ghost predicate LastOf(settings: seq<Setting>, name: string, i: nat) {
    && i < |settings| && settings[i].name == name
    && forall j :: i < j < |settings| ==> settings[j].name != name
  }

  /** Exactly the names with a setting show a value, that of their last setting. */
  lemma {:induction false} LastSettingIsShown(settings: seq<Setting>, name: string)
    ensures name in SettingValues(settings) <==> exists i: nat :: LastOf(settings, name, i)
    ensures forall i: nat :: LastOf(settings, name, i) ==>
      name in SettingValues(settings) && SettingValues(settings)[name] == settings[i].value
  {
    if settings != [] {
      var n := |settings| - 1;
      LastSettingIsShown(settings[..n], name);
      if settings[n].name == name {
        assert LastOf(settings, name, n);
      } else {
        forall i: nat
          ensures LastOf(settings[..n], name, i) <==> LastOf(settings, name, i)
        {
          assert i < n ==> settings[..n][i] == settings[i];
        }
      }
    }
  }

  method NewConfigurationForm(definition: Tasks.Definition, settings: seq<Setting>) returns (form: Form)
    ensures fresh(form)
    ensures Shows(form.fields, definition.configuration)
    ensures form.values == SettingValues(settings) && form.files == map[] && form.errors == map[]
  {
    var values: Values := map[];
    var i := 0;
    while i < |settings|
      invariant i <= |settings|
      invariant values == SettingValues(settings[..i])
    {
      values := values[settings[i].name := settings[i].value];
      i := i + 1;
      assert settings[..i][..i - 1] == settings[..i - 1];
    }
    assert settings[..i] == settings;
    form := NewForm(definition.configuration, values);
  }

  // ---------------------------------------------------------------- one form, whatever the order of the inputs

  lemma FirstIsUnique(fields: seq<Field>, fields': seq<Field>)
    requires Sorted(fields) && Sorted(fields') && Distinct(fields)
    requires fields != [] && fields' != []
    requires fields[0] in fields' && fields'[0] in fields
    ensures fields[0] == fields'[0]
  {
    var i :| 0 <= i < |fields'| && fields'[i] == fields[0];
    var j :| 0 <= j < |fields| && fields[j] == fields'[0];
    BeforeIsStrictOrder(fields[0], fields'[0], fields[0]);
  }

  lemma RestIsSame(fields: seq<Field>, fields': seq<Field>)
    requires fields != [] && fields' != [] && fields[0] == fields'[0]
    requires SameFields(fields, fields')
    ensures SameFields(fields[1..], fields'[1..])
  {
    assert fields == [fields[0]] + fields[1..] && fields' == [fields'[0]] + fields'[1..];
    assert multiset(fields[1..]) == multiset(fields) - multiset{fields[0]};
    assert multiset(fields'[1..]) == multiset(fields') - multiset{fields[0]};
  }

  /** There is one way to sort fields with distinct names. */
  lemma {:induction false} SortedIsUnique(fields: seq<Field>, fields': seq<Field>)
    requires Sorted(fields) && Sorted(fields') && Distinct(fields)
    requires SameFields(fields, fields')
    ensures fields == fields'
    decreases |fields|
  {
    assert |fields| == |multiset(fields)| == |multiset(fields')| == |fields'|;
    if fields != [] {
      assert fields[0] in multiset(fields') && fields'[0] in multiset(fields);
      FirstIsUnique(fields, fields');
      RestIsSame(fields, fields');
      SortedIsUnique(fields[1..], fields'[1..]);
      assert fields == [fields[0]] + fields[1..] && fields' == [fields'[0]] + fields'[1..];
    }
  }

  lemma {:induction false} DistinctOnce(fields: seq<Field>, field: Field)
    requires Distinct(fields)
    ensures multiset(fields)[field] == if field in fields then 1 else 0
    decreases |fields|
  {
    if fields != [] {
      DistinctOnce(fields[1..], field);
      assert fields == [fields[0]] + fields[1..];
    }
  }

  lemma Twice(fields: seq<Field>, i: nat, j: nat)
    requires i < j < |fields| && fields[i] == fields[j]
    ensures multiset(fields)[fields[i]] >= 2
  {
    assert fields == fields[..j] + [fields[j]] + fields[j + 1..];
    assert fields[i] == fields[..j][i];
  }

  lemma SameIsDistinct(fields: seq<Field>, fields': seq<Field>)
    requires SameFields(fields, fields') && Distinct(fields')
    ensures Distinct(fields)
  {
    forall i, j | 0 <= i < j < |fields|
      ensures fields[i].name != fields[j].name
    {
      assert fields[i] in multiset(fields') && fields[j] in multiset(fields');
      if fields[i] == fields[j] {
        Twice(fields, i, j);
        DistinctOnce(fields', fields[i]);
      }
    }
  }

  /** The order in which a definition lists the inputs of its labels leaves no trace in the form. */
  lemma FormIsCanonical(section: map<string, Labels.InputLabels>, inputs: seq<Tasks.Input>, inputs': seq<Tasks.Input>,
                        fields: seq<Field>, fields': seq<Field>)
    requires Labels.Lists(inputs, section) && Labels.Lists(inputs', section)
    requires Shows(fields, inputs) && Shows(fields', inputs')
    ensures fields == fields'
  {
    FieldsOfListsAgree(section, inputs, inputs');
    SameIsDistinct(fields, FieldsOf(inputs));
    SortedIsUnique(fields, fields');
  }

  lemma FieldsOfListsAgree(section: map<string, Labels.InputLabels>, inputs: seq<Tasks.Input>,
                           inputs': seq<Tasks.Input>)
    requires Labels.Lists(inputs, section) && Labels.Lists(inputs', section)
    ensures Distinct(FieldsOf(inputs)) && Distinct(FieldsOf(inputs'))
    ensures SameFields(FieldsOf(inputs), FieldsOf(inputs'))
  {
    var fields, fields' := FieldsOf(inputs), FieldsOf(inputs');
    Labels.ListsAgree(inputs, inputs', section);
    Labels.ListsAgree(inputs', inputs, section);
    FieldsOfMembers(inputs, inputs');
    FieldsOfMembers(inputs', inputs);
    forall field
      ensures multiset(fields)[field] == multiset(fields')[field]
    {
      DistinctOnce(fields, field);
      DistinctOnce(fields', field);
    }
  }

  lemma FieldsOfMembers(inputs: seq<Tasks.Input>, inputs': seq<Tasks.Input>)
    requires forall input :: input in inputs ==> input in inputs'
    ensures forall field :: field in FieldsOf(inputs) ==> field in FieldsOf(inputs')
  {
    forall field | field in FieldsOf(inputs)
      ensures field in FieldsOf(inputs')
    {
      var i :| 0 <= i < |inputs| && FieldsOf(inputs)[i] == field;
      assert inputs[i] in inputs';
      var j :| 0 <= j < |inputs'| && inputs'[j] == inputs[i];
      assert FieldsOf(inputs')[j] == field;
    }
  }

  /** Required fields come first, and names ascend among the required and among the optional fields. */
  lemma FormIsOrdered(inputs: seq<Tasks.Input>, fields: seq<Field>, i: nat, j: nat)
    requires Tasks.Distinct(inputs) && Shows(fields, inputs)
    requires i < j < |fields|
    ensures fields[j].required ==> fields[i].required
    ensures fields[i].required == fields[j].required ==> Less(fields[i].name, fields[j].name)
  {
    assert Distinct(FieldsOf(inputs));
    SameIsDistinct(fields, FieldsOf(inputs));
    BeforeIsStrictOrder(fields[i], fields[j], fields[i]);
    assert !Before(fields[j], fields[i]);
  }

  /** Every input has its field and every field its input. */
  lemma FormShowsEveryInput(inputs: seq<Tasks.Input>, fields: seq<Field>)
    requires Shows(fields, inputs)
    ensures |fields| == |inputs|
    ensures forall input :: input in inputs ==> FieldOf(input) in fields
    ensures forall field :: field in fields ==> exists i :: 0 <= i < |inputs| && field == FieldOf(inputs[i])
  {
    assert |fields| == |multiset(fields)| == |multiset(FieldsOf(inputs))| == |FieldsOf(inputs)|;
    forall input | input in inputs
      ensures FieldOf(input) in fields
    {
      var i :| 0 <= i < |inputs| && inputs[i] == input;
      assert FieldsOf(inputs)[i] in multiset(fields);
    }
    forall field | field in fields
      ensures exists i :: 0 <= i < |inputs| && field == FieldOf(inputs[i])
    {
      assert field in multiset(FieldsOf(inputs));
      var i :| 0 <= i < |FieldsOf(inputs)| && FieldsOf(inputs)[i] == field;
    }
  }

  /** The input has what it must have, and no constraint rejects it. */
  ghost predicate Satisfied(input: Tasks.Input, values: Values, files: Files) {
    && (input.required ==> !Missing(FieldOf(input), values, files))
    && forall k, message :: 0 <= k < |input.constraints| ==>
         !Rejects(input.constraints[k], FieldOf(input), values, files, message)
  }

  lemma SatisfiedIff(input: Tasks.Input, values: Values, files: Files)
    ensures Satisfied(input, values, files) <==>
      var field := FieldOf(input);
      forall k :: 0 <= k < |field.validation| ==> Met(field.validation[k], field, values, files)
  {
    var field, first := FieldOf(input), if input.required then 1 else 0;
    assert |field.validation| == first + |input.constraints|;
    assert input.required ==> field.validation[0] == Required;
    forall k | 0 <= k < |input.constraints|
      ensures field.validation[first + k] == Constrained(input.constraints[k])
    {
    }
    forall k | first <= k < |field.validation|
      ensures field.validation[k] == Constrained(input.constraints[k - first])
    {
    }
  }

  /** The form of a task is valid iff what is submitted satisfies every input. */
  lemma TaskFormIsValidIff(inputs: seq<Tasks.Input>, fields: seq<Field>, values: Values, files: Files)
    requires Tasks.Distinct(inputs) && Shows(fields, inputs)
    ensures AllErrors(fields, values, files) == map[] <==>
      forall input :: input in inputs ==> Satisfied(input, values, files)
  {
    assert Distinct(FieldsOf(inputs));
    SameIsDistinct(fields, FieldsOf(inputs));
    FormIsValidIff(fields, values, files);
    FormShowsEveryInput(inputs, fields);
    forall input | input in inputs
      ensures Satisfied(input, values, files) <==>
        var field := FieldOf(input);
        forall k :: 0 <= k < |field.validation| ==> Met(field.validation[k], field, values, files)
    {
      SatisfiedIff(input, values, files);
    }
    if forall input :: input in inputs ==> Satisfied(input, values, files) {
      forall i, k | 0 <= i < |fields| && 0 <= k < |fields[i].validation|
        ensures Met(fields[i].validation[k], fields[i], values, files)
      {
        assert fields[i] in fields;
        var j :| 0 <= j < |inputs| && fields[i] == FieldOf(inputs[j]);
        assert inputs[j] in inputs;
      }
    }
    if AllErrors(fields, values, files) == map[] {
      forall input | input in inputs ensures Satisfied(input, values, files) {
        assert FieldOf(input) in fields;
        var i :| 0 <= i < |fields| && fields[i] == FieldOf(input);
      }
    }
  }

  /** A field is shown as its input asks: its kind, whether it is required, and its texts. */
  lemma FieldSays(input: Tasks.Input)
    ensures var field := FieldOf(input);
      && field.name == input.name && field.caption == input.caption && field.required == input.required
      && field.placeholder == input.description
      && (field.kind == FileField <==> input.kind == Tasks.File)
      && (field.kind == NumberField <==> input.kind == Tasks.Number)
      && (field.kind == CheckboxField <==> input.kind == Tasks.Boolean)
      && (field.kind == PasswordField <==> input.kind == Tasks.Secret)
      && (field.kind == TextField <==> input.kind == Tasks.Text || input.kind.Other?)
      && (field.oneTimeCode <==> input.kind == Tasks.Secret)
  {
  }
}
