/**
  Forms with fields known at run time: how they are filled from a request and
  validated, whole or one field at a time.
 */
module Forms {
  import opened Wrappers
  import Tasks

  datatype Html = TextField | NumberField | FileField | PasswordField | CheckboxField

  /** An uploaded file; opening it yields its content or an error. */
  datatype Upload = Upload(filename: string, content: Result<string, string>)

  datatype Rule = Required | Constrained(constraint: Tasks.Constraint)

  datatype Field = Field(
    name: string,
    caption: string,
    kind: Html,
    required: bool,
    validation: seq<Rule>,
    placeholder: string,
    oneTimeCode: bool)
  {
    predicate IsFile() {
      kind == FileField
    }
  }

  type Values = map<string, string>
  type Files = map<string, seq<Upload>>

  /** A request: whether its plain and its multipart parsing fail, and what it submits. */
  datatype Request = Request(malformed: bool, malformedMultipart: bool, values: Values, files: Files)

  function Value(values: Values, name: string): string {
    if name in values then values[name] else ""
  }

  // ---------------------------------------------------------------- rules

  /** `unicode.IsSpace`. */
  predicate IsSpace(c: char) {
    var n := c as int;
    || 9 <= n <= 13 || n == 0x20 || n == 0x85 || n == 0xA0 || n == 0x1680 || 0x2000 <= n <= 0x200A
    || n == 0x2028 || n == 0x2029 || n == 0x202F || n == 0x205F || n == 0x3000
  }

  /** Nothing is left of the text once white space is trimmed. */
  predicate Blank(s: string) {
    forall c :: c in s ==> IsSpace(c)
  }

  /** The first upload that cannot be opened or violates the constraint. */
  function UploadError(constraint: Tasks.Constraint, uploads: seq<Upload>): Option<string> {
    if uploads == [] then None
    else match uploads[0].content
      case Failure(error) => Some(error)
      case Success(content) =>
        match constraint.assertFile(content)
        case Violated(message) => Some(message)
        case _ => UploadError(constraint, uploads[1..])
  }

  /** The error of one rule, if it fails. */
  function RuleError(rule: Rule, field: Field, values: Values, files: Files): Option<string> {
    match rule
    case Required =>
      var found := if field.IsFile() then field.name in files
                   else field.name in values && !Blank(values[field.name]);
      if found then None else Some("this field is required")
    case Constrained(constraint) =>
      if field.IsFile() then
        if field.name in files then UploadError(constraint, files[field.name]) else None
      else
        match constraint.assertValue(Value(values, field.name))
        case Violated(message) => Some(message)
        case _ => None
  }

  /** Rule `k` is the first to fail, and this is its error. */
  ghost predicate FailsFirst(field: Field, values: Values, files: Files, k: nat, message: string) {
    && k < |field.validation|
    && RuleError(field.validation[k], field, values, files) == Some(message)
    && forall j :: 0 <= j < k ==> RuleError(field.validation[j], field, values, files) == None
  }

  /** The error of the first rule that fails, looking from rule `k` on. */
  function ErrorFrom(field: Field, values: Values, files: Files, k: nat): Option<string>
    requires k <= |field.validation|
    decreases |field.validation| - k
  {
    if k == |field.validation| then None
    else
      match RuleError(field.validation[k], field, values, files)
      case Some(message) => Some(message)
      case None => ErrorFrom(field, values, files, k + 1)
  }

  function FieldError(field: Field, values: Values, files: Files): Option<string> {
    ErrorFrom(field, values, files, 0)
  }

  lemma {:induction false} ErrorFromIsFirst(field: Field, values: Values, files: Files, k: nat)
    requires k <= |field.validation|
    requires forall j :: 0 <= j < k ==> RuleError(field.validation[j], field, values, files) == None
    ensures ErrorFrom(field, values, files, k).None? ==>
      forall j :: 0 <= j < |field.validation| ==> RuleError(field.validation[j], field, values, files) == None
    ensures ErrorFrom(field, values, files, k).Some? ==>
      exists j :: FailsFirst(field, values, files, j, ErrorFrom(field, values, files, k).value)
    decreases |field.validation| - k
  {
    if k < |field.validation| {
      var error := RuleError(field.validation[k], field, values, files);
      if error.Some? {
        assert FailsFirst(field, values, files, k, error.value);
      } else {
        assert ErrorFrom(field, values, files, k) == ErrorFrom(field, values, files, k + 1);
        ErrorFromIsFirst(field, values, files, k + 1);
      }
    }
  }

  // ---------------------------------------------------------------- what the rules ask for

  /** Nothing is submitted for the field that counts: no upload entry, or only white space. */
  predicate Missing(field: Field, values: Values, files: Files) {
    if field.kind == FileField then field.name !in files
    else field.name !in values || forall c :: c in values[field.name] ==> IsSpace(c)
  }

  /** The constraint rejects what is submitted, with this message. */
  ghost predicate Rejects(constraint: Tasks.Constraint, field: Field, values: Values, files: Files, message: string) {
    if field.kind == FileField then
      field.name in files && exists u: nat :: RejectsUpload(constraint, files[field.name], u, message)
    else
      constraint.assertValue(if field.name in values then values[field.name] else "") == Tasks.Violated(message)
  }

  /** Upload `u` is the first that cannot be opened, or violates the constraint, and this is why. */
  ghost predicate RejectsUpload(constraint: Tasks.Constraint, uploads: seq<Upload>, u: nat, message: string) {
    && u < |uploads|
    && (match uploads[u].content
        case Failure(error) => message == error
        case Success(content) => constraint.assertFile(content) == Tasks.Violated(message))
    && forall v :: 0 <= v < u ==>
         uploads[v].content.Success? && !constraint.assertFile(uploads[v].content.value).Violated?
  }

  lemma {:induction false} UploadErrorIs(constraint: Tasks.Constraint, uploads: seq<Upload>)
    ensures UploadError(constraint, uploads).Some? ==>
      exists u: nat :: RejectsUpload(constraint, uploads, u, UploadError(constraint, uploads).value)
    ensures UploadError(constraint, uploads).None? ==>
      forall u :: 0 <= u < |uploads| ==>
        uploads[u].content.Success? && !constraint.assertFile(uploads[u].content.value).Violated?
  {
    if uploads != [] {
      var error := UploadError(constraint, uploads);
      if uploads[0].content.Failure? || constraint.assertFile(uploads[0].content.value).Violated? {
        assert RejectsUpload(constraint, uploads, 0, error.value);
      } else {
        UploadErrorIs(constraint, uploads[1..]);
        if error.Some? {
          var u: nat :| RejectsUpload(constraint, uploads[1..], u, error.value);
          assert RejectsUpload(constraint, uploads, u + 1, error.value) by {
            forall v | 0 <= v < u + 1
              ensures uploads[v].content.Success? && !constraint.assertFile(uploads[v].content.value).Violated?
            {
              assert v > 0 ==> uploads[v] == uploads[1..][v - 1];
            }
          }
        } else {
          forall u | 0 <= u < |uploads|
            ensures uploads[u].content.Success? && !constraint.assertFile(uploads[u].content.value).Violated?
          {
            assert u > 0 ==> uploads[u] == uploads[1..][u - 1];
          }
        }
      }
    }
  }

  lemma RejectionIsUnique(constraint: Tasks.Constraint, uploads: seq<Upload>, u: nat, v: nat, m: string, n: string)
    requires RejectsUpload(constraint, uploads, u, m) && RejectsUpload(constraint, uploads, v, n)
    ensures u == v && m == n
  {
  }

  /** A rule fails with a message iff a required value is missing, or the constraint rejects what is submitted. */
  lemma RuleFailsIff(rule: Rule, field: Field, values: Values, files: Files, message: string)
    ensures RuleError(rule, field, values, files) == Some(message) <==>
      match rule
      case Required => Missing(field, values, files) && message == "this field is required"
      case Constrained(constraint) => Rejects(constraint, field, values, files, message)
  {
    if rule.Constrained? && field.IsFile() && field.name in files {
      var uploads := files[field.name];
      UploadErrorIs(rule.constraint, uploads);
      var error := UploadError(rule.constraint, uploads);
      if u: nat :| RejectsUpload(rule.constraint, uploads, u, message) {
        if error.Some? {
          var v: nat :| RejectsUpload(rule.constraint, uploads, v, error.value);
          RejectionIsUnique(rule.constraint, uploads, u, v, message, error.value);
        }
      }
    }
  }

  /** The rule is met by what is submitted. */
  ghost predicate Met(rule: Rule, field: Field, values: Values, files: Files) {
    match rule
    case Required => !Missing(field, values, files)
    case Constrained(constraint) => forall message :: !Rejects(constraint, field, values, files, message)
  }

  lemma RulePassesIff(rule: Rule, field: Field, values: Values, files: Files)
    ensures RuleError(rule, field, values, files) == None <==> Met(rule, field, values, files)
  {
    var error := RuleError(rule, field, values, files);
    if error.Some? {
      RuleFailsIff(rule, field, values, files, error.value);
    } else if rule.Constrained? {
      forall message ensures !Rejects(rule.constraint, field, values, files, message) {
        RuleFailsIff(rule, field, values, files, message);
      }
    }
  }

  /** The 25 code points that Unicode calls white space. */
  const WHITE_SPACE: set<int> := {
    0x09, 0x0A, 0x0B, 0x0C, 0x0D, 0x20, 0x85, 0xA0, 0x1680,
    0x2000, 0x2001, 0x2002, 0x2003, 0x2004, 0x2005, 0x2006, 0x2007, 0x2008, 0x2009, 0x200A,
    0x2028, 0x2029, 0x202F, 0x205F, 0x3000
  }

  /** White space is what Unicode calls so. */
  lemma Spaces(c: char)
    ensures IsSpace(c) <==> c as int in WHITE_SPACE
  {
  }

  // ---------------------------------------------------------------- the form

  /** The first field with a name. */
  function Find(fields: seq<Field>, name: string): (r: Option<Field>)
    ensures r.None? ==> forall field :: field in fields ==> field.name != name
    ensures r.Some? ==> r.value in fields && r.value.name == name
    ensures r.Some? ==>
      exists i :: 0 <= i < |fields| && fields[i] == r.value && forall j :: 0 <= j < i ==> fields[j].name != name
  {
    if fields == [] then None
    else if fields[0].name == name then Some(fields[0])
    else Find(fields[1..], name)
  }

  ghost predicate Distinct(fields: seq<Field>) {
    forall i, j :: 0 <= i < j < |fields| ==> fields[i].name != fields[j].name
  }

  /** Errors after the first fields have been validated in turn. */
  function ErrorsUpTo(fields: seq<Field>, values: Values, files: Files, n: nat): map<string, string>
    requires n <= |fields|
  {
    if n == 0 then map[]
    else
      var errors := ErrorsUpTo(fields, values, files, n - 1);
      match FieldError(fields[n - 1], values, files)
      case None => errors
      case Some(message) => errors[fields[n - 1].name := message]
  }

  function AllErrors(fields: seq<Field>, values: Values, files: Files): map<string, string> {
    ErrorsUpTo(fields, values, files, |fields|)
  }

  /** Errors after one field has been validated again. */
  function Revalidated(errors: map<string, string>, fields: seq<Field>, values: Values, files: Files, name: string)
    : map<string, string>
  {
    match Find(fields, name)
    case None => errors - {name}
    case Some(field) =>
      match FieldError(field, values, files)
      case None => errors - {name}
      case Some(message) => errors[name := message]
  }

  /** The answer of validating one field. */
  predicate FieldPasses(fields: seq<Field>, values: Values, files: Files, name: string) {
    Find(fields, name).Some? && FieldError(Find(fields, name).value, values, files).None?
  }

  predicate HasFileFields(fields: seq<Field>) {
    exists i :: 0 <= i < |fields| && fields[i].IsFile()
  }

  predicate Refused(fields: seq<Field>, request: Request) {
    if HasFileFields(fields) then request.malformedMultipart else request.malformed
  }

  /** Values after the first fields have been read from a request. */
  function ValuesUpTo(fields: seq<Field>, values: Values, request: Request, n: nat): Values
    requires n <= |fields|
  {
    if n == 0 then values
    else
      var values' := ValuesUpTo(fields, values, request, n - 1);
      var field := fields[n - 1];
      if field.IsFile() then values' else values'[field.name := Value(request.values, field.name)]
  }

  /** Files after the first fields have been read from a request. */
  function FilesUpTo(fields: seq<Field>, files: Files, request: Request, n: nat): Files
    requires n <= |fields|
  {
    if n == 0 then files
    else
      var files' := FilesUpTo(fields, files, request, n - 1);
      var field := fields[n - 1];
      if field.IsFile() && field.name in request.files then files'[field.name := request.files[field.name]] else files'
  }

  class Form {
    var fields: seq<Field>
    var values: Values
    var files: Files
    var errors: map<string, string>

    constructor (fields: seq<Field>)
      ensures this.fields == fields && values == map[] && files == map[] && errors == map[]
    {
      this.fields, values, files, errors := fields, map[], map[], map[];
    }

    /** Copies what the request submits for each field; a request that cannot be parsed changes nothing. */
    method Handle(request: Request) returns (r: Result<(), string>)
      modifies this`values, this`files
      ensures r.Failure? <==> Refused(fields, request)
      ensures r.Failure? <==>
                if exists i :: 0 <= i < |fields| && fields[i].kind == FileField then request.malformedMultipart
                else request.malformed
      ensures r.Failure? ==> values == old(values) && files == old(files)
      ensures r.Success? ==> values == ValuesUpTo(fields, old(values), request, |fields|)
      ensures r.Success? ==> files == FilesUpTo(fields, old(files), request, |fields|)
    {
      if HasFileFields(fields) {
        if request.malformedMultipart {
          return Failure("failed to parse multipart form");
        }
      } else {
        if request.malformed {
          return Failure("failed to parse form");
        }
      }
      var i := 0;
      while i < |fields|
        invariant i <= |fields|
        invariant values == ValuesUpTo(fields, old(values), request, i)
        invariant files == FilesUpTo(fields, old(files), request, i)
      {
        var field := fields[i];
        i := i + 1;
        if field.IsFile() {
          if field.name !in request.files {
            continue;
          }
          files := files[field.name := request.files[field.name]];
        } else {
          values := values[field.name := Value(request.values, field.name)];
        }
      }
      return Success(());
    }

    /** Every field is validated; a field's error is that of its first failing rule. */
    method IsValid() returns (valid: bool)
      modifies this`errors
      ensures errors == AllErrors(fields, values, files)
      ensures valid <==> errors == map[]
    {
      errors := map[];
      var i := 0;
      while i < |fields|
        invariant i <= |fields|
        invariant errors == ErrorsUpTo(fields, values, files, i)
      {
        var field := fields[i];
        var k := 0;
        while k < |field.validation|
          invariant k <= |field.validation|
          invariant errors == ErrorsUpTo(fields, values, files, i)
          invariant ErrorFrom(field, values, files, k) == FieldError(field, values, files)
        {
          var error := RuleError(field.validation[k], field, values, files);
          if error.Some? {
            errors := errors[field.name := error.value];
            break;
          }
          k := k + 1;
        }
        i := i + 1;
      }
      return errors == map[];
    }

    method ValidateField(fieldName: string) returns (valid: bool)
      modifies this`errors
      ensures errors == Revalidated(old(errors), fields, values, files, fieldName)
      ensures valid <==> FieldPasses(fields, values, files, fieldName)
    {
      errors := errors - {fieldName};
      var found := Find(fields, fieldName);
      if found.None? {
        return false;
      }
      var field := found.value;
      var k := 0;
      while k < |field.validation|
        invariant k <= |field.validation|
        invariant errors == old(errors) - {fieldName}
        invariant ErrorFrom(field, values, files, k) == FieldError(field, values, files)
      {
        var error := RuleError(field.validation[k], field, values, files);
        if error.Some? {
          errors := errors[fieldName := error.value];
          assert errors == old(errors)[fieldName := error.value];
          return false;
        }
        k := k + 1;
      }
      return true;
    }
  }

  // ---------------------------------------------------------------- what a request leaves in a form

  /** Some field of this kind has the name. */
  ghost predicate Has(fields: seq<Field>, n: nat, name: string, file: bool)
    requires n <= |fields|
  {
    exists i :: 0 <= i < n && fields[i].name == name && fields[i].IsFile() == file
  }

  /** Exactly the names of plain fields get what the request submits for them. */
  lemma {:induction false} SubmittedValue(fields: seq<Field>, values: Values, request: Request, n: nat, name: string)
    requires n <= |fields|
    ensures var after := ValuesUpTo(fields, values, request, n);
      && (name in after <==> Has(fields, n, name, false) || name in values)
      && (Has(fields, n, name, false) ==> after[name] == Value(request.values, name))
      && (!Has(fields, n, name, false) && name in values ==> after[name] == values[name])
  {
    if n > 0 {
      SubmittedValue(fields, values, request, n - 1, name);
      assert Has(fields, n, name, false) <==>
        Has(fields, n - 1, name, false) || (fields[n - 1].name == name && !fields[n - 1].IsFile());
    }
  }

  /** Exactly the names of file fields get the uploads the request has for them. */
  lemma {:induction false} SubmittedFiles(fields: seq<Field>, files: Files, request: Request, n: nat, name: string)
    requires n <= |fields|
    ensures var after := FilesUpTo(fields, files, request, n);
      var taken := name in request.files && Has(fields, n, name, true);
      && (name in after <==> taken || name in files)
      && (taken ==> after[name] == request.files[name])
      && (!taken && name in files ==> after[name] == files[name])
  {
    if n > 0 {
      SubmittedFiles(fields, files, request, n - 1, name);
      assert Has(fields, n, name, true) <==>
        Has(fields, n - 1, name, true) || (fields[n - 1].name == name && fields[n - 1].IsFile());
    }
  }

  // ---------------------------------------------------------------- one field at a time

  /** Errors after fields have been validated one by one, in the order of the names. */
  function RevalidatedAll(errors: map<string, string>, fields: seq<Field>, values: Values, files: Files,
                          names: seq<string>)
    : map<string, string>
    decreases |names|
  {
    if names == [] then errors
    else
      Revalidated(RevalidatedAll(errors, fields, values, files, names[..|names| - 1]), fields, values, files,
                  names[|names| - 1])
  }

  lemma {:induction false} FindDistinct(fields: seq<Field>, i: nat)
    requires Distinct(fields) && i < |fields|
    ensures Find(fields, fields[i].name) == Some(fields[i])
  {
    if i > 0 {
      FindDistinct(fields[1..], i - 1);
    }
  }

  /** The error a name ends up with, if any. */
  function NameError(fields: seq<Field>, values: Values, files: Files, name: string): Option<string> {
    match Find(fields, name)
    case None => None
    case Some(field) => FieldError(field, values, files)
  }

  /** Validating names one by one leaves each validated name with its own error and the others as they were. */
  lemma {:induction false} RevalidatedError(errors: map<string, string>, fields: seq<Field>, values: Values,
                                            files: Files,
                                            names: seq<string>, name: string)
    ensures var after := RevalidatedAll(errors, fields, values, files, names);
      if name in names then
        && (name in after <==> NameError(fields, values, files, name).Some?)
        && (name in after ==> after[name] == NameError(fields, values, files, name).value)
      else
        && (name in after <==> name in errors)
        && (name in after ==> after[name] == errors[name])
    decreases |names|
  {
    if names != [] {
      var last := |names| - 1;
      RevalidatedError(errors, fields, values, files, names[..last], name);
      assert name in names <==> name in names[..last] || name == names[last];
    }
  }

  lemma {:induction false} ErrorsUpToNames(fields: seq<Field>, values: Values, files: Files, n: nat, name: string)
    requires n <= |fields|
    requires name in ErrorsUpTo(fields, values, files, n)
    ensures exists i :: 0 <= i < n && fields[i].name == name
  {
    if n > 0 && !(fields[n - 1].name == name) {
      ErrorsUpToNames(fields, values, files, n - 1, name);
    }
  }

  lemma {:induction false} ErrorsUpToError(fields: seq<Field>, values: Values, files: Files, n: nat, i: nat)
    requires Distinct(fields) && i < n <= |fields|
    ensures var errors, error := ErrorsUpTo(fields, values, files, n), FieldError(fields[i], values, files);
      && (fields[i].name in errors <==> error.Some?)
      && (error.Some? ==> errors[fields[i].name] == error.value)
  {
    if i < n - 1 {
      ErrorsUpToError(fields, values, files, n - 1, i);
    } else {
      if fields[i].name in ErrorsUpTo(fields, values, files, n - 1) {
        ErrorsUpToNames(fields, values, files, n - 1, fields[i].name);
      }
    }
  }

  /** Whole validation records for each name the error of its field. */
  lemma AllErrorsError(fields: seq<Field>, values: Values, files: Files, name: string)
    requires Distinct(fields)
    ensures var errors, error := AllErrors(fields, values, files), NameError(fields, values, files, name);
      && (name in errors <==> error.Some?)
      && (error.Some? ==> errors[name] == error.value)
  {
    if i: nat :| i < |fields| && fields[i].name == name {
      FindDistinct(fields, i);
      ErrorsUpToError(fields, values, files, |fields|, i);
    } else {
      if name in AllErrors(fields, values, files) {
        ErrorsUpToNames(fields, values, files, |fields|, name);
      }
    }
  }

  /**
    With distinct field names, validating every field once or more, in any
    order, gives the errors of validating the form - exactly when every error
    that was there to begin with is on a name that was validated.
   */
  lemma BatchAndIncrementalAgreeIff(errors: map<string, string>, fields: seq<Field>, values: Values, files: Files,
                                    names: seq<string>)
    requires Distinct(fields)
    requires forall field :: field in fields ==> field.name in names
    ensures RevalidatedAll(errors, fields, values, files, names) == AllErrors(fields, values, files)
       <==> forall name :: name in errors ==> name in names
  {
    var after, all := RevalidatedAll(errors, fields, values, files, names), AllErrors(fields, values, files);
    forall name: string
      ensures (name in after <==> name in all || (name in errors && name !in names))
      ensures name in all ==> name in after && after[name] == all[name]
    {
      RevalidatedError(errors, fields, values, files, names, name);
      AllErrorsError(fields, values, files, name);
      if name in all {
        ErrorsUpToNames(fields, values, files, |fields|, name);
      }
    }
    if name :| name in errors && name !in names {
      assert name in after;
      if name in all {
        ErrorsUpToNames(fields, values, files, |fields|, name);
      }
    } else {
      assert after == all;
    }
  }

  /** A form is valid iff validating each of its fields alone succeeds. */
  lemma ValidIffEveryFieldPasses(fields: seq<Field>, values: Values, files: Files)
    requires Distinct(fields)
    ensures AllErrors(fields, values, files) == map[] <==>
            forall i :: 0 <= i < |fields| ==> FieldPasses(fields, values, files, fields[i].name)
  {
    var all := AllErrors(fields, values, files);
    forall i | 0 <= i < |fields|
      ensures FieldPasses(fields, values, files, fields[i].name) <==> fields[i].name !in all
    {
      FindDistinct(fields, i);
      AllErrorsError(fields, values, files, fields[i].name);
    }
    forall name | name in all
      ensures exists i :: 0 <= i < |fields| && fields[i].name == name
    {
      ErrorsUpToNames(fields, values, files, |fields|, name);
    }
    assert all == map[] <==> forall name :: name !in all;
  }

  lemma FieldPassesIff(field: Field, values: Values, files: Files)
    ensures FieldError(field, values, files).None? <==>
      forall k :: 0 <= k < |field.validation| ==> Met(field.validation[k], field, values, files)
  {
    ErrorFromIsFirst(field, values, files, 0);
    forall k | 0 <= k < |field.validation|
      ensures RuleError(field.validation[k], field, values, files) == None
         <==> Met(field.validation[k], field, values, files)
    {
      RulePassesIff(field.validation[k], field, values, files);
    }
  }

  /** A form is valid iff what is submitted meets every rule of every field. */
  lemma FormIsValidIff(fields: seq<Field>, values: Values, files: Files)
    requires Distinct(fields)
    ensures AllErrors(fields, values, files) == map[] <==>
      forall i, k :: 0 <= i < |fields| && 0 <= k < |fields[i].validation| ==>
        Met(fields[i].validation[k], fields[i], values, files)
  {
    ValidIffEveryFieldPasses(fields, values, files);
    forall i | 0 <= i < |fields|
      ensures FieldPasses(fields, values, files, fields[i].name) <==>
        forall k :: 0 <= k < |fields[i].validation| ==> Met(fields[i].validation[k], fields[i], values, files)
    {
      FindDistinct(fields, i);
      FieldPassesIff(fields[i], values, files);
    }
  }

  /** A recorded error is that of the field's first failing rule, and only then is one recorded. */
  lemma RecordedErrorIsFirst(fields: seq<Field>, values: Values, files: Files, i: nat)
    requires Distinct(fields) && i < |fields|
    ensures var errors, field := AllErrors(fields, values, files), fields[i];
      if field.name in errors then
        exists k :: FailsFirst(field, values, files, k, errors[field.name])
      else
        forall k :: 0 <= k < |field.validation| ==> RuleError(field.validation[k], field, values, files) == None
  {
    ErrorsUpToError(fields, values, files, |fields|, i);
    ErrorFromIsFirst(fields[i], values, files, 0);
  }
}
