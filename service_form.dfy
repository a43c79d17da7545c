/**
 * The administrator's form for creating or editing a service: the fields it edits, the
 * errors it shows under them, and the validation that decides whether it is submitted.
 */
module ServiceForm {
  import opened Wrappers
  import opened Records
  import opened Text
  import Services

  const NameRequired := "El nombre es obligatorio"
  const NameTooLong := "El nombre no puede exceder 100 caracteres"
  const DescriptionRequired := "La descripción es obligatoria"
  const DescriptionTooLong := "La descripción no puede exceder 500 caracteres"

  const MaxName := 100
  const MaxDescription := 500

  /** The form's fields, named as their inputs are. */
  datatype Field = NameField | DescriptionField | DisabledField

  /** What one change event carries: the field and its new text, or the checkbox's state. */
  datatype Input = NameInput(value: string) | DescriptionInput(value: string) | DisabledInput(checked: bool)

  function FieldOf(input: Input): Field {
    match input
    case NameInput(_) => NameField
    case DescriptionInput(_) => DescriptionField
    case DisabledInput(_) => DisabledField
  }

  /** What is handed to the page when the form is submitted. */
  datatype FormData = FormData(name: string, description: string, disabled: bool)

  /** The error of the name field: required when blank after trimming, otherwise at most 100 characters. */
  function NameError(name: string): (r: Option<string>)
    ensures r == Some(NameRequired) <==> Trim(name) == ""
    ensures r == Some(NameTooLong) <==> Trim(name) != "" && |name| > MaxName
    ensures r.None? <==> Trim(name) != "" && |name| <= MaxName
  {
    if Trim(name) == "" then Some(NameRequired)
    else if |name| > MaxName then Some(NameTooLong)
    else None
  }

  /** The error of the description field: required when blank after trimming, otherwise at most 500 characters. */
  function DescriptionError(description: string): (r: Option<string>)
    ensures r == Some(DescriptionRequired) <==> Trim(description) == ""
    ensures r == Some(DescriptionTooLong) <==> Trim(description) != "" && |description| > MaxDescription
    ensures r.None? <==> Trim(description) != "" && |description| <= MaxDescription
  {
    if Trim(description) == "" then Some(DescriptionRequired)
    else if |description| > MaxDescription then Some(DescriptionTooLong)
    else None
  }

  /** The errors `validate` has recorded once it has checked the name. */
  ghost function NamedErrors(name: string): map<Field, Option<string>> {
    if NameError(name).Some? then map[NameField := NameError(name)] else map[]
  }

  /** The errors `validate` records: one entry per failing field, none for the checkbox. */
  ghost function FormErrors(name: string, description: string): map<Field, Option<string>> {
    var named := NamedErrors(name);
    if DescriptionError(description).Some? then named[DescriptionField := DescriptionError(description)] else named
  }

  /** The form is valid exactly when both text fields are non-blank and within their lengths. */
  lemma FormErrorsEmptyIff(name: string, description: string)
    ensures FormErrors(name, description) == map[] <==>
      Trim(name) != "" && |name| <= MaxName && Trim(description) != "" && |description| <= MaxDescription
  {
    if NameError(name).Some? {
      assert NameField in FormErrors(name, description);
    }
    if DescriptionError(description).Some? {
      assert DescriptionField in FormErrors(name, description);
    }
  }

  /** Each field's recorded error is its own rule's error, and the checkbox never has one. */
  lemma FormErrorsPerField(name: string, description: string)
    ensures NameField in FormErrors(name, description) <==> NameError(name).Some?
    ensures NameField in FormErrors(name, description) ==> FormErrors(name, description)[NameField] == NameError(name)
    ensures DescriptionField in FormErrors(name, description) <==> DescriptionError(description).Some?
    ensures DescriptionField in FormErrors(name, description) ==>
      FormErrors(name, description)[DescriptionField] == DescriptionError(description)
    ensures DisabledField !in FormErrors(name, description)
  {
    var ne := NameError(name);
    var de := DescriptionError(description);
    var named := NamedErrors(name);
    assert named == if ne.Some? then map[NameField := ne] else map[];
    assert FormErrors(name, description) == if de.Some? then named[DescriptionField := de] else named;
  }

  /** A name the form lets through also passes the server's own required-name check. */
  lemma ValidNamePassesServer(name: string, description: string)
    requires FormErrors(name, description) == map[]
    ensures Services.Given(Some(name)) && Trim(name) != ""
  {
    FormErrorsEmptyIff(name, description);
  }

  /** What the name rule of `validate` records is `NamedErrors`. */
  lemma NameChecked(n: string, found: map<Field, Option<string>>)
    requires found == if Trim(n) == "" then map[NameField := Some(NameRequired)]
                      else if |n| > MaxName then map[NameField := Some(NameTooLong)] else map[]
    ensures found == NamedErrors(n)
  {
  }

  /** Adding what the description rule of `validate` records gives `FormErrors`. */
  lemma DescriptionChecked(n: string, d: string, named: map<Field, Option<string>>, found: map<Field, Option<string>>)
    requires named == NamedErrors(n)
    requires found == if Trim(d) == "" then named[DescriptionField := Some(DescriptionRequired)]
                      else if |d| > MaxDescription then named[DescriptionField := Some(DescriptionTooLong)] else named
    ensures found == FormErrors(n, d)
  {
  }

  /** An error shows under a field when its entry holds a non-empty message (`errors[name]` is truthy). */
  predicate Shown(errors: map<Field, Option<string>>, f: Field) {
    f in errors && errors[f].Some? && errors[f].value != ""
  }

  lemma NoKeysIsEmpty(m: map<Field, Option<string>>)
    ensures m.Keys == {} <==> m == map[]
  {
    if m.Keys != {} {
      var f :| f in m.Keys;
    }
  }

  class Form {
    var name: string
    var description: string
    var disabled: bool
    var errors: map<Field, Option<string>>

    function Data(): FormData
      reads this
    {
      FormData(name, description, disabled)
    }

    /** A new form is empty, unchecked and free of errors. */
    constructor()
      ensures name == "" && description == "" && !disabled && errors == map[]
    {
      name := "";
      description := "";
      disabled := false;
      errors := map[];
    }

    /**
     * The effect run when the form opens: the edited service's values, a missing
     * description read as "", or an empty form for a new service; errors are cleared.
     */
    method Load(service: Option<Service>)
      modifies this
      ensures service.None? ==> name == "" && description == "" && !disabled
      ensures service.Some? ==>
        && name == service.value.name
        && description == (if service.value.description.Some? then service.value.description.value else "")
        && disabled == service.value.disabled
      ensures errors == map[]
    {
      if service.Some? {
        name := service.value.name;
        description := if service.value.description.Some? then service.value.description.value else "";
        disabled := service.value.disabled;
      } else {
        name := "";
        description := "";
        disabled := false;
      }
      errors := map[];
    }

    /**
     * `handleChange`: the changed field takes the new value, and its error, if one shows,
     * is replaced by `null`; every other field and error stays as it was.
     */
    method HandleChange(input: Input)
      modifies this
      ensures input.NameInput? ==> name == input.value && description == old(description) && disabled == old(disabled)
      ensures input.DescriptionInput? ==> description == input.value && name == old(name) && disabled == old(disabled)
      ensures input.DisabledInput? ==> disabled == input.checked && name == old(name) && description == old(description)
      ensures errors == if Shown(old(errors), FieldOf(input)) then old(errors)[FieldOf(input) := None] else old(errors)
      ensures !Shown(errors, FieldOf(input))
      ensures forall f :: f != FieldOf(input) ==> (f in errors <==> f in old(errors))
      ensures forall f :: f != FieldOf(input) && f in errors ==> errors[f] == old(errors)[f]
    {
      match input {
        case NameInput(v) => name := v;
        case DescriptionInput(v) => description := v;
        case DisabledInput(c) => disabled := c;
      }
      var f := FieldOf(input);
      if Shown(errors, f) {
        errors := errors[f := None];
      }
    }

    /**
     * `validate`: fills a fresh set of errors rule by rule, shows it in place of the old
     * one and reports whether it stayed empty.
     */
    method Validate() returns (valid: bool)
      modifies this`errors
      ensures errors == FormErrors(name, description)
      ensures valid <==> errors == map[]
    {
      var n, d := name, description;
      var found: map<Field, Option<string>> := map[];
      if Trim(n) == "" {
        found := found[NameField := Some(NameRequired)];
      } else if |n| > MaxName {
        found := found[NameField := Some(NameTooLong)];
      }
      ghost var named := found;
      NameChecked(n, named);
      if Trim(d) == "" {
        found := found[DescriptionField := Some(DescriptionRequired)];
      } else if |d| > MaxDescription {
        found := found[DescriptionField := Some(DescriptionTooLong)];
      }
      DescriptionChecked(n, d, named, found);
      errors := found;
      valid := found.Keys == {};
      NoKeysIsEmpty(found);
    }

    /** `handleSubmit`: the form's values are handed on only when validation leaves no error. */
    method HandleSubmit() returns (submitted: Option<FormData>)
      modifies this`errors
      ensures errors == FormErrors(name, description)
      ensures submitted.Some? <==> FormErrors(name, description) == map[]
      ensures submitted.Some? ==> submitted.value == Data()
    {
      var valid := Validate();
      if !valid {
        return None;
      }
      return Some(Data());
    }
  }
}
