/**
 Form validation for a payment entry form: the table from field name to
 field validator, and the whole-form validation pass that runs every field's
 validator and aggregates the non-empty error maps under the field's name.

 The individual validators (required, pan, cvv, cardholder, expiry month and
 year) and the resolution of a field's rule names into them are not part of
 this model: a field validator is an opaque, deterministic function from the
 field's value and the whole form data to an error map.
 */
module FormValidation {

  datatype Option<T> = None | Some(value: T)

  /** A field descriptor: the field's name and the rule names declared for it. */
  datatype Field = Field(name: string, rules: seq<string>)

  /** Error key (for instance the rule that failed) to error message. */
  type ErrorMap = map<string, string>

  /** The submitted form: field name to the value entered for it. */
  type FormData<V> = map<string, V>

  /** A bound field validator: (value of the field, whole form data) to errors. */
  type FieldValidator<!V> = (Option<V>, FormData<V>) -> ErrorMap

  type ValidatorTable<!V> = map<string, FieldValidator<V>>

  datatype ValidationResult = ValidationResult(isValid: bool, errors: map<string, ErrorMap>)

  /** The value of a field in the form data; None stands for an absent own key. */
  function Lookup<V>(data: FormData<V>, name: string): Option<V>
  {
    if name in data then Some(data[name]) else None
  }

  /** The set of names the fields declare. */
  function Names(fields: seq<Field>): set<string>
  {
    set f | f in fields :: f.name
  }

  /** Inserting a field adds its name to the declared names. */
  lemma NamesOfInsert(before: seq<Field>, f: Field, after: seq<Field>)
    ensures Names(before + [f] + after) == Names(before + after) + {f.name}
  {
  }

  /** No field after position i carries the name of the field at i. */
  predicate IsLastOccurrence(fields: seq<Field>, i: int)
    requires 0 <= i < |fields|
  {
    forall j :: i < j < |fields| ==> fields[j].name != fields[i].name
  }

  // ---------------------------------------------------------------------------
  // The field-validator table

  /**
   The table obtained by registering the fields one after another, each under
   its name; a later field overwrites an earlier field of the same name.
   */
  function FieldTable<V>(fields: seq<Field>, bind: Field -> FieldValidator<V>): ValidatorTable<V>
    decreases |fields|
  {
    if fields == [] then map[]
    else
      var last := fields[|fields| - 1];
      FieldTable(fields[..|fields| - 1], bind)[last.name := bind(last)]
  }

  /** The table has exactly one entry per distinct field name. */
  lemma {:induction false} FieldTableKeys<V>(fields: seq<Field>, bind: Field -> FieldValidator<V>)
    ensures FieldTable(fields, bind).Keys == Names(fields)
    decreases |fields|
  {
    if fields != [] {
      var prefix, last := fields[..|fields| - 1], fields[|fields| - 1];
      FieldTableKeys(prefix, bind);
      assert fields == prefix + [last] + [];
      NamesOfInsert(prefix, last, []);
    }
  }

  /** Each name is bound to the validator built from its last field. */
  lemma {:induction false} FieldTableLastWins<V>(fields: seq<Field>, bind: Field -> FieldValidator<V>, i: int)
    requires 0 <= i < |fields| && IsLastOccurrence(fields, i)
    ensures fields[i].name in FieldTable(fields, bind)
    ensures FieldTable(fields, bind)[fields[i].name] == bind(fields[i])
    decreases |fields|
  {
    if i < |fields| - 1 {
      var prefix := fields[..|fields| - 1];
      assert prefix[i] == fields[i];
      assert IsLastOccurrence(prefix, i) by {
        forall j | i < j < |prefix| ensures prefix[j].name != prefix[i].name {
          assert prefix[j] == fields[j];
        }
      }
      FieldTableLastWins(prefix, bind, i);
      assert fields[|fields| - 1].name != fields[i].name;
    }
  }

  /**
   Builds the field-validator table with one loop over the fields, binding
   each field's name to the validator built for it.
   */
  method MakeFieldValidators<V>(fields: seq<Field>, bind: Field -> FieldValidator<V>)
    returns (table: ValidatorTable<V>)
    ensures table == FieldTable(fields, bind)
    ensures table.Keys == Names(fields)
    ensures forall i :: 0 <= i < |fields| && IsLastOccurrence(fields, i) ==>
              table[fields[i].name] == bind(fields[i])
  {
    table := map[];
    for k := 0 to |fields|
      invariant table == FieldTable(fields[..k], bind)
    {
      assert fields[..k + 1][..k] == fields[..k];
      table := table[fields[k].name := bind(fields[k])];
    }
    assert fields[..|fields|] == fields;
    FieldTableKeys(fields, bind);
    forall i | 0 <= i < |fields| && IsLastOccurrence(fields, i)
      ensures table[fields[i].name] == bind(fields[i])
    {
      FieldTableLastWins(fields, bind, i);
    }
  }

  // ---------------------------------------------------------------------------
  // Whole-form validation

  /** What the validator registered under `name` reports for the form data. */
  function FieldErrors<V>(table: ValidatorTable<V>, data: FormData<V>, name: string): ErrorMap
    requires name in table
  {
    table[name](Lookup(data, name), data)
  }

  /** The field has a validator and that validator reports at least one error. */
  predicate Fails<V>(table: ValidatorTable<V>, data: FormData<V>, name: string)
  {
    name in table && |FieldErrors(table, data, name)| > 0
  }

  /**
   One pass of the validation loop on field f: a field without a validator is
   skipped; a non-empty error map is stored under the field's name and clears
   the validity flag.
   */
  function ValidateStep<V>(acc: ValidationResult, table: ValidatorTable<V>, data: FormData<V>, f: Field): ValidationResult
  {
    if f.name in table then
      var errors := FieldErrors(table, data, f.name);
      if |errors| > 0 then ValidationResult(false, acc.errors[f.name := errors]) else acc
    else acc
  }

  /** Validation of the fields in declaration order, starting from a valid result with no errors. */
  function Validation<V>(fields: seq<Field>, table: ValidatorTable<V>, data: FormData<V>): ValidationResult
    decreases |fields|
  {
    if fields == [] then ValidationResult(true, map[])
    else ValidateStep(Validation(fields[..|fields| - 1], table, data), table, data, fields[|fields| - 1])
  }

  /** The result the validation pass is meant to produce, stated without the loop. */
  function ExpectedResult<V>(fields: seq<Field>, table: ValidatorTable<V>, data: FormData<V>): ValidationResult
  {
    ExpectedOver(Names(fields), table, data)
  }

  /** The expected result for a set of declared names. */
  function ExpectedOver<V>(names: set<string>, table: ValidatorTable<V>, data: FormData<V>): ValidationResult
  {
    ValidationResult(
      forall n :: n in names ==> !Fails(table, data, n),
      map n | n in names && Fails(table, data, n) :: FieldErrors(table, data, n))
  }

  /** Declaring one more name changes the expected result as one loop step on that field does. */
  lemma ExpectedOverAdd<V>(names: set<string>, f: Field, table: ValidatorTable<V>, data: FormData<V>)
    ensures ExpectedOver(names + {f.name}, table, data) == ValidateStep(ExpectedOver(names, table, data), table, data, f)
  {
  }

  /** The sequential validation pass computes the expected result. */
  lemma {:induction false} ValidationClosedForm<V>(fields: seq<Field>, table: ValidatorTable<V>, data: FormData<V>)
    ensures Validation(fields, table, data) == ExpectedResult(fields, table, data)
    decreases |fields|
  {
    if fields == [] {
      assert Names(fields) == {};
    } else {
      var prefix, last := fields[..|fields| - 1], fields[|fields| - 1];
      ValidationClosedForm(prefix, table, data);
      assert Names(fields) == Names(prefix) + {last.name} by {
        NamesOfInsert(prefix, last, []);
        assert prefix + [last] + [] == fields && prefix + [] == prefix;
      }
      ExpectedOverAdd(Names(prefix), last, table, data);
    }
  }

  /** isValid is false exactly when some field with a validator reported errors. */
  lemma {:induction false} ValidIffNoFieldFails<V>(fields: seq<Field>, table: ValidatorTable<V>, data: FormData<V>)
    ensures Validation(fields, table, data).isValid <==>
            forall i :: 0 <= i < |fields| ==> !Fails(table, data, fields[i].name)
  {
    ValidationClosedForm(fields, table, data);
    if !Validation(fields, table, data).isValid {
      var n :| n in Names(fields) && Fails(table, data, n);
      var f :| f in fields && f.name == n;
      var i :| 0 <= i < |fields| && fields[i] == f;
      assert Fails(table, data, fields[i].name);
    }
  }

  /**
   The error map holds exactly the fields whose validator reported errors,
   each under its name and equal to that validator's output.
   */
  lemma {:induction false} ErrorsAreFailingFields<V>(fields: seq<Field>, table: ValidatorTable<V>, data: FormData<V>)
    ensures forall n :: n in Validation(fields, table, data).errors <==> n in Names(fields) && Fails(table, data, n)
    ensures forall n :: n in Validation(fields, table, data).errors ==>
              n in table && Validation(fields, table, data).errors[n] == FieldErrors(table, data, n)
  {
    ValidationClosedForm(fields, table, data);
  }

  /** A result is valid exactly when it holds no errors. */
  lemma {:induction false} ValidIffNoErrors<V>(fields: seq<Field>, table: ValidatorTable<V>, data: FormData<V>)
    ensures Validation(fields, table, data).isValid <==> Validation(fields, table, data).errors == map[]
  {
    ValidationClosedForm(fields, table, data);
    var r := Validation(fields, table, data);
    if !r.isValid {
      var n :| n in Names(fields) && Fails(table, data, n);
      assert n in r.errors;
    }
  }

  /** When no validator reports anything (in particular with no fields) the form is valid with no errors. */
  lemma {:induction false} AllEmptyIsValid<V>(fields: seq<Field>, table: ValidatorTable<V>, data: FormData<V>)
    requires forall i :: 0 <= i < |fields| && fields[i].name in table ==> FieldErrors(table, data, fields[i].name) == map[]
    ensures Validation(fields, table, data) == ValidationResult(true, map[])
  {
    ValidIffNoFieldFails(fields, table, data);
    ValidIffNoErrors(fields, table, data);
  }

  /** A field without a validator in the table contributes nothing. */
  lemma SkippedFieldContributesNothing<V>(before: seq<Field>, f: Field, after: seq<Field>, table: ValidatorTable<V>, data: FormData<V>)
    requires f.name !in table
    ensures Validation(before + [f] + after, table, data) == Validation(before + after, table, data)
  {
    var with, without := before + [f] + after, before + after;
    ValidationClosedForm(with, table, data);
    ValidationClosedForm(without, table, data);
    NamesOfInsert(before, f, after);
  }

  /**
   Aggregation does not depend on the order of the fields nor on repeats:
   any two field lists that declare the same names validate to the same result.
   */
  lemma OrderIndependent<V>(fields: seq<Field>, reordered: seq<Field>, table: ValidatorTable<V>, data: FormData<V>)
    requires Names(fields) == Names(reordered)
    ensures Validation(fields, table, data) == Validation(reordered, table, data)
  {
    ValidationClosedForm(fields, table, data);
    ValidationClosedForm(reordered, table, data);
  }
}
