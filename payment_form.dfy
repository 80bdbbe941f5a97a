/**
 The payment form object: the field descriptors, the field-validator table
 built from them, the validate operation over that table, and the submit
 handler with its one mutable cell, the data of the last valid submission.
 */
module UsePaymentForm {
  import opened FormValidation

  /** What a submission ends in; Rejected stands for the "invalid payment form data" error. */
  datatype SubmitOutcome = Submitted | Rejected

  class PaymentForm<!V> {
    const fields: seq<Field>
    const fieldValidators: ValidatorTable<V>
    var collectedData: FormData<V>

    /**
     The collected data is the initial empty record or a snapshot that passed
     validation.
     */
    ghost predicate Valid()
      reads this
    {
      collectedData == map[] || Validation(fields, fieldValidators, collectedData).isValid
    }

    /**
     Builds the form for the given fields: the validator table holds the
     validator `bind` builds for each field, and nothing has been collected.
     */
    constructor (fields: seq<Field>, bind: Field -> FieldValidator<V>)
      ensures this.fields == fields
      ensures fieldValidators == FieldTable(fields, bind)
      ensures fieldValidators.Keys == Names(fields)
      ensures collectedData == map[]
      ensures Valid()
    {
      var table := MakeFieldValidators(fields, bind);
      this.fields := fields;
      fieldValidators := table;
      collectedData := map[];
    }

    /**
     Runs every field's validator in declaration order and aggregates the
     non-empty error maps; the result is the sequential validation pass.
     */
    method Validate(data: FormData<V>) returns (result: ValidationResult)
      ensures result == Validation(fields, fieldValidators, data)
      ensures result.isValid <==> result.errors == map[]
      ensures result.isValid <==> forall i :: 0 <= i < |fields| ==> !Fails(fieldValidators, data, fields[i].name)
    {
      var isValid := true;
      var errors: map<string, ErrorMap> := map[];
      for k := 0 to |fields|
        invariant ValidationResult(isValid, errors) == Validation(fields[..k], fieldValidators, data)
      {
        assert fields[..k + 1][..k] == fields[..k];
        var field := fields[k];
        if field.name in fieldValidators {
          var validateField := fieldValidators[field.name];
          var fieldErrors := validateField(Lookup(data, field.name), data);
          if |fieldErrors| > 0 {
            isValid := false;
            errors := errors[field.name := fieldErrors];
          }
        }
      }
      assert fields[..|fields|] == fields;
      result := ValidationResult(isValid, errors);
      ValidIffNoErrors(fields, fieldValidators, data);
      ValidIffNoFieldFails(fields, fieldValidators, data);
    }

    /** The data of the last valid submission (the empty record before any). */
    method GetCollectedData() returns (data: FormData<V>)
      ensures data == collectedData
    {
      data := collectedData;
    }

    /**
     Validates the data; when it is valid the collected data is replaced by a
     copy of it, otherwise the submission is rejected and nothing changes.
     */
    method OnSubmit(data: FormData<V>) returns (outcome: SubmitOutcome)
      requires Valid()
      modifies this`collectedData
      ensures Valid()
      ensures outcome == Submitted <==> Validation(fields, fieldValidators, data).isValid
      ensures collectedData == if outcome == Submitted then data else old(collectedData)
    {
      var result := Validate(data);
      if result.isValid {
        collectedData := data;
        outcome := Submitted;
      } else {
        outcome := Rejected;
      }
    }
  }

  /**
   A valid submission, a second valid one and then an invalid one: the cell
   holds the second payload at the end and only the last call is rejected.
   */
  method SubmitSequence<V>(form: PaymentForm<V>, first: FormData<V>, second: FormData<V>, invalid: FormData<V>)
    returns (outcomes: seq<SubmitOutcome>)
    requires form.Valid()
    requires Validation(form.fields, form.fieldValidators, first).isValid
    requires Validation(form.fields, form.fieldValidators, second).isValid
    requires !Validation(form.fields, form.fieldValidators, invalid).isValid
    modifies form
    ensures outcomes == [Submitted, Submitted, Rejected]
    ensures form.collectedData == second
  {
    var a := form.OnSubmit(first);
    var b := form.OnSubmit(second);
    var c := form.OnSubmit(invalid);
    outcomes := [a, b, c];
  }
}
