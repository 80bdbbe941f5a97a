# Payment form validation orchestrator

A Dafny model of `usePaymentForm`, the composable of the payment-method
package that turns a list of payment field descriptors into a form object.
The composable:

- builds a table from field name to field validator (`makeFieldValidators`);
- builds a validate operation that runs every field's validator in
  declaration order, collects each non-empty error map under the field's
  name and clears `isValid` when any field failed (`makeValidateFormFn`);
- wraps a submit handler around it that owns one mutable cell,
  `collectedData`, replaced by a copy of the submitted data only when
  validation passes, and otherwise fails with "invalid payment form data"
  (`makeOnSubmitFn`, with its accessor `getCollectedData`).

Files:

- `form_validation.dfy`, module `FormValidation`: field descriptors, form
  data, error maps, the field-validator table (`FieldTable` and the loop
  `MakeFieldValidators`), the validation pass as a specification function
  (`Validation`) with its closed form (`ExpectedResult`, over a set of names
  `ExpectedOver`) and the lemmas about
  it.
- `payment_form.dfy`, module `UsePaymentForm`: the class `PaymentForm`, whose
  constructor is the default export, with the loop of the validate closure
  (`Validate`), `OnSubmit` and `GetCollectedData`, and a client method that
  submits three payloads in a row.

Modelling choices:

- `useValidation(field, validatorMap)` is a function parameter
  `bind: Field -> FieldValidator<V>`. A field validator is a total,
  deterministic function from the field's value and the whole form data to a
  map from error key to message. Form values have an abstract type `V`.
- `data[field.name]` of an absent own key (JavaScript `undefined`) is `None`.
- The thrown `Error` of `onSubmit` is the outcome `Rejected`; the object
  spread that copies the data is a value copy.
- The awaited calls are sequential, so the model is synchronous.
- `makeOnSubmitFn` accepts any validate function; the model uses the one
  that the default export passes to it, the class's own `Validate`.
- The closures of the source become one object: `fields` and the table are
  constants of the class, `collectedData` its one mutable field (what this
  loses is listed under "## Left out").

## Model

| member | source | states |
|---|---|---|
| FormValidation.MakeFieldValidators | src/base/composables/usePaymentForm.ts:26-34 | the loop builds the table of registering each field in order; its keys are exactly the declared names, and each name maps to the validator of its last field |
| FormValidation.FieldTableKeys | src/base/composables/usePaymentForm.ts:26-34 | the table has exactly one entry per distinct field name |
| FormValidation.FieldTableLastWins | src/base/composables/usePaymentForm.ts:29-31 | when names repeat, the later field's validator overwrites the earlier one |
| FormValidation.ValidationClosedForm | src/base/composables/usePaymentForm.ts:39-56 | the sequential pass yields isValid = "no declared field fails" and errors = the map from each failing field name to its validator's output |
| FormValidation.ExpectedOverAdd | src/base/composables/usePaymentForm.ts:43-51 | declaring one more field name changes the expected result exactly as one loop iteration on that field does: skipped without a validator, unchanged on empty errors, otherwise invalid with its errors stored under its name |
| FormValidation.ValidIffNoFieldFails | src/base/composables/usePaymentForm.ts:42-53 | isValid is false if and only if some field whose validator exists returned a non-empty error map |
| FormValidation.ErrorsAreFailingFields | src/base/composables/usePaymentForm.ts:46-51 | the keys of errors are exactly the failing field names, each entry is that field's validator applied to data[name] and the whole data, fields with empty results are absent |
| FormValidation.ValidIffNoErrors | src/base/composables/usePaymentForm.ts:40-55 | a validation result is valid exactly when its error map is empty |
| FormValidation.AllEmptyIsValid | src/base/composables/usePaymentForm.ts:40-55 | with no fields, or when every validator returns an empty map, the result is isValid = true with no errors |
| FormValidation.SkippedFieldContributesNothing | src/base/composables/usePaymentForm.ts:43-45 | a field with no entry in the validator table is skipped and changes nothing in the result |
| FormValidation.OrderIndependent | src/base/composables/usePaymentForm.ts:42-53 | any two field lists declaring the same names, whatever their order and repeats, give the same result |
| UsePaymentForm.PaymentForm.constructor | src/base/composables/usePaymentForm.ts:77-88 | the form keeps the fields unchanged, its table is the one built from them, and the collected data starts as the empty record |
| UsePaymentForm.PaymentForm.Validate | src/base/composables/usePaymentForm.ts:39-56 | the loop computes the sequential validation pass; the result is valid iff its errors are empty iff no field with a validator fails |
| UsePaymentForm.PaymentForm.GetCollectedData | src/base/composables/usePaymentForm.ts:62 | returns the current collected data and changes nothing |
| UsePaymentForm.PaymentForm.OnSubmit | src/base/composables/usePaymentForm.ts:63-71 | succeeds iff the data validates; on success the collected data becomes the submitted data, on rejection it stays as it was; with the collected data held as a value, it is always the empty record or a snapshot that passed validation |
| UsePaymentForm.SubmitSequence | src/base/composables/usePaymentForm.ts:59-71 | two valid submissions leave the second payload in the cell, and an invalid one after them is rejected and leaves it there |

## Left out

- The individual validators (`required`, `pan`, `cvv`, `cardholder`, `expiryMonth`, `expiryYear`), `useValidation` and the resolution of rule names through `validatorMap`: their source is not part of this model, so a field validator is an opaque function parameter.
- The concrete contents of `validatorMap`: they only feed `useValidation`.
- `async`/`await`: the validators are awaited one after another, so there is no concurrency to capture.
- The `Error` object and its message text: a rejection is the outcome `Rejected`.
- Shallow versus deep copy of the object spread in `onSubmit`: modelled as a value copy, so aliasing between the submitted object and the collected data is not captured.
- Aliasing of the collected data: `getCollectedData` hands out the live object (the initial `{}` or the last copy), so a caller can change the cell in place without validation; the model returns a value, and the invariant that the cell passed validation holds only under that value semantics.
- Aliasing of `fields`: the array is shared with the caller through `paymentForm.fields` and read again by every validate call, while the table is built from it once; a field pushed after construction is validated with no table entry, which is how the `if (validateField)` test can fail. The model keeps the fields constant, so inside a form every field has a validator; `SkippedFieldContributesNothing` states what a field without one does for any table.
- Key order of `errors`: the JavaScript object keeps its keys in the order the failing fields were met; the model's map has no order, so `OrderIndependent` promises the same entries, not the same key order.
- Prototype behaviour of JavaScript objects: the validator table, `result.errors` and `data` are plain objects, which the model treats as maps. Field names are assumed to be ordinary own keys, never `__proto__` and never the name of an `Object.prototype` member. For such names the source differs. Reading `data.constructor` from data without that key yields `Object`, not `undefined`. Storing errors under `__proto__` sets the prototype of `errors` instead of adding a key, so `isValid` is false while `errors` has no keys, against what `ValidIffNoErrors` and `ErrorsAreFailingFields` state for the model.
- The type imports and the assembly of the `PaymentForm` object beyond the fields being kept unchanged.
- A validator table entry that is not a function: JavaScript's `if (validateField)` test is modelled as "the name is a key of the table", since the table is built only from validators.
- That validation leaves `data` unchanged and returns the same result when repeated holds because form data is a value and validators are functions in the model; no separate member states it.
