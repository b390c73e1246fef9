# Event payload validator, modelled in Dafny

This project models the event validator: a gatekeeper that checks untyped
event payloads (dictionaries from an upstream source) against a fixed table
of per-event-type schemas. For each payload it produces a typed record or an
error. The model has four parts, one module each:

- `Schemas` (wrappers in `Wrappers`): the `EventSchemas` registry. Each
  event-type name maps to an ordered list of field descriptors
  `FieldSpec(name, type, presence)`. A presence is `Required` (the source's
  `...`) or `Default(v)` (the source's `None` default). Types are `str`, `int`
  and `Optional[T]`. The `__call__` accessor is `DropDunder`. The `getattr`
  lookup is `Lookup`. The registry is a constant, so no lookup can change it.
- `Validator`: `EventValidator.validate` is a schema interpreter (`Validate`)
  that replaces pydantic's `create_model`. `EventModel.validate_event` is
  `ValidateEvent`, a pure function that returns a `Result`. The exceptions it
  can raise are the `Failure` datatype.
- `Batch`: `process_events` is the method `ProcessEvents`. Its loop appends
  one outcome per payload to a growing sequence.
- `Scenarios`: the sample payloads used by the repository's tests, and the
  verdicts the model gives them.

A payload is a `map<string, Value>` with `Value = VStr | VInt | VBool | VNull`.
A validated `Record` carries its `event_type` and one entry per declared field,
in schema order.

Behaviour of the code that the model keeps:

- `process_events` catches only `ValueError` and `ValidationError`. A tag that
  is truthy but not a string (such as `5` or `True`) makes `getattr` raise
  `TypeError`, and that escapes `process_events`. In the model,
  `ValidateEvent` returns `TypeError`, and `ProcessEvents` ends with `Raised`
  instead of a list.
- The code reports a registered but empty schema as unknown (`if not schema`).
  The model keeps this check. It never fires for the two registered schemas.
- The generated model inherits `event_type: str`, so `Validate` also checks
  that field. This matters when the validator is called directly.
- pydantic reports every rejected field in one `ValidationError`, so
  `Validate` collects all the issues instead of stopping at the first.

## Model

| member | source | states |
|---|---|---|
| `Schemas.DropDunder` | validator.py:27-28 | The accessor keeps every attribute whose name does not start with `__`, with its value unchanged, and drops every name that does. |
| `Schemas.Lookup` | validator.py:41 | The `getattr` lookup finds a schema exactly when the tag is a key of the accessor's registry, and then returns that registry entry. |
| `Schemas.RegistryIsFixed` | validator.py:6-28 | The registry has exactly the two names `VmwareDiskExtend` and `VmwareSnapshot`, each mapped to its declared field table. |
| `Schemas.RegistryWellFormed` | validator.py:6-25 | Every registered schema is non-empty and well formed: field names are unique, none redeclares `event_type`, and every default has its field's type. |
| `Validator.CheckField` | validator.py:51-53 | One field is accepted exactly when it is present with a value of the declared type, or absent and optional. An accepted present value is the payload's value. An accepted absent field takes its default. A rejection names the field. It is "missing" exactly when the field is absent, and otherwise it is a wrong-type issue carrying the declared type. |
| `Validator.CheckFields` | validator.py:51-53 | All fields are checked independently. The result is success exactly when every field is accepted, with entries in field order. Otherwise the issues are non-empty and are exactly the issues of the rejected fields. |
| `Validator.Validate` | validator.py:50-53 | On success, the record's `event_type` is the payload's string tag and there is one entry per schema field, in order. A present field keeps the payload's value and an absent one gets its declared default. A failure carries at least one issue. It carries the issue of every rejected schema field, and every issue comes from `event_type` or from a schema field. |
| `Validator.ValidateSucceedsIff` | validator.py:50-53 | Validation succeeds if and only if `event_type` is a string and the payload conforms: every required field is present and every present declared field has its type. |
| `Validator.MissingRequiredReported` | validator.py:51-53 | A required field absent from the payload makes validation fail with a "missing" issue for that field. |
| `Validator.WrongTypeReported` | validator.py:51-53 | A present field whose value is not of its declared type makes validation fail with a wrong-type issue for that field and type. |
| `Validator.IssueLinesNameFields` | validator.py:63-64 | Every rejected field's name occurs in the rendered blocks of the validation error. |
| `Validator.RenderNamesField` | validator.py:63-64 | The text of a validation error names every rejected field. |
| `Validator.ValidateEvent` | validator.py:36-45 | The result is "Missing event_type in event data" exactly when the tag is absent or falsy. It is a `TypeError` exactly when the tag is truthy but not a string. A non-empty string tag gets "Unknown event type: " plus the tag verbatim exactly when the tag is not registered. Otherwise the result is the validator's result on the tag's schema. A record's `event_type` is a registered tag equal to the payload's. |
| `Validator.AcceptsConforming` | validator.py:45 | A registered tag with a conforming payload validates, and the record's `event_type` equals the tag. |
| `Validator.MissingFieldNamedInMessage` | validator.py:51-53 | For a registered tag, a payload that lacks a required field fails with a `ValidationError` whose text contains that field's name. |
| `Validator.WrongTypeNamedInMessage` | validator.py:51-53 | For a registered tag, a payload with a declared field of the wrong type fails with a `ValidationError` whose text contains that field's name. |
| `Validator.RegistryDefaultsAreNone` | validator.py:10-17 | Every optional field of a registered schema has the default `None`. |
| `Validator.AbsentOptionalIsNone` | validator.py:10-17 | An accepted payload that lacks an optional field gets `None` for it in the record. |
| `Validator.RevalidateIsIdentity` | validator.py:50-53 | Validating a produced record again, as a payload with its `event_type`, against the same well-formed schema gives the same record. |
| `Batch.ProcessEvents` | validator.py:57-68 | If no payload's failure escapes, the result is a list of the same length and order as the input. Outcome `i` is `Success(record)` when `validate_event(payload_i)` succeeds, and otherwise `Error` carrying the failure's text. So each outcome depends on its own payload alone. If a failure escapes, the call raises the first such failure, and every earlier payload was handled. |
| `Scenarios.DiskExtendAccepted` | test_events.py:37-40 | The full `VmwareDiskExtend` sample validates with `event_type == "VmwareDiskExtend"`, and its empty-string `token` is kept as it is. |
| `Scenarios.SnapshotAccepted` | test_events.py:42-44 | The `VmwareSnapshot` sample validates with `event_type == "VmwareSnapshot"`. |
| `Scenarios.UnknownTypeRejected` | test_events.py:47-50 | The `GcpExtendDisk` sample fails with exactly "Unknown event type: GcpExtendDisk". |
| `Scenarios.IncompleteSnapshotRejected` | test_events.py:52-54 | The snapshot sample without `description` fails with a `ValidationError` whose text contains "description". |
| `Scenarios.SampleVerdicts` | test_events.py:65-71 | Position by position, the four batch samples get the verdicts above, and none of them escapes. |
| `Scenarios.SampleBatch` | test_events.py:72-78 | The batch over the four samples completes with four outcomes: success, success, error, error. |

## Left out

- Coercion: pydantic's lax conversions, such as `"123"` to `int` or `True` to `int`, are not modelled. `Matches` is a strict check of the value's kind against the declared type.
- Message text: pydantic's exact `ValidationError` text is library behaviour. `RenderIssues` is a stand-in that only promises to name every rejected field. It has no error count and no error-type codes.
- Extra fields: undeclared payload keys are ignored. This is pydantic's default configuration, taken as an assumption.
- Dynamic model classes: `create_model` builds a class on every call. The model interprets the field table directly instead.
- `getattr` on other attributes: `getattr` could also find non-schema attributes of the `EventSchemas` object. The model looks names up only among the schema attributes.
- Redeclared `event_type`: a schema that redeclares `event_type` would override the inherited field in pydantic. The model checks both instead. The well-formedness predicate excludes this case, and neither registered schema has it.
- Non-string keys and non-dict items: a payload with non-string keys would raise `TypeError` in `**event_data`, and a list item that is not a dict would raise `AttributeError` at `.get`. Both escape `process_events`. Here payloads are maps with string keys by type, so neither case arises.
- Other value kinds: floats, lists and other Python values are not in `Value`. The model has strings, integers, booleans and `None`.
- Demo code: the module-level example list and its `print` loop (validator.py:72-107) are demo I/O.
- Test harness: test_events.py is used only as the source of the expected verdicts in `Scenarios`.
