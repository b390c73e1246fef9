/**
 * Field validation (`EventValidator.validate`) and dispatch
 * (`EventModel.validate_event`) of validator.py, as a schema interpreter.
 */
module Validator {
  import opened Wrappers
  import opened Schemas

  /** Why one declared field was rejected. */
  datatype FieldIssue = Missing(field: string) | WrongType(field: string, expected: TypeTag)

  datatype Entry = Entry(name: string, value: Value)

  /** A validated event: its type tag and one entry per declared field, in schema order. */
  datatype Record = Record(eventType: string, fields: seq<Entry>)

  /** The field every generated model inherits from `EventModel`. */
  const EventTypeField: FieldSpec := FieldSpec(EventTypeKey, TStr, Required)

  /**
   * One field of the generated model: a present value must be of the
   * declared type and is kept as it is; an absent required field is
   * missing; an absent optional field takes its default.
   */
  function CheckField(payload: Payload, f: FieldSpec): (r: Result<Value, FieldIssue>)
    ensures r.Ok? ==>
      (f.name in payload && r.value == payload[f.name] && Matches(r.value, f.ty)) ||
      (f.name !in payload && f.presence == Default(r.value))
    ensures r.Ok? <==> (if f.name in payload then Matches(payload[f.name], f.ty) else f.presence.Default?)
    ensures r.Err? ==> r.error.field == f.name && (r.error.Missing? <==> f.name !in payload)
    ensures r.Err? && r.error.WrongType? ==> r.error.expected == f.ty
  {
    if f.name in payload then
      if Matches(payload[f.name], f.ty) then Ok(payload[f.name]) else Err(WrongType(f.name, f.ty))
    else
      match f.presence
      case Required => Err(Missing(f.name))
      case Default(v) => Ok(v)
  }

  /**
   * All fields of a model, checked independently: the entries when every
   * field is accepted, otherwise the issues of exactly the rejected fields.
   */
  function CheckFields(payload: Payload, fields: seq<FieldSpec>): (r: Result<seq<Entry>, seq<FieldIssue>>)
    ensures r.Ok? <==> forall i :: 0 <= i < |fields| ==> CheckField(payload, fields[i]).Ok?
    ensures r.Ok? ==>
      |r.value| == |fields| &&
      forall i :: 0 <= i < |fields| ==>
        r.value[i] == Entry(fields[i].name, CheckField(payload, fields[i]).value)
    ensures r.Err? ==> |r.error| > 0
    ensures r.Err? ==> forall i :: 0 <= i < |fields| && CheckField(payload, fields[i]).Err? ==>
      CheckField(payload, fields[i]).error in r.error
    ensures r.Err? ==> forall e :: e in r.error ==>
      exists i :: 0 <= i < |fields| && CheckField(payload, fields[i]) == Err(e)
  {
    if fields == [] then Ok([])
    else
      var head := CheckField(payload, fields[0]);
      var rest := CheckFields(payload, fields[1..]);
      assert forall i :: 1 <= i < |fields| ==> fields[i] == fields[1..][i - 1];
      match (head, rest)
      case (Ok(v), Ok(es)) => Ok([Entry(fields[0].name, v)] + es)
      case (Ok(_), Err(issues)) => Err(issues)
      case (Err(e), Ok(_)) => Err([e])
      case (Err(e), Err(issues)) => Err([e] + issues)
  }

  /**
   * `EventValidator.validate`: the generated model checks the inherited
   * `event_type: str` and then the schema's fields. On success the record
   * carries the payload's tag and, per declared field, the payload's value
   * or the field's default; undeclared payload keys are ignored.
   */
  function Validate(payload: Payload, schema: Schema): (r: Result<Record, seq<FieldIssue>>)
    ensures r.Ok? ==> EventTypeKey in payload && payload[EventTypeKey] == VStr(r.value.eventType)
    ensures r.Ok? ==>
      |r.value.fields| == |schema| &&
      forall i :: 0 <= i < |schema| ==>
        r.value.fields[i].name == schema[i].name &&
        (schema[i].name in payload ==> r.value.fields[i].value == payload[schema[i].name]) &&
        (schema[i].name !in payload ==> schema[i].presence == Default(r.value.fields[i].value))
    ensures r.Err? ==> |r.error| > 0
    ensures r.Err? ==> forall i :: 0 <= i < |schema| && CheckField(payload, schema[i]).Err? ==>
      CheckField(payload, schema[i]).error in r.error
    ensures r.Err? ==> forall e :: e in r.error ==>
      CheckField(payload, EventTypeField) == Err(e) ||
      exists i :: 0 <= i < |schema| && CheckField(payload, schema[i]) == Err(e)
  {
    var fields := [EventTypeField] + schema;
    assert forall i :: 0 <= i < |schema| ==> fields[i + 1] == schema[i];
    match CheckFields(payload, fields)
    case Ok(entries) =>
      assert fields[0] == EventTypeField;
      assert forall i :: 0 <= i < |schema| ==> fields[i + 1] == schema[i];
      Ok(Record(entries[0].value.s, entries[1..]))
    case Err(issues) => Err(issues)
  }

  /** The payload satisfies a schema: required fields present, present fields well typed. */
  ghost predicate Conforms(payload: Payload, schema: Schema)
  {
    forall i :: 0 <= i < |schema| ==>
      (schema[i].name in payload ==> Matches(payload[schema[i].name], schema[i].ty)) &&
      (schema[i].presence.Required? ==> schema[i].name in payload)
  }

  /** Validation succeeds exactly for a string tag plus a conforming payload. */
  lemma {:induction false} ValidateSucceedsIff(payload: Payload, schema: Schema)
    ensures Validate(payload, schema).Ok? <==>
      EventTypeKey in payload && payload[EventTypeKey].VStr? && Conforms(payload, schema)
  {
    var fields := [EventTypeField] + schema;
    assert forall i :: 0 <= i < |schema| ==> fields[i + 1] == schema[i];
    assert fields[0] == EventTypeField;
    if Validate(payload, schema).Ok? {
      forall i | 0 <= i < |schema|
        ensures (schema[i].name in payload ==> Matches(payload[schema[i].name], schema[i].ty)) &&
                (schema[i].presence.Required? ==> schema[i].name in payload)
      {
        assert CheckField(payload, fields[i + 1]).Ok?;
      }
    }
  }

  /** A required field absent from the payload is reported as missing, by name. */
  lemma {:induction false} MissingRequiredReported(payload: Payload, schema: Schema, k: nat)
    requires k < |schema| && schema[k].presence.Required? && schema[k].name !in payload
    ensures Validate(payload, schema).Err?
    ensures Missing(schema[k].name) in Validate(payload, schema).error
  {
    var fields := [EventTypeField] + schema;
    assert fields[k + 1] == schema[k];
    assert CheckField(payload, fields[k + 1]) == Err(Missing(schema[k].name));
  }
  /** A present field whose value is not of its declared type is reported as such, by name. */
  lemma WrongTypeReported(payload: Payload, schema: Schema, k: nat)
    requires k < |schema| && schema[k].name in payload && !Matches(payload[schema[k].name], schema[k].ty)
    ensures Validate(payload, schema).Err?
    ensures WrongType(schema[k].name, schema[k].ty) in Validate(payload, schema).error
  {
    ValidateSucceedsIff(payload, schema);
    assert CheckField(payload, schema[k]) == Err(WrongType(schema[k].name, schema[k].ty));
  }


  // ---------------------------------------------------------------- messages

  /** `sub` occurs somewhere in `s`. */
  ghost predicate Contains(s: string, sub: string)
  {
    exists i :: 0 <= i <= |s| && sub <= s[i..]
  }

  lemma ContainsInFront(a: string, sub: string, b: string)
    ensures Contains(a + sub + b, sub)
  {
    var s := a + sub + b;
    assert s[|a|..] == sub + b;
  }

  lemma ContainsAfter(a: string, s: string, sub: string)
    requires Contains(s, sub)
    ensures Contains(a + s, sub)
  {
    var i :| 0 <= i <= |s| && sub <= s[i..];
    assert (a + s)[|a| + i..] == s[i..];
  }

  /** The text pydantic would use for a type, in an "Input should be a valid ..." line. */
  function TypeText(t: TypeTag): string
  {
    match t
    case TStr => "string"
    case TInt => "integer"
    case TOpt(inner) => TypeText(inner)
  }

  /** What pydantic says about a rejected field, after the field's name. */
  function IssueDetail(issue: FieldIssue): string
  {
    match issue
    case Missing(_) => "\n  Field required"
    case WrongType(_, t) => "\n  Input should be a valid " + TypeText(t)
  }

  function IssueLines(issues: seq<FieldIssue>): string
  {
    if issues == [] then ""
    else "\n" + issues[0].field + IssueDetail(issues[0]) + IssueLines(issues[1..])
  }

  /** `str(e)` of a validation error: a header, then one block per rejected field. */
  function RenderIssues(issues: seq<FieldIssue>): string
  {
    "validation error for DynamicEventModel" + IssueLines(issues)
  }

  /** Every rejected field is named in the rendered issue blocks. */
  lemma {:induction false} IssueLinesNameFields(issues: seq<FieldIssue>, k: nat)
    requires k < |issues|
    ensures Contains(IssueLines(issues), issues[k].field)
  {
    var field, tail := issues[0].field, IssueDetail(issues[0]) + IssueLines(issues[1..]);
    assert IssueLines(issues) == "\n" + field + tail;
    if k == 0 {
      ContainsInFront("\n", field, tail);
    } else {
      IssueLinesNameFields(issues[1..], k - 1);
      ContainsAfter("\n" + field + IssueDetail(issues[0]), IssueLines(issues[1..]), issues[k].field);
    }
  }

  lemma RenderNamesField(issues: seq<FieldIssue>, k: nat)
    requires k < |issues|
    ensures Contains(RenderIssues(issues), issues[k].field)
  {
    IssueLinesNameFields(issues, k);
    ContainsAfter("validation error for DynamicEventModel", IssueLines(issues), issues[k].field);
  }

  // ---------------------------------------------------------------- dispatch

  /**
   * What `validate_event` raises: the two `ValueError`s of dispatch, the
   * `ValidationError` of the generated model, and the `TypeError` that
   * `getattr` raises for a tag that is truthy but not a string.
   */
  datatype Failure =
    | ValueError(msg: string)
    | ValidationError(issues: seq<FieldIssue>)
    | TypeError(msg: string)

  const MissingEventTypeMsg: string := "Missing event_type in event data"
  const UnknownEventTypePrefix: string := "Unknown event type: "

  /** Python's name for the runtime type of a value. */
  function PyTypeName(v: Value): string
  {
    match v
    case VStr(_) => "str"
    case VInt(_) => "int"
    case VBool(_) => "bool"
    case VNull => "NoneType"
  }

  /** `str(e)` of a failure. */
  function Message(f: Failure): string
  {
    match f
    case ValueError(msg) => msg
    case ValidationError(issues) => RenderIssues(issues)
    case TypeError(msg) => msg
  }

  /** `event_data.get("event_type")` is missing or falsy. */
  predicate TagMissing(payload: Payload)
  {
    EventTypeKey !in payload || !Truthy(payload[EventTypeKey])
  }

  /** The payload carries a non-empty string tag. */
  predicate HasStringTag(payload: Payload)
  {
    EventTypeKey in payload && payload[EventTypeKey].VStr? && payload[EventTypeKey].s != ""
  }

  /**
   * `EventModel.validate_event`: a missing or falsy tag is rejected before
   * any lookup; a tag without a (non-empty) registered schema is unknown;
   * otherwise the payload is validated against the tag's schema.
   */
  function ValidateEvent(payload: Payload): (r: Result<Record, Failure>)
    ensures TagMissing(payload) <==> r == Err(ValueError(MissingEventTypeMsg))
    ensures r.Err? && r.error.TypeError? <==> !TagMissing(payload) && !payload[EventTypeKey].VStr?
    ensures HasStringTag(payload) ==>
      (payload[EventTypeKey].s !in Registry() <==>
       r == Err(ValueError(UnknownEventTypePrefix + payload[EventTypeKey].s)))
    ensures HasStringTag(payload) && payload[EventTypeKey].s in Registry() ==>
      match Validate(payload, Registry()[payload[EventTypeKey].s])
      case Ok(record) => r == Ok(record)
      case Err(issues) => r == Err(ValidationError(issues))
    ensures r.Ok? ==> r.value.eventType in Registry() && payload[EventTypeKey] == VStr(r.value.eventType)
  {
    if TagMissing(payload) then Err(ValueError(MissingEventTypeMsg))
    else match payload[EventTypeKey]
      case VStr(tag) =>
        var schema := Lookup(tag);
        if schema.None? || |schema.value| == 0 then
          assert (UnknownEventTypePrefix + tag)[0] != MissingEventTypeMsg[0];
          Err(ValueError(UnknownEventTypePrefix + tag))
        else
          RegistryWellFormed(tag);
          (match Validate(payload, schema.value)
           case Ok(record) => Ok(record)
           case Err(issues) => Err(ValidationError(issues)))
      case other =>
        Err(TypeError("attribute name must be string, not '" + PyTypeName(other) + "'"))
  }

  /** A registered tag with a conforming payload yields a record that carries the tag. */
  lemma AcceptsConforming(payload: Payload, tag: string)
    requires EventTypeKey in payload && payload[EventTypeKey] == VStr(tag)
    requires tag in Registry() && Conforms(payload, Registry()[tag])
    ensures ValidateEvent(payload).Ok? && ValidateEvent(payload).value.eventType == tag
  {
    ValidateSucceedsIff(payload, Registry()[tag]);
  }

  /**
   * A registered tag whose schema requires a field the payload lacks fails
   * with a validation error whose text names that field.
   */
  lemma MissingFieldNamedInMessage(payload: Payload, tag: string, k: nat)
    requires EventTypeKey in payload && payload[EventTypeKey] == VStr(tag)
    requires tag in Registry() && k < |Registry()[tag]|
    requires Registry()[tag][k].presence.Required? && Registry()[tag][k].name !in payload
    ensures ValidateEvent(payload).Err? && ValidateEvent(payload).error.ValidationError?
    ensures Contains(Message(ValidateEvent(payload).error), Registry()[tag][k].name)
  {
    var schema := Registry()[tag];
    MissingRequiredReported(payload, schema, k);
    var issues := Validate(payload, schema).error;
    var j :| 0 <= j < |issues| && issues[j] == Missing(schema[k].name);
    RenderNamesField(issues, j);
  }
  /**
   * A registered tag whose schema gives a present field a type its value
   * does not have fails with a validation error whose text names that field.
   */
  lemma WrongTypeNamedInMessage(payload: Payload, tag: string, k: nat)
    requires EventTypeKey in payload && payload[EventTypeKey] == VStr(tag)
    requires tag in Registry() && k < |Registry()[tag]|
    requires Registry()[tag][k].name in payload
    requires !Matches(payload[Registry()[tag][k].name], Registry()[tag][k].ty)
    ensures ValidateEvent(payload).Err? && ValidateEvent(payload).error.ValidationError?
    ensures Contains(Message(ValidateEvent(payload).error), Registry()[tag][k].name)
  {
    var schema := Registry()[tag];
    WrongTypeReported(payload, schema, k);
    var issues := Validate(payload, schema).error;
    var j :| 0 <= j < |issues| && issues[j] == WrongType(schema[k].name, schema[k].ty);
    RenderNamesField(issues, j);
  }


  /** Every optional field of a registered schema has the default `None`. */
  lemma RegistryDefaultsAreNone(tag: string, k: nat)
    requires tag in Registry() && k < |Registry()[tag]| && Registry()[tag][k].presence.Default?
    ensures Registry()[tag][k].presence.value == VNull
  {
    RegistryIsFixed();
  }

  /** An accepted payload that lacks an optional field gets `None` for it in the record. */
  lemma AbsentOptionalIsNone(payload: Payload, k: nat)
    requires ValidateEvent(payload).Ok?
    requires k < |ValidateEvent(payload).value.fields|
    requires ValidateEvent(payload).value.fields[k].name !in payload
    ensures ValidateEvent(payload).value.fields[k].value == VNull
  {
    var record := ValidateEvent(payload).value;
    var schema := Registry()[record.eventType];
    assert Validate(payload, schema) == Ok(record);
    assert schema[k].presence == Default(record.fields[k].value);
    RegistryDefaultsAreNone(record.eventType, k);
  }

  // ------------------------------------------------------------ idempotence

  /** The dictionary view of a record's entries (the first entry of a name wins). */
  function FieldMap(entries: seq<Entry>): map<string, Value>
  {
    if entries == [] then map[] else FieldMap(entries[1..])[entries[0].name := entries[0].value]
  }

  /** A record's fields as a payload again, with its `event_type`. */
  function RecordPayload(record: Record): Payload
  {
    FieldMap(record.fields)[EventTypeKey := VStr(record.eventType)]
  }

  lemma {:induction false} FieldMapAt(entries: seq<Entry>, k: nat)
    requires forall i, j :: 0 <= i < j < |entries| ==> entries[i].name != entries[j].name
    requires k < |entries|
    ensures entries[k].name in FieldMap(entries) && FieldMap(entries)[entries[k].name] == entries[k].value
  {
    if k > 0 {
      FieldMapAt(entries[1..], k - 1);
      assert entries[1..][k - 1] == entries[k];
    }
  }

  /**
   * Re-validating a produced record, turned back into a payload, against
   * the same well-formed schema succeeds with the same record.
   */
  lemma {:induction false} RevalidateIsIdentity(payload: Payload, schema: Schema)
    requires WellFormed(schema) && Validate(payload, schema).Ok?
    ensures Validate(RecordPayload(Validate(payload, schema).value), schema) == Validate(payload, schema)
  {
    var record := Validate(payload, schema).value;
    var again := RecordPayload(record);
    ValidateSucceedsIff(payload, schema);
    forall i | 0 <= i < |schema|
      ensures schema[i].name in again && again[schema[i].name] == record.fields[i].value
      ensures Matches(record.fields[i].value, schema[i].ty)
    {
      FieldMapAt(record.fields, i);
      assert schema[i].name != EventTypeKey;
    }
    ValidateSucceedsIff(again, schema);
    var record2 := Validate(again, schema).value;
    assert record2.fields == record.fields;
  }
}
