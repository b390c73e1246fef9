/**
 * The schema registry: the payload value domain, the field descriptors
 * and the fixed table from event-type name to field list
 * (the `EventSchemas` model of validator.py).
 */
module Schemas {
  import opened Wrappers

  /** An untyped payload value, as it arrives in an event dictionary. */
  datatype Value = VStr(s: string) | VInt(i: int) | VBool(b: bool) | VNull

  /** The declared type of a field: `str`, `int` or `Optional[T]`. */
  datatype TypeTag = TStr | TInt | TOpt(inner: TypeTag)

  /** A raw event payload: field name to untyped value. */
  type Payload = map<string, Value>

  /** Python truthiness of a payload value (`not v` is false). */
  predicate Truthy(v: Value)
  {
    match v
    case VStr(s) => s != ""
    case VInt(i) => i != 0
    case VBool(b) => b
    case VNull => false
  }

  /** Whether a value is accepted by a declared type (strict: no coercion). */
  predicate Matches(v: Value, t: TypeTag)
  {
    match t
    case TStr => v.VStr?
    case TInt => v.VInt?
    case TOpt(inner) => v.VNull? || Matches(v, inner)
  }

  /**
   * The second half of a field's `(type, ...)` pair: `...` marks a
   * required field, anything else is the default of an optional one.
   */
  datatype Presence = Required | Default(value: Value)

  datatype FieldSpec = FieldSpec(name: string, ty: TypeTag, presence: Presence)

  /** The fields declared for one event type, in declaration order. */
  type Schema = seq<FieldSpec>

  /** The field every event model inherits from its base class. */
  const EventTypeKey: string := "event_type"

  /**
   * What a schema has to satisfy for the record-level properties to hold:
   * unique names (the source writes schemas as dictionaries), no
   * redeclaration of the inherited `event_type`, and defaults that are
   * values of their field's type.
   */
  ghost predicate WellFormed(schema: Schema)
  {
    (forall i, j :: 0 <= i < j < |schema| ==> schema[i].name != schema[j].name) &&
    (forall i :: 0 <= i < |schema| ==> schema[i].name != EventTypeKey) &&
    (forall i :: 0 <= i < |schema| && schema[i].presence.Default? ==>
      Matches(schema[i].presence.value, schema[i].ty))
  }

  /** The `VmwareDiskExtend` field table. */
  const DiskExtendSchema: Schema := [
    FieldSpec("vcenter_name", TStr, Required),
    FieldSpec("target_vm_name", TOpt(TStr), Default(VNull)),
    FieldSpec("disk_size_gb", TOpt(TInt), Default(VNull)),
    FieldSpec("username", TOpt(TStr), Default(VNull)),
    FieldSpec("token", TOpt(TStr), Default(VNull)),
    FieldSpec("secret_namespace", TOpt(TStr), Default(VNull)),
    FieldSpec("secret_path", TOpt(TStr), Default(VNull)),
    FieldSpec("mark_disk_label", TOpt(TStr), Default(VNull)),
    FieldSpec("drive_letter", TOpt(TStr), Default(VNull))
  ]

  /** The `VmwareSnapshot` field table. */
  const SnapshotSchema: Schema := [
    FieldSpec("id", TInt, Required),
    FieldSpec("description", TStr, Required)
  ]

  /** The attributes of an `EventSchemas` instance: one per event type. */
  const Attributes: map<string, Schema> :=
    map["VmwareDiskExtend" := DiskExtendSchema, "VmwareSnapshot" := SnapshotSchema]

  /** Python's `k.startswith('__')`. */
  predicate IsDunder(k: string)
  {
    |k| >= 2 && k[0] == '_' && k[1] == '_'
  }

  /**
   * `EventSchemas.__call__`: the attribute dictionary with every name that
   * starts with `__` dropped and every other entry kept unchanged.
   */
  function DropDunder(attrs: map<string, Schema>): (r: map<string, Schema>)
    ensures r.Keys <= attrs.Keys
    ensures forall k :: k in attrs && IsDunder(k) ==> k !in r
    ensures forall k :: k in attrs && !IsDunder(k) ==> k in r && r[k] == attrs[k]
  {
    map k | k in attrs && !IsDunder(k) :: attrs[k]
  }

  /** The registry as the accessor exposes it. */
  function Registry(): map<string, Schema>
  {
    DropDunder(Attributes)
  }

  /**
   * `getattr(EventSchemas(), tag, None)` over the schema attributes: the
   * registered schema, or nothing for a name that is not registered.
   */
  function Lookup(tag: string): (r: Option<Schema>)
    ensures r.Some? <==> tag in Registry()
    ensures r.Some? ==> r.value == Registry()[tag]
  {
    RegistryIsFixed();
    if tag in Attributes then Some(Attributes[tag]) else None
  }

  /** The accessor exposes exactly the two declared event types. */
  lemma RegistryIsFixed()
    ensures Registry().Keys == {"VmwareDiskExtend", "VmwareSnapshot"}
    ensures Registry()["VmwareDiskExtend"] == DiskExtendSchema
    ensures Registry()["VmwareSnapshot"] == SnapshotSchema
  {
    assert !IsDunder("VmwareDiskExtend") && !IsDunder("VmwareSnapshot");
  }

  /** Every registered schema is well formed, and none of them is empty. */
  lemma RegistryWellFormed(tag: string)
    requires tag in Registry()
    ensures WellFormed(Registry()[tag]) && |Registry()[tag]| > 0
  {
    RegistryIsFixed();
  }
}
