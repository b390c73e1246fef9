/** The sample payloads of the repository's tests, and what the model makes of them. */
module Scenarios {
  import opened Wrappers
  import opened Schemas
  import opened Validator
  import opened Batch

  /** A complete `VmwareDiskExtend` event; three optional fields are empty strings. */
  const DiskExtendEvent: Payload := map[
    "event_type" := VStr("VmwareDiskExtend"),
    "vcenter_name" := VStr("v000VCS00012.Tamcentral.asp"),
    "target_vm_name" := VStr("VTAM002DATA01781.TAMCENTRAL_ASP"),
    "disk_size_gb" := VInt(60),
    "username" := VStr("tamcentrall\\gavi"),
    "token" := VStr(""),
    "secret_namespace" := VStr(""),
    "secret_path" := VStr(""),
    "mark_disk_label" := VStr("Hard disk 1"),
    "drive_letter" := VStr("C")
  ]

  const SnapshotEvent: Payload := map[
    "event_type" := VStr("VmwareSnapshot"),
    "id" := VInt(123),
    "description" := VStr("Sample description")
  ]

  /** An event type with no registered schema. */
  const UnknownTypeEvent: Payload := map[
    "event_type" := VStr("GcpExtendDisk"),
    "name" := VStr("Jane Doe")
  ]

  /** A `VmwareSnapshot` event without its required `description`. */
  const IncompleteSnapshotEvent: Payload := map[
    "event_type" := VStr("VmwareSnapshot"),
    "id" := VInt(123)
  ]

  lemma DiskExtendAccepted()
    ensures ValidateEvent(DiskExtendEvent).Ok?
    ensures ValidateEvent(DiskExtendEvent).value.eventType == "VmwareDiskExtend"
    ensures ValidateEvent(DiskExtendEvent).value.fields[4] == Entry("token", VStr(""))
  {
    RegistryIsFixed();
    // The required `vcenter_name` is a string, and every optional field is present and well typed.
    assert DiskExtendEvent["vcenter_name"].VStr? && DiskExtendEvent["disk_size_gb"].VInt?;
    forall i | 0 <= i < |DiskExtendSchema|
      ensures DiskExtendSchema[i].name in DiskExtendEvent
      ensures Matches(DiskExtendEvent[DiskExtendSchema[i].name], DiskExtendSchema[i].ty)
    {
    }
    AcceptsConforming(DiskExtendEvent, "VmwareDiskExtend");
  }

  lemma SnapshotAccepted()
    ensures ValidateEvent(SnapshotEvent).Ok?
    ensures ValidateEvent(SnapshotEvent).value.eventType == "VmwareSnapshot"
  {
    RegistryIsFixed();
    assert SnapshotSchema[0].name in SnapshotEvent && SnapshotSchema[1].name in SnapshotEvent;
    AcceptsConforming(SnapshotEvent, "VmwareSnapshot");
  }

  lemma UnknownTypeRejected()
    ensures ValidateEvent(UnknownTypeEvent) == Err(ValueError("Unknown event type: GcpExtendDisk"))
  {
    RegistryIsFixed();
    assert UnknownTypeEvent[EventTypeKey] == VStr("GcpExtendDisk");
    assert HasStringTag(UnknownTypeEvent) && "GcpExtendDisk" !in Registry();
    assert UnknownEventTypePrefix + "GcpExtendDisk" == "Unknown event type: GcpExtendDisk";
  }

  lemma IncompleteSnapshotRejected()
    ensures ValidateEvent(IncompleteSnapshotEvent).Err?
    ensures ValidateEvent(IncompleteSnapshotEvent).error.ValidationError?
    ensures Contains(Message(ValidateEvent(IncompleteSnapshotEvent).error), "description")
  {
    RegistryIsFixed();
    assert "description" !in IncompleteSnapshotEvent;
    MissingFieldNamedInMessage(IncompleteSnapshotEvent, "VmwareSnapshot", 1);
  }

  /** The four samples in the order the batch test lists them. */
  const Samples: seq<Payload> := [DiskExtendEvent, SnapshotEvent, UnknownTypeEvent, IncompleteSnapshotEvent]

  /** Verdict of `validate_event` on each sample, by position. */
  lemma SampleVerdicts()
    ensures |Samples| == 4
    ensures forall i :: 0 <= i < |Samples| ==> !Escapes(ValidateEvent(Samples[i]))
    ensures ValidateEvent(Samples[0]).Ok? && ValidateEvent(Samples[0]).value.eventType == "VmwareDiskExtend"
    ensures ValidateEvent(Samples[1]).Ok? && ValidateEvent(Samples[1]).value.eventType == "VmwareSnapshot"
    ensures ValidateEvent(Samples[2]) == Err(ValueError("Unknown event type: GcpExtendDisk"))
    ensures ValidateEvent(Samples[3]).Err? && ValidateEvent(Samples[3]).error.ValidationError?
    ensures Contains(Message(ValidateEvent(Samples[3]).error), "description")
  {
    DiskExtendAccepted();
    SnapshotAccepted();
    UnknownTypeRejected();
    IncompleteSnapshotRejected();
    forall i | 0 <= i < |Samples| ensures !Escapes(ValidateEvent(Samples[i])) {
      if i == 0 {
        assert Samples[i] == DiskExtendEvent;
      } else if i == 1 {
        assert Samples[i] == SnapshotEvent;
      } else if i == 2 {
        assert Samples[i] == UnknownTypeEvent;
      } else {
        assert Samples[i] == IncompleteSnapshotEvent;
      }
    }
  }

  /** `process_events` over the four samples: success, success, error, error. */
  method SampleBatch() returns (b: BatchResult)
    ensures b.Completed? && |b.outcomes| == 4
    ensures b.outcomes[0].Success? && b.outcomes[0].event.eventType == "VmwareDiskExtend"
    ensures b.outcomes[1].Success? && b.outcomes[1].event.eventType == "VmwareSnapshot"
    ensures b.outcomes[2] == Error("Unknown event type: GcpExtendDisk")
    ensures b.outcomes[3].Error? && Contains(b.outcomes[3].message, "description")
  {
    SampleVerdicts();
    b := ProcessEvents(Samples);
  }
}
