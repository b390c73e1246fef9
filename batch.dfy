/** The batch driver `process_events` of validator.py. */
module Batch {
  import opened Wrappers
  import opened Schemas
  import opened Validator

  /** One entry of the result list: `{"status": "success", ...}` or `{"status": "error", ...}`. */
  datatype Outcome = Success(event: Record) | Error(message: string)

  /**
   * How a call of `process_events` ends: it returns its list, or an
   * exception it does not catch propagates out of it.
   */
  datatype BatchResult = Completed(outcomes: seq<Outcome>) | Raised(error: Failure)

  /** Whether a failure of `validate_event` is outside the two caught exception kinds. */
  predicate Escapes(r: Result<Record, Failure>)
  {
    r.Err? && r.error.TypeError?
  }

  /** The outcome the loop appends for one call of `validate_event`. */
  function OutcomeOf(r: Result<Record, Failure>): Outcome
    requires !Escapes(r)
  {
    match r
    case Ok(record) => Success(record)
    case Err(failure) => Error(Message(failure))
  }

  /**
   * `process_events`: one outcome per payload, in input order, each one
   * determined by its own payload alone; a payload whose failure is not a
   * `ValueError` or `ValidationError` ends the call with that failure.
   */
  method ProcessEvents(payloads: seq<Payload>) returns (b: BatchResult)
    ensures b.Completed? <==> forall i :: 0 <= i < |payloads| ==> !Escapes(ValidateEvent(payloads[i]))
    ensures b.Completed? ==>
      |b.outcomes| == |payloads| &&
      forall i :: 0 <= i < |payloads| ==> b.outcomes[i] == OutcomeOf(ValidateEvent(payloads[i]))
    ensures b.Raised? ==>
      b.error.TypeError? &&
      exists k :: 0 <= k < |payloads| && ValidateEvent(payloads[k]) == Err(b.error) &&
        forall j :: 0 <= j < k ==> !Escapes(ValidateEvent(payloads[j]))
  {
    var results: seq<Outcome> := [];
    var i := 0;
    while i < |payloads|
      invariant 0 <= i <= |payloads|
      invariant |results| == i
      invariant forall j :: 0 <= j < i ==>
        !Escapes(ValidateEvent(payloads[j])) && results[j] == OutcomeOf(ValidateEvent(payloads[j]))
    {
      var validated := ValidateEvent(payloads[i]);
      match validated {
        case Ok(record) =>
          results := results + [Success(record)];
        case Err(ValidationError(issues)) =>
          results := results + [Error(Message(validated.error))];
        case Err(ValueError(msg)) =>
          results := results + [Error(msg)];
        case Err(TypeError(_)) =>
          return Raised(validated.error);
      }
      i := i + 1;
    }
    return Completed(results);
  }
}
