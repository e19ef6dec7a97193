/**
  The AMQP transport of the user service: handle turns a delivery of a user
  event into a Temporal workflow start, and withLog wraps it, skips
  deliveries of the wrong content type and folds the handler's sentinel
  errors into the answer given to the broker.

  The two sentinel errors and nil are the values of Outcome. What
  json.Unmarshal makes of a body is an input (Body), and so is the failure
  of a workflow start. The workflow service records every call made to it.
 */
module UserIntegrationEvent {
  import opened Base
  import opened Uuids

  /**
    What a handler returns: nil (the broker is told to requeue), the
    errProcessed or errUnhandledDelivery sentinel, any other error, or a
    panic instead of a return.
   */
  datatype Outcome = NilError | Processed | UnhandledDelivery | OtherError(message: string) | Panic

  /** The updated_fields and removed_fields objects of a UserUpdated payload. */
  datatype UpdatedFields = UpdatedFields(status: Option<int>, email: Option<string>, telegram: Option<string>)
  datatype RemovedFields = RemovedFields(email: Option<bool>, telegram: Option<bool>)

  /** The UserUpdated and UserDeleted payload structs. */
  datatype UserUpdatedPayload = UserUpdatedPayload(userId: string, updatedAt: int, updatedFields: Option<UpdatedFields>,
                                                   removedFields: Option<RemovedFields>)
  datatype UserDeletedPayload = UserDeletedPayload(userId: string, hard: bool)

  /** What json.Unmarshal of the body gives for each payload struct; None when it fails. */
  datatype Body = Body(asUpdated: Option<UserUpdatedPayload>, asDeleted: Option<UserDeletedPayload>)

  datatype Delivery = Delivery(eventType: string, contentType: string, correlationId: string, body: Body)

  /** The UserUpdated domain event handed to the workflow; the time is in whole seconds, as time.Unix(s, 0) makes it. */
  datatype UserUpdatedEvent = UserUpdatedEvent(userId: Uuid, updatedAtSeconds: int, updatedFields: Option<UpdatedFields>,
                                               removedFields: Option<RemovedFields>)

  datatype WorkflowCall =
    | RunUserUpdatedWorkflow(workflowId: string, event: UserUpdatedEvent)
    | RunUserDeletedWorkflow(workflowId: string, userId: string)

  /** The ContentType constant and the Type() tags of the UserUpdated and UserDeleted events. */
  datatype Config = Config(contentType: string, userUpdatedType: string, userDeletedType: string)

  const DeletedWorkflowSuffix: string := "_del"

  /** The outcome of handle, and the workflow call it made, if any. */
  datatype Handling = Handling(outcome: Outcome, call: Option<WorkflowCall>)

  function Calls(h: Handling): (calls: seq<WorkflowCall>)
    ensures |calls| <= 1
  {
    if h.call.Some? then [h.call.value] else []
  }

  /** The domain event built from a payload, or None when uuid.MustParse would panic on its user id. */
  function ToDomainEvent(p: UserUpdatedPayload): (e: Option<UserUpdatedEvent>)
    ensures e.Some? <==> Parse(p.userId).Some?
    ensures e.Some? ==>
      && Parse(p.userId) == Some(e.value.userId)
      && e.value.updatedAtSeconds == p.updatedAt
      && e.value.updatedFields == p.updatedFields
      && e.value.removedFields == p.removedFields
    ensures e.Some? ==> String(e.value.userId) == p.userId
  {
    match Parse(p.userId)
    case None => None
    case Some(id) =>
      StringOfParse(p.userId);
      Some(UserUpdatedEvent(id, p.updatedAt, p.updatedFields, p.removedFields))
  }

  /** handle, given whether the workflow start it would make fails. */
  function Handle(config: Config, d: Delivery, startFault: Option<string>): (h: Handling)
    ensures d.eventType != config.userUpdatedType && d.eventType != config.userDeletedType ==>
      h == Handling(UnhandledDelivery, None)
    ensures h.outcome == UnhandledDelivery <==> d.eventType != config.userUpdatedType && d.eventType != config.userDeletedType
    ensures !h.outcome.OtherError?
    ensures h.call.Some? && h.call.value.RunUserUpdatedWorkflow? ==>
      d.eventType == config.userUpdatedType && h.call.value.workflowId == d.correlationId
      && d.body.asUpdated.Some? && ToDomainEvent(d.body.asUpdated.value) == Some(h.call.value.event)
    ensures h.call.Some? && h.call.value.RunUserDeletedWorkflow? ==>
      d.eventType == config.userDeletedType && d.eventType != config.userUpdatedType
      && h.call.value.workflowId == d.correlationId + DeletedWorkflowSuffix
      && d.body.asDeleted == Some(UserDeletedPayload(h.call.value.userId, false))
    ensures h.call.Some? ==> h.outcome == if startFault.None? then Processed else NilError
    ensures d.eventType == config.userUpdatedType && d.body.asUpdated.Some? && ToDomainEvent(d.body.asUpdated.value).Some? ==>
      h.call == Some(RunUserUpdatedWorkflow(d.correlationId, ToDomainEvent(d.body.asUpdated.value).value))
    ensures d.eventType != config.userUpdatedType && d.eventType == config.userDeletedType
            && d.body.asDeleted.Some? && !d.body.asDeleted.value.hard ==>
      h.call == Some(RunUserDeletedWorkflow(d.correlationId + DeletedWorkflowSuffix, d.body.asDeleted.value.userId))
    ensures d.eventType != config.userUpdatedType && d.eventType == config.userDeletedType
            && d.body.asDeleted.Some? && d.body.asDeleted.value.hard ==>
      h == Handling(Processed, None)
    ensures (d.eventType == config.userUpdatedType && d.body.asUpdated.None?)
            || (d.eventType != config.userUpdatedType && d.eventType == config.userDeletedType && d.body.asDeleted.None?) ==>
      h == Handling(NilError, None)
    ensures h.outcome == Panic <==>
      d.eventType == config.userUpdatedType && d.body.asUpdated.Some? && ToDomainEvent(d.body.asUpdated.value).None?
    ensures h.outcome == Panic ==> h.call.None?
  {
    if d.eventType == config.userUpdatedType then
      match d.body.asUpdated
      case None => Handling(NilError, None)
      case Some(payload) =>
        match ToDomainEvent(payload)
        case None => Handling(Panic, None)
        case Some(event) =>
          Handling(if startFault.Some? then NilError else Processed, Some(RunUserUpdatedWorkflow(d.correlationId, event)))
    else if d.eventType == config.userDeletedType then
      match d.body.asDeleted
      case None => Handling(NilError, None)
      case Some(payload) =>
        if payload.hard then Handling(Processed, None)
        else
          Handling(if startFault.Some? then NilError else Processed,
                   Some(RunUserDeletedWorkflow(d.correlationId + DeletedWorkflowSuffix, payload.userId)))
    else Handling(UnhandledDelivery, None)
  }

  /** What withLog answers for a handler outcome: errUnhandledDelivery becomes errProcessed, everything else passes through. */
  function Classify(outcome: Outcome): (r: Outcome)
    ensures r != UnhandledDelivery
    ensures outcome != UnhandledDelivery ==> r == outcome
  {
    if outcome == UnhandledDelivery then Processed else outcome
  }

  /** withLog(handle): a delivery of another content type is errProcessed and handle is not called. */
  function Serve(config: Config, d: Delivery, startFault: Option<string>): (h: Handling)
    ensures d.contentType != config.contentType ==> h == Handling(Processed, None)
    ensures d.contentType == config.contentType ==>
      h == Handling(Classify(Handle(config, d, startFault).outcome), Handle(config, d, startFault).call)
  {
    if d.contentType != config.contentType then Handling(Processed, None)
    else
      var h := Handle(config, d, startFault);
      Handling(Classify(h.outcome), h.call)
  }

  /** The status label of the event-duration metric, read from the named result when the wrapper returns or panics. */
  function MetricStatus(outcome: Outcome): (status: string)
    ensures status == "error" <==> outcome.OtherError?
    ensures status != "error" ==> status == "success"
  {
    if outcome.OtherError? then "error" else "success"
  }

  class WorkflowService {
    /** Every workflow start asked for, in call order. */
    var calls: seq<WorkflowCall>

    constructor ()
      ensures calls == []
    {
      calls := [];
    }

    /** Starts a workflow; a failure to start it is an input, and the call is recorded either way. */
    method Run(call: WorkflowCall, fault: Option<string>) returns (err: Option<string>)
      modifies this
      ensures err == fault
      ensures calls == old(calls) + [call]
    {
      calls := calls + [call];
      err := fault;
    }
  }

  class AmqpTransport {
    const config: Config
    const workflowService: WorkflowService

    constructor (config: Config, workflowService: WorkflowService)
      ensures this.config == config && this.workflowService == workflowService
    {
      this.config := config;
      this.workflowService := workflowService;
    }

    method HandleDelivery(d: Delivery, startFault: Option<string>) returns (outcome: Outcome)
      modifies workflowService
      ensures var h := Handle(config, d, startFault);
        outcome == h.outcome && workflowService.calls == old(workflowService.calls) + Calls(h)
    {
      if d.eventType == config.userUpdatedType {
        if d.body.asUpdated.None? {
          return NilError;
        }
        var e := ToDomainEvent(d.body.asUpdated.value);
        if e.None? {
          return Panic;
        }
        var err := workflowService.Run(RunUserUpdatedWorkflow(d.correlationId, e.value), startFault);
        if err.Some? {
          return NilError;
        }
        return Processed;
      } else if d.eventType == config.userDeletedType {
        if d.body.asDeleted.None? {
          return NilError;
        }
        var payload := d.body.asDeleted.value;
        if !payload.hard {
          var err := workflowService.Run(RunUserDeletedWorkflow(d.correlationId + DeletedWorkflowSuffix, payload.userId),
                                         startFault);
          if err.Some? {
            return NilError;
          }
        }
        return Processed;
      }
      return UnhandledDelivery;
    }

    /** Handler(): withLog wrapped around handle. */
    method Handler(d: Delivery, startFault: Option<string>) returns (outcome: Outcome)
      modifies workflowService
      ensures var h := Serve(config, d, startFault);
        outcome == h.outcome && workflowService.calls == old(workflowService.calls) + Calls(h)
    {
      if d.contentType != config.contentType {
        return Processed;
      }
      var err := HandleDelivery(d, startFault);
      if err == UnhandledDelivery {
        return Processed;
      }
      return err;
    }
  }

  /**
    The broker is told to requeue exactly when the delivery has the right
    content type and a known event type, and then either its body does not
    unmarshal or the workflow it asks for fails to start.
   */
  lemma RequeueExactly(config: Config, d: Delivery, startFault: Option<string>)
    ensures Serve(config, d, startFault).outcome == NilError <==>
      && d.contentType == config.contentType
      && (d.eventType == config.userUpdatedType || d.eventType == config.userDeletedType)
      && (if d.eventType == config.userUpdatedType
          then d.body.asUpdated.None? || (ToDomainEvent(d.body.asUpdated.value).Some? && startFault.Some?)
          else d.body.asDeleted.None? || (!d.body.asDeleted.value.hard && startFault.Some?))
  {
  }

  /**
    Every delivery that is not requeued and does not panic is acknowledged
    as processed: withLog never passes errUnhandledDelivery on, and handle
    returns no other error.
   */
  lemma ServedOutcomes(config: Config, d: Delivery, startFault: Option<string>)
    ensures Serve(config, d, startFault).outcome in {NilError, Processed, Panic}
    ensures MetricStatus(Serve(config, d, startFault).outcome) == "success"
    ensures d.contentType != config.contentType ==> Serve(config, d, startFault) == Handling(Processed, None)
    ensures d.eventType != config.userUpdatedType && d.eventType != config.userDeletedType ==>
      Serve(config, d, startFault) == Handling(Processed, None)
  {
  }

  /** A workflow is started only for a delivery of the right content type and a known event type. */
  lemma StartsOnlyForKnownEvents(config: Config, d: Delivery, startFault: Option<string>)
    requires Serve(config, d, startFault).call.Some?
    ensures d.contentType == config.contentType
    ensures d.eventType == config.userUpdatedType || d.eventType == config.userDeletedType
  {
  }

  /** Two cleanup workflows get the same id exactly when their deliveries share a correlation id. */
  lemma DeletedWorkflowIdInjective(a: string, b: string)
    ensures a + DeletedWorkflowSuffix == b + DeletedWorkflowSuffix <==> a == b
  {
    if a + DeletedWorkflowSuffix == b + DeletedWorkflowSuffix {
      assert a == (a + DeletedWorkflowSuffix)[..|a|];
      assert b == (b + DeletedWorkflowSuffix)[..|b|];
    }
  }
}
