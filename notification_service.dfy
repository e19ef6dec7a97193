/**
  The notification domain service: CreateNotification takes a new id from
  the repository and stores one notification with it and the clock reading.
  It is specified by Create, a function of the table before the call; the
  method of NotificationService is proved to do exactly that.
 */
module NotificationDomainService {
  import opened Base
  import opened Uuids
  import opened NotificationModel

  /** time.Now(), the id NextID makes, and whether NextID and Store fail. */
  datatype NotificationEnv = NotificationEnv(now: Time, newId: Uuid, nextId: Option<string>, store: Option<string>)

  /** The id returned, the table after the call, and the error returned. */
  datatype Creation = Creation(notificationId: Uuid, records: seq<Notification>, err: Option<NotificationError>)

  /**
    CreateNotification: either both repository calls succeed, the new
    notification is the last row and its id is returned; or nothing is
    stored, the nil UUID is returned and the first failure is the error.
   */
  function Create(records: seq<Notification>, orderId: Uuid, userId: Uuid, message: string,
                  env: NotificationEnv): (c: Creation)
    ensures c.err.None? <==> env.nextId.None? && env.store.None?
    ensures env.nextId.Some? ==> c.err == Fault(env.nextId)
    ensures env.nextId.None? ==> c.err == Fault(env.store)
    ensures c.err.Some? ==> c.notificationId == Nil && c.records == records
    ensures c.err.None? ==>
      && c.notificationId == env.newId
      && |c.records| == |records| + 1
      && c.records[..|records|] == records
      && c.records[|records|] == Notification(env.newId, orderId, userId, message, env.now)
  {
    if env.nextId.Some? then Creation(Nil, records, Fault(env.nextId))
    else if env.store.Some? then Creation(Nil, records, Fault(env.store))
    else
      var records' := records + [Notification(env.newId, orderId, userId, message, env.now)];
      assert records'[..|records|] == records;
      Creation(env.newId, records', None)
  }

  class NotificationService {
    const repository: NotificationRepository

    constructor (repository: NotificationRepository)
      ensures this.repository == repository
    {
      this.repository := repository;
    }

    method CreateNotification(orderId: Uuid, userId: Uuid, message: string, env: NotificationEnv)
      returns (id: Uuid, err: Option<NotificationError>)
      modifies repository
      ensures var c := Create(old(repository.records), orderId, userId, message, env);
        && id == c.notificationId
        && err == c.err
        && repository.records == c.records
    {
      var notificationId, nextErr := repository.NextID(env.newId, env.nextId);
      if nextErr.Some? {
        return Nil, nextErr;
      }
      var notification := Notification(notificationId, orderId, userId, message, env.now);
      var storeErr := repository.Store(notification, env.store);
      if storeErr.Some? {
        return Nil, storeErr;
      }
      return notificationId, None;
    }
  }

  /**
    After a successful CreateNotification the user's list is the list before
    with the new notification at its end, and every other user's list is
    unchanged.
   */
  lemma CreatedIsListed(records: seq<Notification>, orderId: Uuid, userId: Uuid, message: string,
                        env: NotificationEnv, other: Uuid)
    requires Create(records, orderId, userId, message, env).err.None?
    ensures var c := Create(records, orderId, userId, message, env);
      && ForUser(c.records, userId) == ForUser(records, userId) + [c.records[|records|]]
      && (other != userId ==> ForUser(c.records, other) == ForUser(records, other))
  {
    var n := Notification(env.newId, orderId, userId, message, env.now);
    ForUserAppend(records, n, userId);
    ForUserAppend(records, n, other);
  }
}

/**
  The notification application service: CreateNotification runs the domain
  service inside one unit of work and returns the id the callback recorded
  together with the error of Execute.
 */
module NotificationAppService {
  import opened Base
  import opened Uuids
  import opened NotificationModel
  import opened NotificationDomainService
  import UnitOfWork

  /** Everything the domain service meets, and the failure of Execute on its own after a successful callback. */
  datatype AppEnv = AppEnv(domain: NotificationEnv, execute: Option<string>)

  /**
    The id variable starts as the nil UUID and the callback sets it only
    when the domain call succeeds; the error is the callback's, or Execute's
    own when the callback succeeded. So a successful callback's id is
    returned even beside an error of Execute.
   */
  function CreateInUnit(records: seq<Notification>, orderId: Uuid, userId: Uuid, message: string,
                        env: AppEnv): (c: Creation)
    ensures var inner := Create(records, orderId, userId, message, env.domain);
      && c.records == inner.records
      && (inner.err.Some? ==> c.notificationId == Nil && c.err == inner.err)
      && (inner.err.None? ==> c.notificationId == env.domain.newId && c.err == Fault(env.execute))
    ensures c.err.None? <==> env.domain.nextId.None? && env.domain.store.None? && env.execute.None?
  {
    var inner := Create(records, orderId, userId, message, env.domain);
    var notificationId := if inner.err.None? then inner.notificationId else Nil;
    Creation(notificationId, inner.records, UnitOfWork.ExecuteResult(inner.err, Fault(env.execute)))
  }

  class NotificationAppService {
    const uow: UnitOfWork.UnitOfWork
    const repository: NotificationRepository

    constructor (uow: UnitOfWork.UnitOfWork, repository: NotificationRepository)
      ensures this.uow == uow && this.repository == repository
    {
      this.uow := uow;
      this.repository := repository;
    }

    method CreateNotification(orderId: Uuid, userId: Uuid, message: string, env: AppEnv)
      returns (id: Uuid, err: Option<NotificationError>)
      modifies uow, repository
      ensures uow.executions == old(uow.executions) + 1
      ensures var c := CreateInUnit(old(repository.records), orderId, userId, message, env);
        && id == c.notificationId
        && err == c.err
        && repository.records == c.records
    {
      var notificationId := Nil;
      uow.Open();
      var domainService := new NotificationService(repository);
      var newId, callbackErr := domainService.CreateNotification(orderId, userId, message, env.domain);
      if callbackErr.None? {
        notificationId := newId;
      }
      err := UnitOfWork.ExecuteResult(callbackErr, Fault(env.execute));
      id := notificationId;
    }
  }
}
