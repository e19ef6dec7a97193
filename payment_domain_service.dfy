/**
  The account domain service: CreateAccount and UpdateBalance over the
  account repository and the event dispatcher.

  Each operation is specified by a function of the table before the call
  (Create, Update) giving the table after it, the events it dispatches and
  the error it returns; the methods of AccountService are proved to do
  exactly that. The clock reading and the failure of each repository or
  dispatcher call are inputs (AccountEnv).
 */
module PaymentDomainService {
  import opened Base
  import opened Uuids
  import opened PaymentModel
  import opened PaymentMysql
  import Outbox

  /** time.Now(), and for each repository or dispatcher call whether it fails and with what message. */
  datatype AccountEnv = AccountEnv(now: Time, find: Option<string>, store: Option<string>, dispatch: Option<string>)

  /** The table after a call, the events it dispatched and the error it returned. */
  datatype Outcome = Outcome(rows: map<Uuid, Account>, events: seq<AccountEvent>, err: Option<AccountError>)

  /** An event is dispatched only when the dispatcher does not fail. */
  function Dispatched(event: AccountEvent, fault: Option<string>): (events: seq<AccountEvent>)
    ensures events == [] <==> fault.Some?
    ensures events != [] ==> events == [event]
  {
    if fault.None? then [event] else []
  }

  /**
    CreateAccount: an account that already exists is success with nothing to
    do; otherwise the account is stored with the given balance and the same
    clock reading for created_at and updated_at, and AccountCreated is
    dispatched.
   */
  function Create(rows: map<Uuid, Account>, userId: Uuid, initialBalance: Int64, env: AccountEnv): (o: Outcome)
    requires KeyedByUser(rows)
    ensures KeyedByUser(o.rows)
    ensures forall k :: k in rows ==> k in o.rows && o.rows[k] == rows[k]
    ensures env.find.Some? ==> o == Outcome(rows, [], Fault(env.find))
    ensures env.find.None? && userId in rows ==> o == Outcome(rows, [], None)
    ensures env.find.None? && userId !in rows && env.store.Some? ==> o == Outcome(rows, [], Fault(env.store))
    ensures o.err.None? ==> userId in o.rows
    ensures o.err.None? <==> env.find.None? && (userId !in rows ==> env.store.None? && env.dispatch.None?)
    ensures o.rows != rows <==> env.find.None? && userId !in rows && env.store.None?
    ensures o.rows != rows ==>
      && o.rows == rows[userId := Account(userId, initialBalance, env.now, env.now)]
      && o.events == Dispatched(AccountCreated(userId, initialBalance, env.now), env.dispatch)
      && o.err == Fault(env.dispatch)
    ensures o.rows == rows ==> o.events == []
  {
    if env.find.Some? then Outcome(rows, [], Fault(env.find))
    else if userId in rows then Outcome(rows, [], None)
    else if env.store.Some? then Outcome(rows, [], Fault(env.store))
    else
      var rows' := Upsert(rows, Account(userId, initialBalance, env.now, env.now));
      assert userId in rows' && userId !in rows;
      Outcome(rows', Dispatched(AccountCreated(userId, initialBalance, env.now), env.dispatch), Fault(env.dispatch))
  }

  /**
    UpdateBalance: an unknown user is ErrAccountNotFound; the balance it
    already has is success with nothing to do; otherwise the account takes
    the new balance and updated_at the clock reading, keeps its created_at,
    and AccountBalanceUpdated is dispatched.
   */
  function Update(rows: map<Uuid, Account>, userId: Uuid, newBalance: Int64, env: AccountEnv): (o: Outcome)
    requires KeyedByUser(rows)
    ensures KeyedByUser(o.rows)
    ensures o.rows.Keys == rows.Keys
    ensures forall k :: k in rows && k != userId ==> o.rows[k] == rows[k]
    ensures env.find.Some? ==> o == Outcome(rows, [], Fault(env.find))
    ensures o.err == Some(AccountNotFound) <==> env.find.None? && userId !in rows
    ensures env.find.None? && userId in rows && rows[userId].balance == newBalance ==> o == Outcome(rows, [], None)
    ensures o.err.None? ==> userId in o.rows && o.rows[userId].balance == newBalance
    ensures env.find.None? && userId in rows && rows[userId].balance != newBalance && env.store.Some? ==>
      o == Outcome(rows, [], Fault(env.store))
    ensures o.rows != rows <==> env.find.None? && userId in rows && rows[userId].balance != newBalance && env.store.None?
    ensures o.rows != rows ==>
      && o.rows[userId] == rows[userId].(balance := newBalance, updatedAt := env.now)
      && o.events == Dispatched(AccountBalanceUpdated(userId, newBalance, env.now), env.dispatch)
      && o.err == Fault(env.dispatch)
    ensures o.rows == rows ==> o.events == []
  {
    if env.find.Some? then Outcome(rows, [], Fault(env.find))
    else if userId !in rows then Outcome(rows, [], Some(AccountNotFound))
    else if rows[userId].balance == newBalance then Outcome(rows, [], None)
    else if env.store.Some? then Outcome(rows, [], Fault(env.store))
    else
      var account := rows[userId].(balance := newBalance, updatedAt := env.now);
      var rows' := Upsert(rows, account);
      assert rows'[userId].balance != rows[userId].balance;
      Outcome(rows', Dispatched(AccountBalanceUpdated(userId, newBalance, env.now), env.dispatch), Fault(env.dispatch))
  }

  class AccountService {
    const repository: AccountRepository
    const dispatcher: Outbox.EventDispatcher<AccountEvent>

    constructor (repository: AccountRepository, dispatcher: Outbox.EventDispatcher<AccountEvent>)
      ensures this.repository == repository && this.dispatcher == dispatcher
    {
      this.repository := repository;
      this.dispatcher := dispatcher;
    }

    method CreateAccount(userId: Uuid, initialBalance: Int64, env: AccountEnv) returns (err: Option<AccountError>)
      requires repository.Valid()
      modifies repository, dispatcher
      ensures repository.Valid()
      ensures var o := Create(old(repository.rows), userId, initialBalance, env);
        && err == o.err
        && repository.rows == o.rows
        && dispatcher.events == old(dispatcher.events) + o.events
    {
      var found := repository.Find(ByUser(userId), env.find);
      if found.Success? {
        return None;
      }
      if found.error != AccountNotFound {
        return Some(found.error);
      }
      var currentTime := env.now;
      var account := Account(userId, initialBalance, currentTime, currentTime);
      var storeErr := repository.Store(account, env.store);
      if storeErr.Some? {
        return storeErr;
      }
      var dispatchErr := dispatcher.Dispatch(AccountCreated(userId, initialBalance, currentTime), env.dispatch);
      err := Fault(dispatchErr);
    }

    method UpdateBalance(userId: Uuid, newBalance: Int64, env: AccountEnv) returns (err: Option<AccountError>)
      requires repository.Valid()
      modifies repository, dispatcher
      ensures repository.Valid()
      ensures var o := Update(old(repository.rows), userId, newBalance, env);
        && err == o.err
        && repository.rows == o.rows
        && dispatcher.events == old(dispatcher.events) + o.events
    {
      var found := repository.Find(ByUser(userId), env.find);
      if found.Failure? {
        return Some(found.error);
      }
      var account := found.value;
      if account.balance == newBalance {
        return None;
      }
      var currentTime := env.now;
      account := account.(balance := newBalance, updatedAt := currentTime);
      var storeErr := repository.Store(account, env.store);
      if storeErr.Some? {
        return storeErr;
      }
      var dispatchErr := dispatcher.Dispatch(AccountBalanceUpdated(userId, newBalance, currentTime), env.dispatch);
      err := Fault(dispatchErr);
    }
  }

  /** CreateAccount twice: the second call finds the account and changes nothing. */
  lemma CreateIsIdempotent(rows: map<Uuid, Account>, userId: Uuid, balance1: Int64, balance2: Int64,
                           env1: AccountEnv, env2: AccountEnv)
    requires KeyedByUser(rows) && env2.find.None?
    requires Create(rows, userId, balance1, env1).err.None?
    ensures var rows1 := Create(rows, userId, balance1, env1).rows;
      Create(rows1, userId, balance2, env2) == Outcome(rows1, [], None)
  {
  }

  /** UpdateBalance twice to the same balance: the second call changes nothing. */
  lemma UpdateIsIdempotent(rows: map<Uuid, Account>, userId: Uuid, newBalance: Int64,
                           env1: AccountEnv, env2: AccountEnv)
    requires KeyedByUser(rows) && env2.find.None?
    requires Update(rows, userId, newBalance, env1).err.None?
    ensures var rows1 := Update(rows, userId, newBalance, env1).rows;
      Update(rows1, userId, newBalance, env2) == Outcome(rows1, [], None)
  {
  }
}
