/**
  The account application service: StoreUserBalance runs, under one
  lockable unit of work holding the lock of the user's balance, a lookup of
  the account and then CreateAccount or UpdateBalance of the domain service.
 */
module PaymentAppService {
  import opened Base
  import opened Uuids
  import opened PaymentModel
  import opened PaymentMysql
  import opened PaymentDomainService
  import Outbox
  import UnitOfWork

  /** The command: the balance a user's account is to have. */
  datatype UserBalance = UserBalance(userId: Uuid, balance: Int64)

  const BaseUserBalanceLock: string := "user_balance_"

  /** userBalanceLock: the lock name of a user's balance, the prefix and then the id's canonical text. */
  function UserBalanceLock(id: Uuid): (name: string)
    ensures |name| == |BaseUserBalanceLock| + 36
    ensures name[..|BaseUserBalanceLock|] == BaseUserBalanceLock
    ensures Parse(name[|BaseUserBalanceLock|..]) == Some(id)
  {
    var name := BaseUserBalanceLock + String(id);
    assert name[|BaseUserBalanceLock|..] == String(id);
    ParseOfString(id);
    name
  }

  /** Two users share a lock name exactly when they are the same user. */
  lemma UserBalanceLockInjective(a: Uuid, b: Uuid)
    ensures UserBalanceLock(a) == UserBalanceLock(b) <==> a == b
  {
    if UserBalanceLock(a) == UserBalanceLock(b) {
      var n := |BaseUserBalanceLock|;
      assert UserBalanceLock(a)[n..] == UserBalanceLock(b)[n..];
    }
  }

  /**
    What the world answers during one call: the failure of the lookup the
    service makes itself, everything the domain service meets, and the
    failure of Execute on its own after a successful callback.
   */
  datatype BalanceEnv = BalanceEnv(lookup: Option<string>, domain: AccountEnv, execute: Option<string>)

  /**
    StoreUserBalance: the callback creates the account when the lookup finds
    nothing and updates it when the lookup finds it; Execute returns the
    callback's error, or its own when the callback succeeded.
   */
  function StoreBalance(rows: map<Uuid, Account>, balance: UserBalance, env: BalanceEnv): (o: Outcome)
    requires KeyedByUser(rows)
    ensures KeyedByUser(o.rows)
    ensures env.lookup.Some? ==> o == Outcome(rows, [], Some(Infra(env.lookup.value)))
    ensures env.lookup.None? && balance.userId !in rows ==>
      o == Create(rows, balance.userId, balance.balance, env.domain).(err := o.err)
    ensures env.lookup.None? && balance.userId in rows ==>
      o == Update(rows, balance.userId, balance.balance, env.domain).(err := o.err)
    ensures env.execute.None? && env.lookup.None? ==>
      o.err == if balance.userId in rows then Update(rows, balance.userId, balance.balance, env.domain).err
               else Create(rows, balance.userId, balance.balance, env.domain).err
    ensures env.lookup.None? ==>
      var inner := if balance.userId in rows then Update(rows, balance.userId, balance.balance, env.domain)
                   else Create(rows, balance.userId, balance.balance, env.domain);
      && (inner.err.Some? ==> o.err == inner.err)
      && (inner.err.None? ==> o.err == Fault(env.execute))
    ensures o.err.None? <==>
      && env.lookup.None? && env.execute.None?
      && (if balance.userId in rows then Update(rows, balance.userId, balance.balance, env.domain).err.None?
          else Create(rows, balance.userId, balance.balance, env.domain).err.None?)
    ensures o.err.None? ==> balance.userId in o.rows && o.rows[balance.userId].balance == balance.balance
    ensures forall k :: k in rows && k != balance.userId ==> k in o.rows && o.rows[k] == rows[k]
    ensures |o.events| <= 1
  {
    var callback :=
      if env.lookup.Some? then Outcome(rows, [], Fault(env.lookup))
      else if balance.userId !in rows then Create(rows, balance.userId, balance.balance, env.domain)
      else Update(rows, balance.userId, balance.balance, env.domain);
    callback.(err := UnitOfWork.ExecuteResult(callback.err, Fault(env.execute)))
  }

  class AccountAppService {
    const luow: UnitOfWork.LockableUnitOfWork
    const repository: AccountRepository
    const dispatcher: Outbox.EventDispatcher<AccountEvent>

    constructor (luow: UnitOfWork.LockableUnitOfWork, repository: AccountRepository,
                 dispatcher: Outbox.EventDispatcher<AccountEvent>)
      ensures this.luow == luow && this.repository == repository && this.dispatcher == dispatcher
    {
      this.luow := luow;
      this.repository := repository;
      this.dispatcher := dispatcher;
    }

    /**
      StoreUserBalance: one Execute call with the one lock of the user's
      balance, then the callback inline.
     */
    method StoreUserBalance(balance: UserBalance, env: BalanceEnv) returns (err: Option<AccountError>)
      requires repository.Valid()
      modifies luow, repository, dispatcher
      ensures repository.Valid()
      ensures luow.executions == old(luow.executions) + [[UserBalanceLock(balance.userId)]]
      ensures var o := StoreBalance(old(repository.rows), balance, env);
        && err == o.err
        && repository.rows == o.rows
        && dispatcher.events == old(dispatcher.events) + o.events
    {
      var lockName := UserBalanceLock(balance.userId);
      luow.Open([lockName]);

      var domainService := new AccountService(repository, dispatcher);
      var callbackErr: Option<AccountError>;
      var found := repository.Find(ByUser(balance.userId), env.lookup);
      if found.Failure? && found.error == AccountNotFound {
        callbackErr := domainService.CreateAccount(balance.userId, balance.balance, env.domain);
      } else if found.Failure? {
        callbackErr := Some(found.error);
      } else {
        callbackErr := domainService.UpdateBalance(balance.userId, balance.balance, env.domain);
      }
      err := UnitOfWork.ExecuteResult(callbackErr, Fault(env.execute));
    }
  }
}
