/**
  The UnitOfWork and LockableUnitOfWork the application services run their
  callbacks in. Execute(f) runs f and returns its error; when f succeeds,
  Execute may still fail on its own when committing, and that error is an
  input here. Only the calls themselves are recorded: which
  Execute calls were made and with which lock names. Transactions, rollback
  and mutual exclusion belong to the library and are not modelled.
 */
module UnitOfWork {
  import opened Base

  /** The error Execute returns: the callback's if it failed, otherwise its own. */
  function ExecuteResult<E>(callbackErr: Option<E>, executeErr: Option<E>): (err: Option<E>)
    ensures callbackErr.Some? ==> err == callbackErr
    ensures callbackErr.None? ==> err == executeErr
  {
    if callbackErr.Some? then callbackErr else executeErr
  }

  class UnitOfWork {
    /** How many times Execute has been called. */
    var executions: nat

    constructor ()
      ensures executions == 0
    {
      executions := 0;
    }

    /** Records one Execute call; the caller runs the callback right after. */
    method Open()
      modifies this
      ensures executions == old(executions) + 1
    {
      executions := executions + 1;
    }
  }

  class LockableUnitOfWork {
    /** The lock names of every Execute call so far, in call order. */
    var executions: seq<seq<string>>

    constructor ()
      ensures executions == []
    {
      executions := [];
    }

    /** Records one Execute(lockNames, f) call; the caller runs f right after. */
    method Open(lockNames: seq<string>)
      modifies this
      ensures executions == old(executions) + [lockNames]
    {
      executions := executions + [lockNames];
    }
  }
}
