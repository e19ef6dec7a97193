/**
  The MySQL account repository, with the table as a map from user_id to the
  account. Store is INSERT ... ON DUPLICATE KEY UPDATE of balance and
  updated_at, Find runs the WHERE clause buildSpecArgs writes, and NextID
  hands back the user id. Driver failures are inputs.
 */
module PaymentMysql {
  import opened Base
  import opened Uuids
  import Sql
  import opened PaymentModel

  /** The account row as column name to column value, as a WHERE clause sees it. */
  function Columns(a: Account): map<string, Sql.Value>
  {
    map[
      "user_id" := Sql.UuidValue(a.userId),
      "balance" := Sql.Integer(a.balance),
      "created_at" := Sql.Timestamp(a.createdAt),
      "updated_at" := Sql.Timestamp(a.updatedAt)]
  }

  /** The reference meaning of a spec: the user id, when set, is equal. */
  predicate Matches(spec: FindSpec, a: Account)
  {
    spec.userId.Some? ==> a.userId == spec.userId.value
  }

  /** No row of the table matches the spec. */
  predicate NoMatch(rows: map<Uuid, Account>, spec: FindSpec)
  {
    forall k :: k in rows ==> !Matches(spec, rows[k])
  }

  /** user_id is the primary key: every row sits under its own user id. */
  predicate KeyedByUser(rows: map<Uuid, Account>)
  {
    forall k :: k in rows ==> rows[k].userId == k
  }

  /**
    ON DUPLICATE KEY UPDATE: a new user id inserts the account; an existing
    one takes the new balance and updated_at and keeps its created_at.
   */
  function Upsert(rows: map<Uuid, Account>, a: Account): (result: map<Uuid, Account>)
    requires KeyedByUser(rows)
    ensures result.Keys == rows.Keys + {a.userId}
    ensures forall k :: k in rows && k != a.userId ==> result[k] == rows[k]
    ensures result[a.userId]
         == if a.userId in rows then rows[a.userId].(balance := a.balance, updatedAt := a.updatedAt) else a
    ensures a.userId in rows ==> result[a.userId].createdAt == rows[a.userId].createdAt
    ensures KeyedByUser(result)
  {
    if a.userId in rows then
      rows[a.userId := rows[a.userId].(balance := a.balance, updatedAt := a.updatedAt)]
    else
      rows[a.userId := a]
  }

  lemma UserColumnText()
    ensures Sql.IsIdentifier("user_id")
    ensures Sql.Condition("user_id") == "user_id = ?"
  {
  }

  /** The clause buildSpecArgs writes for a user id. */
  lemma UserClauseText()
    ensures Sql.Join(Sql.Conditions(["user_id"]), Sql.Conjunction) == "user_id = ?"
  {
    UserColumnText();
  }

  /** The clause has one placeholder. */
  lemma UserClausePlaceholders()
    ensures Sql.Placeholders("user_id = ?") == 1
  {
    UserColumnText();
    Sql.PlaceholdersOfJoin(["user_id"]);
  }

  /** Bound to one argument, the clause is a well-formed statement. */
  lemma UserClauseWellFormed(v: Sql.Value)
    ensures Sql.WellFormed("user_id = ?", [v])
  {
    UserColumnText();
    Sql.EvalWhereOfJoin(["user_id"], [v], map[]);
  }

  /** Bound to a user id, the clause selects exactly the account of that user. */
  lemma UserClauseSelects(userId: Uuid, a: Account)
    ensures Sql.EvalWhere("user_id = ?", [Sql.UuidValue(userId)], Columns(a)) == Some(a.userId == userId)
  {
    UserColumnText();
    Sql.EvalWhereOfJoin(["user_id"], [Sql.UuidValue(userId)], Columns(a));
  }

  /** The clause and arguments buildSpecArgs writes for a spec. */
  ghost function SpecQuery(spec: FindSpec): string
  {
    if spec.userId.Some? then "user_id = ?" else ""
  }

  ghost function SpecArgs(spec: FindSpec): seq<Sql.Value>
  {
    if spec.userId.Some? then [Sql.UuidValue(spec.userId.value)] else []
  }

  /** Everything buildSpecArgs promises, about the clause and arguments of a spec. */
  lemma SpecStatement(spec: FindSpec)
    ensures Sql.Placeholders(SpecQuery(spec)) == |SpecArgs(spec)|
    ensures Sql.WellFormed(SpecQuery(spec), SpecArgs(spec)) <==> spec.userId.Some?
    ensures spec.userId.Some? ==>
      forall a :: Sql.EvalWhere(SpecQuery(spec), SpecArgs(spec), Columns(a)) == Some(Matches(spec, a))
  {
    if spec.userId.Some? {
      UserClausePlaceholders();
      UserClauseWellFormed(Sql.UuidValue(spec.userId.value));
      forall a
        ensures Sql.EvalWhere(SpecQuery(spec), SpecArgs(spec), Columns(a)) == Some(Matches(spec, a))
      {
        UserClauseSelects(spec.userId.value, a);
      }
    } else {
      Sql.EmptyIsNoClause([]);
    }
  }

  class AccountRepository {
    /** The account table. */
    var rows: map<Uuid, Account>

    ghost predicate Valid()
      reads this
    {
      KeyedByUser(rows)
    }

    constructor ()
      ensures Valid() && rows == map[]
    {
      rows := map[];
    }

    /** NextID: an account's id is the id of its user. */
    method NextID(userId: Uuid) returns (id: Uuid)
      ensures id == userId
    {
      return userId;
    }

    /** buildSpecArgs: "user_id = ?" with the id when it is set, nothing otherwise. */
    static method BuildSpecArgs(spec: FindSpec) returns (query: string, args: seq<Sql.Value>)
      ensures spec.userId.Some? ==> query == "user_id = ?" && args == [Sql.UuidValue(spec.userId.value)]
      ensures spec.userId.None? ==> query == "" && args == []
      ensures Sql.Placeholders(query) == |args|
      ensures Sql.WellFormed(query, args) <==> spec.userId.Some?
      ensures spec.userId.Some? ==> forall a :: Sql.EvalWhere(query, args, Columns(a)) == Some(Matches(spec, a))
    {
      var parts: seq<string> := [];
      args := [];
      if spec.userId.Some? {
        parts := parts + ["user_id = ?"];
        args := args + [Sql.UuidValue(spec.userId.value)];
      }
      query := Sql.Join(parts, Sql.Conjunction);
      assert query == SpecQuery(spec) by {
        UserClauseText();
      }
      SpecStatement(spec);
    }

    /**
      Find: a driver failure is passed on; an empty spec leaves a malformed
      statement; no selected row is ErrAccountNotFound; otherwise the row
      selected, field for field.
     */
    method Find(spec: FindSpec, fault: Option<string>) returns (r: Result<Account, AccountError>)
      requires Valid()
      ensures fault.Some? ==> r == Failure(Infra(fault.value))
      ensures fault.None? && spec.userId.None? ==> r == Failure(Infra(Sql.InvalidQuery))
      ensures fault.None? && spec.userId.Some? ==>
        r == if spec.userId.value in rows then Success(rows[spec.userId.value]) else Failure(AccountNotFound)
    {
      var query, args := BuildSpecArgs(spec);
      if fault.Some? {
        return Failure(Infra(fault.value));
      }
      if !Sql.WellFormed(query, args) {
        return Failure(Infra(Sql.InvalidQuery));
      }
      if k :| k in rows && Sql.EvalWhere(query, args, Columns(rows[k])) == Some(true) {
        return Success(rows[k]);
      }
      assert spec.userId.value in rows ==> Sql.EvalWhere(query, args, Columns(rows[spec.userId.value])) == Some(true);
      return Failure(AccountNotFound);
    }

    /** Store: the upsert above, unless the driver fails. */
    method Store(a: Account, fault: Option<string>) returns (err: Option<AccountError>)
      requires Valid()
      modifies this
      ensures Valid()
      ensures err == Fault(fault)
      ensures rows == if fault.None? then Upsert(old(rows), a) else old(rows)
    {
      err := Fault(fault);
      if fault.None? {
        rows := Upsert(rows, a);
      }
    }
  }

  /** Storing an account and finding it by its user id gives it back, with created_at kept on an update. */
  lemma StoredIsFound(rows: map<Uuid, Account>, a: Account)
    requires KeyedByUser(rows)
    ensures a.userId in Upsert(rows, a)
    ensures Upsert(rows, a)[a.userId].balance == a.balance
    ensures Upsert(rows, a)[a.userId].updatedAt == a.updatedAt
    ensures a.userId !in rows ==> Upsert(rows, a)[a.userId] == a
  {
  }
}
