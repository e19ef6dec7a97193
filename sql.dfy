/**
  The slice of SQL the repositories rely on: column values, sql.Null[string],
  strings.Join, and the WHERE clauses that buildSpecArgs writes, which are
  conditions `column = ?` joined by " AND ". ParseWhere and EvalWhere say
  what such a clause selects once its placeholders are bound to arguments.
 */
module Sql {
  import opened Base
  import Uuids

  /** A column value or a bound query argument. */
  datatype Value =
    | UuidValue(id: Uuids.Uuid)
    | Text(text: string)
    | Integer(number: int)
    | Timestamp(time: Time)
    | Null

  /** sql.Null[string]: V is meaningful only when Valid. */
  datatype NullString = NullString(v: string, valid: bool)

  /** fromSQLNull: a valid value becomes a non-nil *string holding it, an invalid one nil. */
  function FromSqlNull(n: NullString): (p: Option<string>)
    ensures p.Some? <==> n.valid
    ensures p.Some? ==> p.value == n.v
  {
    if n.valid then Some(n.v) else None
  }

  /** toSQLNull: nil becomes the zero sql.Null, anything else a valid one. */
  function ToSqlNull(p: Option<string>): (n: NullString)
    ensures FromSqlNull(n) == p
    ensures p.None? ==> n == NullString("", false)
  {
    match p
    case None => NullString("", false)
    case Some(v) => NullString(v, true)
  }

  /** Going through SQL and back only forgets the V of an invalid value. */
  lemma NullRoundTrip(n: NullString)
    ensures ToSqlNull(FromSqlNull(n)) == n <==> (n.valid || n.v == "")
  {
  }

  /** The column value sql.Null[string] is written as. */
  function NullValue(n: NullString): Value
  {
    if n.valid then Text(n.v) else Null
  }

  /** strings.Join. */
  function Join(parts: seq<string>, sep: string): string
  {
    if |parts| == 0 then ""
    else if |parts| == 1 then parts[0]
    else parts[0] + sep + Join(parts[1..], sep)
  }

  const Conjunction: string := " AND "

  predicate IsIdentChar(c: char)
  {
    'a' <= c <= 'z' || c == '_'
  }

  /** A column name as the repositories spell them: lowercase snake case. */
  predicate IsIdentifier(s: string)
  {
    |s| > 0 && forall i :: 0 <= i < |s| ==> IsIdentChar(s[i])
  }

  /** The condition text for one column. */
  function Condition(column: string): string
  {
    column + " = ?"
  }

  function Conditions(columns: seq<string>): (parts: seq<string>)
    ensures |parts| == |columns|
  {
    if columns == [] then [] else [Condition(columns[0])] + Conditions(columns[1..])
  }

  /** The length of the identifier at the front of q. */
  function IdentLength(q: string): (n: nat)
    ensures n <= |q|
    ensures forall i :: 0 <= i < n ==> IsIdentChar(q[i])
    ensures n < |q| ==> !IsIdentChar(q[n])
  {
    if q == [] || !IsIdentChar(q[0]) then 0 else 1 + IdentLength(q[1..])
  }

  /**
    Reads `c1 = ? AND c2 = ? AND ...` into the column names c1, c2, ...;
    anything else (the empty string included) is not a WHERE clause.
   */
  function ParseWhere(q: string): Option<seq<string>>
    decreases |q|
  {
    var n := IdentLength(q);
    var rest := q[n..];
    if n == 0 || !(" = ?" <= rest) then None
    else if |rest| == 4 then Some([q[..n]])
    else if !(Conjunction <= rest[4..]) then None
    else
      match ParseWhere(rest[9..])
      case Some(columns) => Some([q[..n]] + columns)
      case None => None
  }

  /** The statement `... WHERE q` is well formed and binds exactly args. */
  predicate WellFormed(q: string, args: seq<Value>)
  {
    ParseWhere(q).Some? && |ParseWhere(q).value| == |args|
  }

  /**
    What the database does with `WHERE q` and args on one row, given as its
    column values: None when the statement is malformed or the argument count
    does not match, otherwise whether every condition holds.
   */
  function EvalWhere(q: string, args: seq<Value>, row: map<string, Value>): (r: Option<bool>)
    ensures r.Some? <==> WellFormed(q, args)
  {
    if !WellFormed(q, args) then None
    else
      var columns := ParseWhere(q).value;
      Some(forall i :: 0 <= i < |columns| ==> columns[i] in row && row[columns[i]] == args[i])
  }

  /** The number of `?` placeholders in a statement. */
  function Placeholders(q: string): nat
  {
    if q == [] then 0 else (if q[0] == '?' then 1 else 0) + Placeholders(q[1..])
  }

  lemma {:induction false} PlaceholdersAppend(a: string, b: string)
    ensures Placeholders(a + b) == Placeholders(a) + Placeholders(b)
  {
    if a == [] {
      assert a + b == b;
    } else {
      assert (a + b)[0] == a[0] && (a + b)[1..] == a[1..] + b;
      PlaceholdersAppend(a[1..], b);
    }
  }

  lemma {:induction false} NoPlaceholderInIdentifier(s: string)
    requires forall i :: 0 <= i < |s| ==> IsIdentChar(s[i])
    ensures Placeholders(s) == 0
  {
    if s != [] {
      NoPlaceholderInIdentifier(s[1..]);
    }
  }

  /** A clause built from n columns has n placeholders. */
  lemma {:induction false} PlaceholdersOfJoin(columns: seq<string>)
    requires forall i :: 0 <= i < |columns| ==> IsIdentifier(columns[i])
    ensures Placeholders(Join(Conditions(columns), Conjunction)) == |columns|
  {
    if columns != [] {
      var c := columns[0];
      NoPlaceholderInIdentifier(c);
      PlaceholdersAppend(c, " = ?");
      assert Placeholders(" = ?") == 1;
      if |columns| > 1 {
        var tail := Join(Conditions(columns[1..]), Conjunction);
        assert Conditions(columns)[1..] == Conditions(columns[1..]);
        PlaceholdersOfJoin(columns[1..]);
        PlaceholdersAppend(Condition(c), Conjunction);
        PlaceholdersAppend(Condition(c) + Conjunction, tail);
        assert Placeholders(Conjunction) == 0;
      }
    }
  }

  lemma {:induction false} IdentLengthOfIdentifier(c: string, rest: string)
    requires forall i :: 0 <= i < |c| ==> IsIdentChar(c[i])
    requires rest != [] && !IsIdentChar(rest[0])
    ensures IdentLength(c + rest) == |c|
  {
    if c != [] {
      assert (c + rest)[1..] == c[1..] + rest;
      IdentLengthOfIdentifier(c[1..], rest);
    }
  }

  lemma ParseWhereOne(c: string)
    requires IsIdentifier(c)
    ensures ParseWhere(Condition(c)) == Some([c])
  {
    var q := Condition(c);
    IdentLengthOfIdentifier(c, " = ?");
    assert q[..|c|] == c && q[|c|..] == " = ?";
  }

  lemma ParseWhereStep(c: string, tail: string)
    requires IsIdentifier(c)
    ensures ParseWhere(Condition(c) + Conjunction + tail)
         == match ParseWhere(tail) case Some(columns) => Some([c] + columns) case None => None
  {
    var q := Condition(c) + Conjunction + tail;
    assert q == c + (" = ? AND " + tail);
    IdentLengthOfIdentifier(c, " = ? AND " + tail);
    var rest := q[|c|..];
    assert q[..|c|] == c && rest == " = ? AND " + tail;
    assert " = ?" <= rest;
    assert rest[4..] == Conjunction + tail;
    assert rest[9..] == tail;
  }

  /** ParseWhere reads back exactly the columns a clause was built from. */
  lemma {:induction false} ParseWhereOfJoin(columns: seq<string>)
    requires |columns| > 0
    requires forall i :: 0 <= i < |columns| ==> IsIdentifier(columns[i])
    ensures ParseWhere(Join(Conditions(columns), Conjunction)) == Some(columns)
  {
    if |columns| == 1 {
      assert Join(Conditions(columns), Conjunction) == Condition(columns[0]);
      ParseWhereOne(columns[0]);
      assert columns == [columns[0]];
    } else {
      assert Conditions(columns)[1..] == Conditions(columns[1..]);
      ParseWhereStep(columns[0], Join(Conditions(columns[1..]), Conjunction));
      ParseWhereOfJoin(columns[1..]);
      assert columns == [columns[0]] + columns[1..];
    }
  }

  /**
    A clause built from columns and bound to args of the same number holds of
    a row exactly when the row has every column equal to its argument.
   */
  lemma EvalWhereOfJoin(columns: seq<string>, args: seq<Value>, row: map<string, Value>)
    requires |columns| > 0 && |columns| == |args|
    requires forall i :: 0 <= i < |columns| ==> IsIdentifier(columns[i])
    ensures WellFormed(Join(Conditions(columns), Conjunction), args)
    ensures EvalWhere(Join(Conditions(columns), Conjunction), args, row)
         == Some(forall i :: 0 <= i < |columns| ==> columns[i] in row && row[columns[i]] == args[i])
  {
    ParseWhereOfJoin(columns);
  }

  /** The driver error MySQL reports for `... WHERE ` with nothing after it. */
  const InvalidQuery: string := "You have an error in your SQL syntax"

  /** The empty string, which buildSpecArgs returns for an empty spec, is no WHERE clause. */
  lemma EmptyIsNoClause(args: seq<Value>)
    ensures !WellFormed("", args)
  {
  }
}
