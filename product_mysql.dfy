/**
  The MySQL product repository, with the table as a map from product_id to
  its row. Store is INSERT ... ON DUPLICATE KEY UPDATE, Find runs the WHERE
  clause that buildSpecArgs writes, Delete removes by product_id. Driver
  failures and the generator's output are inputs.
 */
module ProductMysql {
  import opened Base
  import opened Uuids
  import Sql
  import opened ProductModel

  /** A row of the product table: description is stored through sql.Null[string]. */
  datatype ProductRow = ProductRow(
    productId: Uuid,
    name: string,
    description: Sql.NullString,
    price: Int64,
    createdAt: Time,
    updatedAt: Time)

  /** The values Store binds for a product. */
  function ToRow(p: Product): ProductRow
  {
    ProductRow(p.productId, p.name, Sql.ToSqlNull(p.description), p.price, p.createdAt, p.updatedAt)
  }

  /** The product Find builds from a row it read. */
  function FromRow(r: ProductRow): (p: Product)
    ensures p.productId == r.productId && p.name == r.name && p.price == r.price
    ensures p.description == Sql.FromSqlNull(r.description)
    ensures p.createdAt == r.createdAt && p.updatedAt == r.updatedAt
    ensures ToRow(p) == r <==> r.description.valid || r.description.v == ""
  {
    Sql.NullRoundTrip(r.description);
    Product(r.productId, r.name, Sql.FromSqlNull(r.description), r.price, r.createdAt, r.updatedAt)
  }

  /** Storing a product and reading it back gives the same product. */
  lemma FromRowOfToRow(p: Product)
    ensures FromRow(ToRow(p)) == p
  {
  }

  /** The row as column name to column value, as a WHERE clause sees it. */
  function Columns(r: ProductRow): map<string, Sql.Value>
  {
    map[
      "product_id" := Sql.UuidValue(r.productId),
      "name" := Sql.Text(r.name),
      "description" := Sql.NullValue(r.description),
      "price" := Sql.Integer(r.price),
      "created_at" := Sql.Timestamp(r.createdAt),
      "updated_at" := Sql.Timestamp(r.updatedAt)]
  }

  /** The reference meaning of a spec: every field it sets is equal. */
  predicate Matches(spec: FindSpec, r: ProductRow)
  {
    && (spec.productId.Some? ==> r.productId == spec.productId.value)
    && (spec.name.Some? ==> r.name == spec.name.value)
  }

  predicate IsEmpty(spec: FindSpec)
  {
    spec.productId.None? && spec.name.None?
  }

  /** No row of the table matches the spec. */
  predicate NoMatch(rows: map<Uuid, ProductRow>, spec: FindSpec)
  {
    forall k :: k in rows ==> !Matches(spec, rows[k])
  }

  /** product_id is the primary key: every row sits under its own id. */
  predicate KeyedById(rows: map<Uuid, ProductRow>)
  {
    forall k :: k in rows ==> rows[k].productId == k
  }

  /** Under the primary key, a lookup by id can only select the row of that id. */
  lemma ByIdSelectsKey(rows: map<Uuid, ProductRow>, productId: Uuid)
    requires KeyedById(rows)
    ensures forall k :: k in rows && Matches(ById(productId), rows[k]) ==> k == productId
    ensures productId in rows ==> Matches(ById(productId), rows[productId])
  {
  }

  /**
    ON DUPLICATE KEY UPDATE: a new id inserts the row; an existing id takes
    the new name, description, price and updated_at and keeps created_at.
   */
  function Upsert(rows: map<Uuid, ProductRow>, p: Product): (result: map<Uuid, ProductRow>)
    requires KeyedById(rows)
    ensures result.Keys == rows.Keys + {p.productId}
    ensures forall k :: k in rows && k != p.productId ==> result[k] == rows[k]
    ensures FromRow(result[p.productId])
         == p.(createdAt := if p.productId in rows then rows[p.productId].createdAt else p.createdAt)
    ensures result[p.productId]
         == ToRow(p.(createdAt := if p.productId in rows then rows[p.productId].createdAt else p.createdAt))
    ensures KeyedById(result)
  {
    var row := ToRow(p);
    if p.productId in rows then
      rows[p.productId := rows[p.productId].(
        name := row.name, description := row.description, price := row.price, updatedAt := row.updatedAt)]
    else
      rows[p.productId := row]
  }

  /** The column names buildSpecArgs uses for a spec, in its order. */
  ghost function SpecColumns(spec: FindSpec): seq<string>
  {
    (if spec.productId.Some? then ["product_id"] else []) + (if spec.name.Some? then ["name"] else [])
  }

  lemma ColumnsAt(r: ProductRow)
    ensures "product_id" in Columns(r) && Columns(r)["product_id"] == Sql.UuidValue(r.productId)
    ensures "name" in Columns(r) && Columns(r)["name"] == Sql.Text(r.name)
  {
  }

  /** The arguments buildSpecArgs binds for a spec, in the order of SpecColumns. */
  ghost function SpecArgs(spec: FindSpec): seq<Sql.Value>
  {
    (if spec.productId.Some? then [Sql.UuidValue(spec.productId.value)] else [])
    + (if spec.name.Some? then [Sql.Text(spec.name.value)] else [])
  }

  /** The clause of a non-empty spec, bound to its arguments, selects the rows Matches selects. */
  lemma SpecClauseSelects(spec: FindSpec, r: ProductRow)
    requires !IsEmpty(spec)
    ensures Sql.EvalWhere(Sql.Join(Sql.Conditions(SpecColumns(spec)), Sql.Conjunction), SpecArgs(spec), Columns(r))
         == Some(Matches(spec, r))
  {
    var columns := SpecColumns(spec);
    Sql.EvalWhereOfJoin(columns, SpecArgs(spec), Columns(r));
    ColumnsAt(r);
    if |columns| == 2 {
      assert columns[0] == "product_id" && columns[1] == "name";
    }
  }

  lemma ColumnTexts()
    ensures Sql.IsIdentifier("product_id") && Sql.IsIdentifier("name")
    ensures Sql.Condition("product_id") == "product_id = ?" && Sql.Condition("name") == "name = ?"
    ensures Sql.Join(["product_id = ?", "name = ?"], Sql.Conjunction) == "product_id = ? AND name = ?"
  {
    assert ["product_id = ?", "name = ?"][1..] == ["name = ?"];
  }

  /** The condition texts of a spec's columns are the parts buildSpecArgs appends. */
  lemma SpecParts(spec: FindSpec)
    ensures Sql.Conditions(SpecColumns(spec))
         == (if spec.productId.Some? then ["product_id = ?"] else [])
            + (if spec.name.Some? then ["name = ?"] else [])
  {
    ColumnTexts();
    var columns := SpecColumns(spec);
    if |columns| == 2 {
      assert columns[1..] == ["name"];
    } else if |columns| == 1 {
      assert columns[1..] == [];
    }
  }

  /** The clause of a spec is empty exactly when the spec sets nothing. */
  lemma SpecQueryEmpty(spec: FindSpec)
    ensures IsEmpty(spec) <==> Sql.Join(Sql.Conditions(SpecColumns(spec)), Sql.Conjunction) == ""
  {
    var parts := Sql.Conditions(SpecColumns(spec));
    if !IsEmpty(spec) {
      assert |Sql.Join(parts, Sql.Conjunction)| >= |parts[0]| > 0;
    }
  }

  lemma SpecColumnsAreIdentifiers(spec: FindSpec)
    ensures |SpecColumns(spec)| == |SpecArgs(spec)|
    ensures forall i :: 0 <= i < |SpecColumns(spec)| ==> Sql.IsIdentifier(SpecColumns(spec)[i])
  {
    ColumnTexts();
  }

  /** The clause of a spec has one placeholder per argument. */
  lemma SpecQueryPlaceholders(spec: FindSpec)
    ensures Sql.Placeholders(Sql.Join(Sql.Conditions(SpecColumns(spec)), Sql.Conjunction)) == |SpecArgs(spec)|
  {
    SpecColumnsAreIdentifiers(spec);
    Sql.PlaceholdersOfJoin(SpecColumns(spec));
  }

  /** The statement is well formed exactly when the spec sets a field. */
  lemma SpecQueryWellFormed(spec: FindSpec)
    ensures Sql.WellFormed(Sql.Join(Sql.Conditions(SpecColumns(spec)), Sql.Conjunction), SpecArgs(spec))
        <==> !IsEmpty(spec)
  {
    ColumnTexts();
    if IsEmpty(spec) {
      Sql.EmptyIsNoClause(SpecArgs(spec));
    } else {
      Sql.EvalWhereOfJoin(SpecColumns(spec), SpecArgs(spec), map[]);
    }
  }

  /** With both fields set, the id condition comes first. */
  lemma SpecQueryBoth(spec: FindSpec)
    requires spec.productId.Some? && spec.name.Some?
    ensures Sql.Join(Sql.Conditions(SpecColumns(spec)), Sql.Conjunction) == "product_id = ? AND name = ?"
  {
    ColumnTexts();
    SpecParts(spec);
  }

  /** The WHERE clause buildSpecArgs writes for a spec. */
  ghost function SpecQuery(spec: FindSpec): string
  {
    Sql.Join(Sql.Conditions(SpecColumns(spec)), Sql.Conjunction)
  }

  /** Everything buildSpecArgs promises, about the clause and arguments of a spec. */
  lemma SpecStatement(spec: FindSpec)
    ensures IsEmpty(spec) <==> SpecQuery(spec) == ""
    ensures IsEmpty(spec) ==> SpecArgs(spec) == []
    ensures Sql.WellFormed(SpecQuery(spec), SpecArgs(spec)) <==> !IsEmpty(spec)
    ensures Sql.Placeholders(SpecQuery(spec)) == |SpecArgs(spec)|
    ensures spec.productId.Some? && spec.name.Some? ==> SpecQuery(spec) == "product_id = ? AND name = ?"
    ensures !IsEmpty(spec) ==>
      forall r :: Sql.EvalWhere(SpecQuery(spec), SpecArgs(spec), Columns(r)) == Some(Matches(spec, r))
  {
    SpecQueryEmpty(spec);
    SpecQueryPlaceholders(spec);
    SpecQueryWellFormed(spec);
    if spec.productId.Some? && spec.name.Some? {
      SpecQueryBoth(spec);
    }
    if !IsEmpty(spec) {
      forall r | true
        ensures Sql.EvalWhere(SpecQuery(spec), SpecArgs(spec), Columns(r)) == Some(Matches(spec, r))
      {
        SpecClauseSelects(spec, r);
      }
    }
  }

  class ProductRepository {
    /** The product table. */
    var rows: map<Uuid, ProductRow>

    ghost predicate Valid()
      reads this
    {
      KeyedById(rows)
    }

    constructor ()
      ensures Valid() && rows == map[]
    {
      rows := map[];
    }

    /** NextID: uuid.NewV7, whose output or failure is an input. */
    method NextID(generated: Uuid, fault: Option<string>) returns (id: Uuid, err: Option<ProductError>)
      ensures err == Fault(fault)
      ensures id == if fault.None? then generated else Nil
    {
      if fault.Some? {
        return Nil, Fault(fault);
      }
      return generated, None;
    }

    /**
      buildSpecArgs: "product_id = ?" if the id is set, then "name = ?" if the
      name is set, joined by " AND ", with the arguments in the same order.
     */
    static method BuildSpecArgs(spec: FindSpec) returns (query: string, args: seq<Sql.Value>)
      ensures IsEmpty(spec) <==> query == ""
      ensures IsEmpty(spec) ==> args == []
      ensures Sql.WellFormed(query, args) <==> !IsEmpty(spec)
      ensures Sql.Placeholders(query) == |args|
      ensures spec.productId.Some? && spec.name.Some? ==>
        query == "product_id = ? AND name = ?"
        && args == [Sql.UuidValue(spec.productId.value), Sql.Text(spec.name.value)]
      ensures spec.productId.Some? && spec.name.None? ==>
        query == "product_id = ?" && args == [Sql.UuidValue(spec.productId.value)]
      ensures spec.productId.None? && spec.name.Some? ==>
        query == "name = ?" && args == [Sql.Text(spec.name.value)]
      ensures !IsEmpty(spec) ==>
        forall r :: Sql.EvalWhere(query, args, Columns(r)) == Some(Matches(spec, r))
    {
      var parts: seq<string> := [];
      args := [];
      if spec.productId.Some? {
        parts := parts + ["product_id = ?"];
        args := args + [Sql.UuidValue(spec.productId.value)];
      }
      if spec.name.Some? {
        parts := parts + ["name = ?"];
        args := args + [Sql.Text(spec.name.value)];
      }
      query := Sql.Join(parts, Sql.Conjunction);

      assert query == SpecQuery(spec) by {
        SpecParts(spec);
      }
      assert args == SpecArgs(spec);
      SpecStatement(spec);
    }

    /**
      Find: a driver failure is passed on; an empty spec leaves a malformed
      statement; no selected row is ErrProductNotFound; otherwise one selected
      row, with a NULL description read as nil.
     */
    method Find(spec: FindSpec, fault: Option<string>) returns (r: Result<Product, ProductError>)
      ensures fault.Some? ==> r == Failure(Infra(fault.value))
      ensures fault.None? && IsEmpty(spec) ==> r == Failure(Infra(Sql.InvalidQuery))
      ensures fault.None? && !IsEmpty(spec) ==> (r == Failure(ProductNotFound) <==> NoMatch(rows, spec))
      ensures fault.None? && !IsEmpty(spec) ==> r.Success? || r == Failure(ProductNotFound)
      ensures r.Success? ==> exists k :: k in rows && Matches(spec, rows[k]) && r.value == FromRow(rows[k])
    {
      var query, args := BuildSpecArgs(spec);
      if fault.Some? {
        return Failure(Infra(fault.value));
      }
      if !Sql.WellFormed(query, args) {
        return Failure(Infra(Sql.InvalidQuery));
      }
      if k :| k in rows && Sql.EvalWhere(query, args, Columns(rows[k])) == Some(true) {
        return Success(FromRow(rows[k]));
      }
      return Failure(ProductNotFound);
    }

    /** Store: the upsert above, unless the driver fails. */
    method Store(p: Product, fault: Option<string>) returns (err: Option<ProductError>)
      requires Valid()
      modifies this
      ensures Valid()
      ensures err == Fault(fault)
      ensures rows == if fault.None? then Upsert(old(rows), p) else old(rows)
    {
      err := Fault(fault);
      if fault.None? {
        rows := Upsert(rows, p);
      }
    }

    /** Delete: removes the row with that product_id, if there is one. */
    method Delete(productId: Uuid, fault: Option<string>) returns (err: Option<ProductError>)
      requires Valid()
      modifies this
      ensures Valid()
      ensures err == Fault(fault)
      ensures rows == if fault.None? then old(rows) - {productId} else old(rows)
    {
      err := Fault(fault);
      if fault.None? {
        rows := rows - {productId};
      }
    }
  }

  /** After Delete(id), a lookup by that id selects nothing. */
  lemma DeletedIsNotFound(rows: map<Uuid, ProductRow>, productId: Uuid)
    requires KeyedById(rows)
    ensures NoMatch(rows - {productId}, ById(productId))
  {
  }
}
