/**
  The product domain service: CreateProduct, UpdateProduct and DeleteProduct
  over the product repository and the event dispatcher.

  Each operation is specified by a function of the table before the call
  (Create, Update, Delete) giving the table after it, the events it
  dispatches and the error it returns; the methods of ProductService are
  proved to do exactly that. The clock reading, the generated id and the
  failure of each repository or dispatcher call are inputs (ProductEnv).
 */
module ProductDomainService {
  import opened Base
  import opened Uuids
  import opened ProductModel
  import opened ProductMysql
  import Outbox

  /**
    What the world answers during one call: time.Now(), the id NextID
    generates, and for each repository or dispatcher call whether it fails
    and with what message.
   */
  datatype ProductEnv = ProductEnv(
    now: Time,
    newId: Uuid,
    findById: Option<string>,
    findByName: Option<string>,
    nextId: Option<string>,
    store: Option<string>,
    remove: Option<string>,
    dispatch: Option<string>)

  /** The same env with no call failing. */
  predicate NoFaults(env: ProductEnv)
  {
    && env.findById.None? && env.findByName.None? && env.nextId.None?
    && env.store.None? && env.remove.None? && env.dispatch.None?
  }

  /** The table after a call, the events it dispatched and the error it returned. */
  datatype Outcome = Outcome(rows: map<Uuid, ProductRow>, events: seq<ProductEvent>, err: Option<ProductError>)

  /** CreateProduct also returns the new product's id, uuid.Nil when it returns early. */
  datatype Creation = Creation(productId: Uuid, outcome: Outcome)

  /** Some row of the table carries this name. */
  predicate NameUsed(rows: map<Uuid, ProductRow>, name: string)
  {
    exists k :: k in rows && rows[k].name == name
  }

  /** No two rows carry the same name: what the name checks of the service maintain. */
  predicate NamesUnique(rows: map<Uuid, ProductRow>)
  {
    forall a, b :: a in rows && b in rows && rows[a].name == rows[b].name ==> a == b
  }

  /** An event is dispatched only when the dispatcher does not fail. */
  function Dispatched(event: ProductEvent, fault: Option<string>): (events: seq<ProductEvent>)
    ensures events == [] <==> fault.Some?
    ensures events != [] ==> events == [event]
  {
    if fault.None? then [event] else []
  }

  /**
    CreateProduct: a name already in use is ErrProductNameAlreadyUsed; the new
    product gets the generated id and the same clock reading for created_at
    and updated_at; ProductCreated carries the stored values. A failure of
    the dispatcher comes after the row is stored and is returned together
    with the id.
   */
  function Create(rows: map<Uuid, ProductRow>, name: string, price: Int64, description: Option<string>,
                  env: ProductEnv): (c: Creation)
    requires KeyedById(rows)
    ensures KeyedById(c.outcome.rows)
    ensures NamesUnique(rows) ==> NamesUnique(c.outcome.rows)
    ensures c.outcome.err == Some(ProductNameAlreadyUsed) <==> env.findByName.None? && NameUsed(rows, name)
    ensures c.outcome.err.None? <==> NoFaultsUntil(env) && env.dispatch.None? && !NameUsed(rows, name)
    ensures c.outcome.rows != rows <==> NoFaultsUntil(env) && !NameUsed(rows, name)
    ensures env.findByName.Some? ==> c.outcome.err == Fault(env.findByName)
    ensures env.findByName.None? && !NameUsed(rows, name) && env.nextId.Some? ==> c.outcome.err == Fault(env.nextId)
    ensures env.findByName.None? && !NameUsed(rows, name) && env.nextId.None? && env.store.Some? ==>
      c.outcome.err == Fault(env.store)
    ensures c.outcome.rows == rows ==> c.productId == Nil && c.outcome.events == []
    ensures c.outcome.rows != rows ==>
      && c.productId == env.newId
      && c.outcome.rows == Upsert(rows, Product(env.newId, name, description, price, env.now, env.now))
      && c.outcome.events == Dispatched(ProductCreated(env.newId, name, description, price, env.now), env.dispatch)
      && c.outcome.err == Fault(env.dispatch)
  {
    if env.findByName.Some? then Creation(Nil, Outcome(rows, [], Fault(env.findByName)))
    else if NameUsed(rows, name) then Creation(Nil, Outcome(rows, [], Some(ProductNameAlreadyUsed)))
    else if env.nextId.Some? then Creation(Nil, Outcome(rows, [], Fault(env.nextId)))
    else if env.store.Some? then Creation(Nil, Outcome(rows, [], Fault(env.store)))
    else
      var product := Product(env.newId, name, description, price, env.now, env.now);
      var rows' := Upsert(rows, product);
      assert rows'[env.newId].name == name;
      Creation(env.newId, Outcome(rows', Dispatched(ProductCreated(env.newId, name, description, price, env.now), env.dispatch), Fault(env.dispatch)))
  }

  /** The lookup, id generation and store of CreateProduct all succeed. */
  predicate NoFaultsUntil(env: ProductEnv)
  {
    env.findByName.None? && env.nextId.None? && env.store.None?
  }

  /** The product after UpdateProduct: the new name, price and description, and updated_at the clock reading. */
  function Updated(product: Product, name: string, price: Int64, description: Option<string>, now: Time): Product
  {
    product.(name := name, price := price, description := description, updatedAt := now)
  }

  /**
    UpdateProduct gets as far as storing: the product is found, a new name
    is free, and some value differs from the stored one.
   */
  predicate ReachesStore(rows: map<Uuid, ProductRow>, productId: Uuid, name: string, price: Int64,
                         description: Option<string>, env: ProductEnv)
  {
    && env.findById.None? && productId in rows
    && (rows[productId].name != name ==> env.findByName.None? && !NameUsed(rows, name))
    && !(rows[productId].name == name && FromRow(rows[productId]).price == price
         && FromRow(rows[productId]).description == description)
  }

  /**
    UpdateProduct: an unknown id is ErrProductNotFound; a new name is looked
    up and is ErrProductNameAlreadyUsed when another product uses it; nothing
    to change is success without a store or an event; otherwise the product
    is stored with the new values and ProductUpdated carries all three of
    them.
   */
  function Update(rows: map<Uuid, ProductRow>, productId: Uuid, name: string, price: Int64,
                  description: Option<string>, env: ProductEnv): (o: Outcome)
    requires KeyedById(rows)
    ensures KeyedById(o.rows)
    ensures o.rows.Keys == rows.Keys
    ensures forall k :: k in rows && k != productId ==> o.rows[k] == rows[k]
    ensures NamesUnique(rows) ==> NamesUnique(o.rows)
    ensures o.err == Some(ProductNotFound) <==> env.findById.None? && productId !in rows
    ensures o.err == Some(ProductNameAlreadyUsed) <==>
      && env.findById.None? && productId in rows && rows[productId].name != name
      && env.findByName.None? && NameUsed(rows, name)
    ensures env.findById.Some? ==> o == Outcome(rows, [], Fault(env.findById))
    ensures env.findById.None? && productId in rows && rows[productId].name != name && env.findByName.Some? ==>
      o == Outcome(rows, [], Fault(env.findByName))
    ensures (env.findById.None? && productId in rows && rows[productId].name == name
             && FromRow(rows[productId]).price == price && FromRow(rows[productId]).description == description) ==>
      o == Outcome(rows, [], None)
    ensures o.events != [] ==> o.err.None?
    ensures ReachesStore(rows, productId, name, price, description, env) && env.store.Some? ==>
      o == Outcome(rows, [], Fault(env.store))
    ensures o.rows != rows <==> ReachesStore(rows, productId, name, price, description, env) && env.store.None?
    ensures o.rows != rows ==>
      && productId in rows
      && FromRow(o.rows[productId]) == Updated(FromRow(rows[productId]), name, price, description, env.now)
      && o.rows == Upsert(rows, Updated(FromRow(rows[productId]), name, price, description, env.now))
      && o.events == Dispatched(ProductUpdated(productId, UpdatedFields(Some(name), description, Some(price)), env.now), env.dispatch)
      && o.err == Fault(env.dispatch)
  {
    if env.findById.Some? then Outcome(rows, [], Fault(env.findById))
    else if productId !in rows then Outcome(rows, [], Some(ProductNotFound))
    else
      var product := FromRow(rows[productId]);
      if product.name != name && env.findByName.Some? then Outcome(rows, [], Fault(env.findByName))
      else if product.name != name && NameUsed(rows, name) then Outcome(rows, [], Some(ProductNameAlreadyUsed))
      else if product.name == name && product.price == price && product.description == description then
        Outcome(rows, [], None)
      else if env.store.Some? then Outcome(rows, [], Fault(env.store))
      else
        var rows' := Upsert(rows, Updated(product, name, price, description, env.now));
        Outcome(rows',
          Dispatched(ProductUpdated(productId, UpdatedFields(Some(name), description, Some(price)), env.now), env.dispatch),
          Fault(env.dispatch))
  }

  /**
    DeleteProduct: an unknown id is success with nothing to do; otherwise the
    row is deleted and ProductDeleted is dispatched.
   */
  function Delete(rows: map<Uuid, ProductRow>, productId: Uuid, env: ProductEnv): (o: Outcome)
    requires KeyedById(rows)
    ensures KeyedById(o.rows)
    ensures NamesUnique(rows) ==> NamesUnique(o.rows)
    ensures o.rows == rows || o.rows == rows - {productId}
    ensures env.findById.Some? ==> o == Outcome(rows, [], Fault(env.findById))
    ensures env.findById.None? && productId !in rows ==> o == Outcome(rows, [], None)
    ensures env.findById.None? && productId in rows && env.remove.Some? ==> o == Outcome(rows, [], Fault(env.remove))
    ensures env.findById.None? && productId in rows && env.remove.None? ==>
      && o.rows == rows - {productId}
      && o.events == Dispatched(ProductDeleted(productId, env.now), env.dispatch)
      && o.err == Fault(env.dispatch)
    ensures o.err.None? ==> productId !in o.rows
    ensures o.err.None? <==> env.findById.None? && (productId in rows ==> env.remove.None? && env.dispatch.None?)
    ensures o.events != [] <==> o.err.None? && productId in rows
    ensures o.events != [] ==> o.events == [ProductDeleted(productId, env.now)]
  {
    if env.findById.Some? then Outcome(rows, [], Fault(env.findById))
    else if productId !in rows then Outcome(rows, [], None)
    else if env.remove.Some? then Outcome(rows, [], Fault(env.remove))
    else Outcome(rows - {productId}, Dispatched(ProductDeleted(productId, env.now), env.dispatch), Fault(env.dispatch))
  }

  class ProductService {
    const repository: ProductRepository
    const dispatcher: Outbox.EventDispatcher<ProductEvent>

    constructor (repository: ProductRepository, dispatcher: Outbox.EventDispatcher<ProductEvent>)
      ensures this.repository == repository && this.dispatcher == dispatcher
    {
      this.repository := repository;
      this.dispatcher := dispatcher;
    }

    method CreateProduct(name: string, price: Int64, description: Option<string>, env: ProductEnv)
      returns (productId: Uuid, err: Option<ProductError>)
      requires repository.Valid()
      modifies repository, dispatcher
      ensures repository.Valid()
      ensures var c := Create(old(repository.rows), name, price, description, env);
        && productId == c.productId && err == c.outcome.err
        && repository.rows == c.outcome.rows
        && dispatcher.events == old(dispatcher.events) + c.outcome.events
    {
      var found := repository.Find(ByName(name), env.findByName);
      if found.Failure? && found.error != ProductNotFound {
        return Nil, Some(found.error);
      }
      if found.Success? {
        return Nil, Some(ProductNameAlreadyUsed);
      }
      var nextErr;
      productId, nextErr := repository.NextID(env.newId, env.nextId);
      if nextErr.Some? {
        return Nil, nextErr;
      }
      var currentTime := env.now;
      var product := Product(productId, name, description, price, currentTime, currentTime);
      var storeErr := repository.Store(product, env.store);
      if storeErr.Some? {
        return Nil, storeErr;
      }
      var dispatchErr := dispatcher.Dispatch(ProductCreated(productId, name, description, price, currentTime), env.dispatch);
      err := Fault(dispatchErr);
    }

    method UpdateProduct(productId: Uuid, name: string, price: Int64, description: Option<string>, env: ProductEnv)
      returns (err: Option<ProductError>)
      requires repository.Valid()
      modifies repository, dispatcher
      ensures repository.Valid()
      ensures var o := Update(old(repository.rows), productId, name, price, description, env);
        && err == o.err
        && repository.rows == o.rows
        && dispatcher.events == old(dispatcher.events) + o.events
    {
      var found := repository.Find(ById(productId), env.findById);
      if found.Failure? {
        return Some(found.error);
      }
      ByIdSelectsKey(repository.rows, productId);
      var product := found.value;
      if product.name != name {
        var existing := repository.Find(ByName(name), env.findByName);
        if existing.Failure? && existing.error != ProductNotFound {
          return Some(existing.error);
        }
        if existing.Success? && existing.value.productId != productId {
          return Some(ProductNameAlreadyUsed);
        }
      }
      if product.name == name && product.price == price && product.description == description {
        return None;
      }
      var currentTime := env.now;
      product := Updated(product, name, price, description, currentTime);
      var storeErr := repository.Store(product, env.store);
      if storeErr.Some? {
        return storeErr;
      }
      var dispatchErr := dispatcher.Dispatch(
        ProductUpdated(productId, UpdatedFields(Some(name), description, Some(price)), currentTime), env.dispatch);
      err := Fault(dispatchErr);
    }

    method DeleteProduct(productId: Uuid, env: ProductEnv) returns (err: Option<ProductError>)
      requires repository.Valid()
      modifies repository, dispatcher
      ensures repository.Valid()
      ensures var o := Delete(old(repository.rows), productId, env);
        && err == o.err
        && repository.rows == o.rows
        && dispatcher.events == old(dispatcher.events) + o.events
    {
      var found := repository.Find(ById(productId), env.findById);
      if found.Failure? {
        if found.error == ProductNotFound {
          return None;
        }
        return Some(found.error);
      }
      ByIdSelectsKey(repository.rows, productId);
      var deleteErr := repository.Delete(productId, env.remove);
      if deleteErr.Some? {
        return deleteErr;
      }
      var dispatchErr := dispatcher.Dispatch(ProductDeleted(productId, env.now), env.dispatch);
      err := Fault(dispatchErr);
    }
  }

  /** A product just created is there to be found by its id, with the values it was created with. */
  lemma CreatedIsFound(rows: map<Uuid, ProductRow>, name: string, price: Int64, description: Option<string>,
                       env: ProductEnv)
    requires KeyedById(rows) && env.newId !in rows
    requires Create(rows, name, price, description, env).outcome.err.None?
    ensures var c := Create(rows, name, price, description, env);
      && c.productId in c.outcome.rows
      && Matches(ById(c.productId), c.outcome.rows[c.productId])
      && FromRow(c.outcome.rows[c.productId]) == Product(env.newId, name, description, price, env.now, env.now)
  {
  }

  /** Creating a second product under a name just used is refused, and leaves the table alone. */
  lemma CreateTwiceConflicts(rows: map<Uuid, ProductRow>, name: string, price: Int64, description: Option<string>,
                             env1: ProductEnv, env2: ProductEnv)
    requires KeyedById(rows) && NoFaults(env1) && env2.findByName.None?
    requires Create(rows, name, price, description, env1).outcome.err.None?
    ensures var rows1 := Create(rows, name, price, description, env1).outcome.rows;
      && Create(rows1, name, price, description, env2).outcome == Outcome(rows1, [], Some(ProductNameAlreadyUsed))
  {
    var rows1 := Create(rows, name, price, description, env1).outcome.rows;
    assert rows1[env1.newId].name == name;
  }

  /** Updating a product to the values it already has changes nothing and dispatches nothing. */
  lemma UpdateToSameIsNoop(rows: map<Uuid, ProductRow>, productId: Uuid, env: ProductEnv)
    requires KeyedById(rows) && productId in rows && env.findById.None?
    ensures var p := FromRow(rows[productId]);
      Update(rows, productId, p.name, p.price, p.description, env) == Outcome(rows, [], None)
  {
  }

  /** Deleting twice: the second call finds nothing and succeeds without an event. */
  lemma DeleteIsIdempotent(rows: map<Uuid, ProductRow>, productId: Uuid, env1: ProductEnv, env2: ProductEnv)
    requires KeyedById(rows) && env2.findById.None?
    requires Delete(rows, productId, env1).err.None?
    ensures var rows1 := Delete(rows, productId, env1).rows;
      Delete(rows1, productId, env2) == Outcome(rows1, [], None)
  {
  }
}
