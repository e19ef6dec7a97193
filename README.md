# Write side of the rp-project services, in Dafny

This project models the write paths of four Go microservices of rp-project. The paths are:

- the product service's domain service and its MySQL repository;
- the payment service's account domain service, its application service, its MySQL repository and its outbox serializer;
- the notification service's domain and application service;
- the user service's AMQP consumer.

The model is proved against contracts that say what the code promises.

In the model a repository is a class holding its table as a `map` (or a `seq` for the append-only notification table). The event dispatcher is a class holding the outbox as a `seq` of events, which only grows at its end. Every call that can fail in the Go code is given its failure as an input, in an `...Env` datatype: repository reads and writes, dispatches, `NextID`, unit-of-work `Execute`, workflow starts. The same goes for `time.Now()` and for the UUID v7 that `NextID` makes.

Each service operation has two parts:

- a function of the state before the call, which gives the state after it, the events dispatched and the error returned, for example `ProductDomainService.Create` or `PaymentDomainService.Update`. Its contract states the source's promises, e.g. name uniqueness, no-op updates, silent deletes of absent ids, created_at kept, one event per write and no event after a failed store;
- a method on the service class, proved to change the repository and outbox exactly as that function says.

Module layout:

| module | file | models |
|---|---|---|
| `Base` | base.dfy | `Option`, `Result`, int64, `time.Time` as UnixNano, `Time.Unix` |
| `Uuids` | uuids.dfy | `uuid.UUID`, its canonical `String()` and `Parse`, with both round trips |
| `Sql` | sql.dfy | `sql.Null[string]` and a small evaluator for the `col = ? AND ...` WHERE clauses the repositories build |
| `Json` | json.dfy | the slice of `json.Marshal` the serializer uses, with a reader of its output |
| `Outbox`, `UnitOfWork` | outbox.dfy, unitofwork.dfy | the event dispatcher, and the (lockable) unit of work as "run the callback, return its error" |
| `ProductModel`, `ProductMysql`, `ProductDomainService` | product_*.dfy | the product service |
| `PaymentModel`, `PaymentMysql`, `PaymentDomainService`, `PaymentAppService`, `PaymentIntegrationEvent` | payment_*.dfy | the payment service |
| `NotificationModel`, `NotificationDomainService`, `NotificationAppService` | notification_*.dfy | the notification service |
| `UserIntegrationEvent` | user_integration_event.dfy | the user service's `handle` / `withLog` |

Where the code's behaviour might surprise a reader, the model follows the code:

- UpdateProduct's ProductUpdated event carries the name, the price and the description, not only the fields that changed (rp-productservice/pkg/product/domain/service/product.go:106-114).
- UpdateProduct refuses a new name only if the name-lookup finds a different product (line 85). The lookup is by name alone, so the model's "already used" means "some other row has this name".
- DeleteProduct deletes the row outright. There is no soft delete (product repository, line 120).
- In the AMQP handler, a body that does not unmarshal makes `handle` return nil. So does a workflow that fails to start. withLog passes that nil on, and the broker requeues the delivery (amqptransport.go:50-54, 80-82, 150-151). A UserDeleted payload with `hard` set is acknowledged without starting any workflow.
- The notification application service returns the new id even when `Execute` itself fails after a successful callback (notification.go:31-34).
- The payment application service builds its domain service on the repository from the callback's provider. Its lookup goes through that same repository.

## Model

| member | source | states |
|---|---|---|
| `Base.Unix` | rp-paymentservice/pkg/payment/infrastructure/integrationevent/serializer.go:24 | the whole seconds of a time, rounded towards minus infinity, bounding the UnixNano reading from below and above |
| `Uuids.ParseOfString` | rp-paymentservice/pkg/payment/application/service/account.go:70-72 | parsing the canonical 36-character text of a UUID gives the UUID back |
| `Uuids.StringOfParse` | rp-userservice-main/pkg/user/infrastructure/integrationevent/amqptransport.go:56 | a string that parses is the canonical text of the UUID it parses to |
| `Uuids.StringInjective` | rp-paymentservice/pkg/payment/application/service/account.go:70-72 | two UUIDs have the same text exactly when they are equal |
| `Uuids.StringChars` | rp-paymentservice/pkg/payment/infrastructure/integrationevent/serializer.go:22 | every character of the canonical text is a lowercase hex digit or a dash |
| `Sql.ToSqlNull` | rp-productservice/pkg/product/infrastructure/mysql/repository/product.go:137-152 | fromSQLNull undoes toSQLNull: nil goes to the invalid zero value and back to nil, any other *string to a valid value and back to the same string |
| `Sql.NullRoundTrip` | rp-productservice/pkg/product/infrastructure/mysql/repository/product.go:137-152 | toSQLNull(fromSQLNull(n)) == n exactly when n is valid or is the zero value |
| `Sql.EvalWhere` | rp-productservice/pkg/product/infrastructure/mysql/repository/product.go:90 | a WHERE clause selects or rejects a row exactly when it is well formed for its arguments |
| `Sql.PlaceholdersOfJoin` | rp-productservice/pkg/product/infrastructure/mysql/repository/product.go:124-135 | a conjunction of n conditions `col = ?` holds exactly n placeholders |
| `Sql.ParseWhereOfJoin` | rp-productservice/pkg/product/infrastructure/mysql/repository/product.go:124-135 | the conjunction built from a list of column names reads back as exactly that list |
| `Sql.EvalWhereOfJoin` | rp-productservice/pkg/product/infrastructure/mysql/repository/product.go:87-92 | such a clause, given one argument per column, selects a row exactly when every named column equals its argument |
| `Sql.EmptyIsNoClause` | rp-productservice/pkg/product/infrastructure/mysql/repository/product.go:90 | the empty query an empty spec produces is no WHERE clause at all, so `WHERE ` with it fails |
| `ProductModel.TypeTagsDistinct` | rp-productservice/pkg/product/domain/model/event.go:17-42 | the three product events are published under three different type tags |
| `ProductMysql.FromRowOfToRow` | rp-productservice/pkg/product/infrastructure/mysql/repository/product.go:57-63 | storing a product and reading its row back gives the same product, a nil description included |
| `ProductMysql.FromRow` | rp-productservice/pkg/product/infrastructure/mysql/repository/product.go:100-107 | the product read from a row carries the row's fields, a NULL description becoming nil; writing it back with toRow gives the same row exactly when the description is valid or empty, so the read loses only the text of an invalid description |
| `ProductMysql.ByIdSelectsKey` | rp-productservice/pkg/product/infrastructure/mysql/repository/product.go:126-129 | under the primary key a lookup by id selects the row of that id and no other |
| `ProductMysql.Upsert` | rp-productservice/pkg/product/infrastructure/mysql/repository/product.go:48-63 | a new id inserts the row toRow makes; an existing id takes the new name, description, price and updated_at and keeps created_at, so its stored row is toRow of the product with the old created_at; other rows are unchanged; the key invariant is kept |
| `ProductMysql.SpecClauseSelects` | rp-productservice/pkg/product/infrastructure/mysql/repository/product.go:124-135 | for a non-empty spec the built clause selects a row exactly when the row matches every field the spec sets |
| `ProductMysql.SpecQueryPlaceholders` | rp-productservice/pkg/product/infrastructure/mysql/repository/product.go:124-135 | the built query has one placeholder per argument |
| `ProductMysql.ProductRepository.NextID` | rp-productservice/pkg/product/infrastructure/mysql/repository/product.go:34-36 | the generated id, or the nil UUID beside the generation failure |
| `ProductMysql.ProductRepository.BuildSpecArgs` | rp-productservice/pkg/product/infrastructure/mysql/repository/product.go:124-135 | the exact text and args for each non-empty spec: `product_id = ?` with the id, `name = ?` with the name, or `product_id = ? AND name = ?` with both in that order; empty query and no args exactly for an empty spec; the query is well formed exactly when the spec is non-empty; placeholders equal args; the clause selects exactly the matching rows |
| `ProductMysql.ProductRepository.Find` | rp-productservice/pkg/product/infrastructure/mysql/repository/product.go:67-108 | a read failure is passed on; an empty spec is a SQL syntax error; ErrProductNotFound exactly when no row matches; otherwise the product of a matching row |
| `ProductMysql.ProductRepository.Store` | rp-productservice/pkg/product/infrastructure/mysql/repository/product.go:38-65 | the table becomes the upsert of the product, or stays as it was beside the write failure |
| `ProductMysql.ProductRepository.Delete` | rp-productservice/pkg/product/infrastructure/mysql/repository/product.go:110-122 | the row of the id is removed, or the table stays as it was beside the failure |
| `ProductMysql.DeletedIsNotFound` | rp-productservice/pkg/product/infrastructure/mysql/repository/product.go:120 | after the delete a lookup by that id selects nothing |
| `ProductDomainService.Create` | rp-productservice/pkg/product/domain/service/product.go:35-72 | a used name is ErrProductNameAlreadyUsed with nothing stored or dispatched; Find, NextID and Store failures come back unchanged, with no event; the table changes exactly when the name is free and Find, NextID and Store succeed; then the row holds the new id, name, description, price and created_at == updated_at == now, one ProductCreated is dispatched unless the dispatcher fails, and the id is returned even beside a dispatch error; names stay unique |
| `ProductDomainService.Update` | rp-productservice/pkg/product/domain/service/product.go:74-115 | a Find-by-id failure (NotFound included) comes back unchanged; a name held by another product is ErrProductNameAlreadyUsed; unchanged values are a no-op; a Store failure past those checks comes back with nothing changed; the table changes exactly when the checks pass, some value differs and Store succeeds, and then the row keeps its id and created_at, takes the new values and updated_at == now, and one ProductUpdated carries all three values unless the dispatcher fails, whose error is returned; no other row changes; names stay unique |
| `ProductDomainService.Delete` | rp-productservice/pkg/product/domain/service/product.go:117-135 | an absent id is success with no delete and no event; other Find errors come back; a Delete failure keeps the row and comes back; otherwise the row is removed, one ProductDeleted with that id is dispatched unless the dispatcher fails, and the dispatcher's error is returned |
| `ProductDomainService.ProductService.CreateProduct` | rp-productservice/pkg/product/domain/service/product.go:35-72 | the returned id and error, the new table and the outbox are exactly those of Create on the table before |
| `ProductDomainService.ProductService.UpdateProduct` | rp-productservice/pkg/product/domain/service/product.go:74-115 | the error, the new table and the outbox are exactly those of Update on the table before |
| `ProductDomainService.ProductService.DeleteProduct` | rp-productservice/pkg/product/domain/service/product.go:117-135 | the error, the new table and the outbox are exactly those of Delete on the table before |
| `ProductDomainService.CreatedIsFound` | rp-productservice/pkg/product/domain/service/product.go:44-62 | a product just created is selected by a lookup of its id and reads back with the values it was created with |
| `ProductDomainService.CreateTwiceConflicts` | rp-productservice/pkg/product/domain/service/product.go:36-42 | creating a second product under a name that was just used is refused and leaves the table alone |
| `ProductDomainService.UpdateToSameIsNoop` | rp-productservice/pkg/product/domain/service/product.go:90-92 | updating a product to its current values changes nothing and dispatches nothing |
| `ProductDomainService.DeleteIsIdempotent` | rp-productservice/pkg/product/domain/service/product.go:117-124 | a second delete of the same id succeeds and does nothing |
| `PaymentModel.TypeTagsDistinct` | rp-paymentservice/pkg/payment/domain/model/event.go:15-28 | the two account events are published under different type tags |
| `PaymentMysql.Upsert` | rp-paymentservice/pkg/payment/infrastructure/mysql/repository/account.go:48-59 | a new user id inserts the account; an existing one changes only balance and updated_at; other rows are unchanged |
| `PaymentMysql.UserClauseSelects` | rp-paymentservice/pkg/payment/infrastructure/mysql/repository/account.go:102-109 | the clause `user_id = ?`, given the user id, selects exactly the account of that user |
| `PaymentMysql.AccountRepository.NextID` | rp-paymentservice/pkg/payment/infrastructure/mysql/repository/account.go:34-36 | the account id is the user id |
| `PaymentMysql.AccountRepository.BuildSpecArgs` | rp-paymentservice/pkg/payment/infrastructure/mysql/repository/account.go:102-109 | `user_id = ?` with exactly the user id as argument when it is set, the empty query and no args otherwise; well formed exactly when it is set |
| `PaymentMysql.AccountRepository.Find` | rp-paymentservice/pkg/payment/infrastructure/mysql/repository/account.go:63-100 | a read failure is passed on; an empty spec is a SQL syntax error; ErrAccountNotFound exactly when the user has no account; otherwise exactly the stored account |
| `PaymentMysql.AccountRepository.Store` | rp-paymentservice/pkg/payment/infrastructure/mysql/repository/account.go:38-61 | the table becomes the upsert of the account, or stays as it was beside the write failure |
| `PaymentMysql.StoredIsFound` | rp-paymentservice/pkg/payment/infrastructure/mysql/repository/account.go:48-59 | after a store the account is there with the stored balance and updated_at, and a new account is stored as given |
| `PaymentDomainService.Create` | rp-paymentservice/pkg/payment/domain/service/account.go:33-61 | an existing account is success with nothing stored or dispatched; a Find error other than NotFound comes back; a new account holds the given balance and created_at == updated_at == now; one AccountCreated follows; a failed store dispatches nothing; existing rows are never changed |
| `PaymentDomainService.Update` | rp-paymentservice/pkg/payment/domain/service/account.go:63-87 | Find errors, NotFound included, come back; an equal balance is a no-op; otherwise the account keeps its user id and created_at and takes the new balance and updated_at == now; one AccountBalanceUpdated with the new balance follows; a failed store dispatches nothing |
| `PaymentDomainService.AccountService.CreateAccount` | rp-paymentservice/pkg/payment/domain/service/account.go:33-61 | the error, the new table and the outbox are exactly those of Create on the table before |
| `PaymentDomainService.AccountService.UpdateBalance` | rp-paymentservice/pkg/payment/domain/service/account.go:63-87 | the error, the new table and the outbox are exactly those of Update on the table before |
| `PaymentDomainService.CreateIsIdempotent` | rp-paymentservice/pkg/payment/domain/service/account.go:34-38 | a second CreateAccount after a successful one changes nothing and dispatches nothing, whatever balance it asks for |
| `PaymentDomainService.UpdateIsIdempotent` | rp-paymentservice/pkg/payment/domain/service/account.go:69-71 | a second UpdateBalance to the same balance changes nothing and dispatches nothing |
| `PaymentAppService.UserBalanceLock` | rp-paymentservice/pkg/payment/application/service/account.go:68-72 | the lock name is `user_balance_` followed by the 36-character text of the id, which parses back to the id |
| `PaymentAppService.UserBalanceLockInjective` | rp-paymentservice/pkg/payment/application/service/account.go:68-72 | two users share a lock name exactly when they are the same user |
| `PaymentAppService.StoreBalance` | rp-paymentservice/pkg/payment/application/service/account.go:39-55 | a lookup failure comes back with nothing done; no account means CreateAccount with the requested balance; an account means UpdateBalance with it; when the callback fails its error is returned, otherwise Execute's own; success exactly when the lookup, the branch taken and Execute all succeed; on success the stored balance is the requested one whichever branch ran; no other account changes; at most one event |
| `PaymentAppService.AccountAppService.StoreUserBalance` | rp-paymentservice/pkg/payment/application/service/account.go:39-55 | exactly one Execute call with exactly the user's one lock name, then the error, table and outbox of StoreBalance |
| `PaymentIntegrationEvent.DecodeOfSerialize` | rp-paymentservice/pkg/payment/infrastructure/integrationevent/serializer.go:18-49 | an account event serializes with no error, and its text reads back through an independent JSON reader as exactly its kind, its user id (user_id holds the UUID's text), its balance and its event time in Unix seconds (created_at or updated_at by kind) |
| `PaymentIntegrationEvent.UnknownEventNamesType` | rp-paymentservice/pkg/payment/infrastructure/integrationevent/serializer.go:34-35 | the error for an event of any other type names it: two such errors are equal exactly when the types are, because the quoted type's escaping loses nothing |
| `PaymentIntegrationEvent.SerializeInjective` | rp-paymentservice/pkg/payment/infrastructure/integrationevent/serializer.go:20-33 | two events of one kind have the same text exactly when they agree on user, balance and second |
| `Json.ParseObjectOfObject` | rp-paymentservice/pkg/payment/infrastructure/integrationevent/serializer.go:21-25 | the marshalled object of members with plain strings reads back as exactly those members |
| `Json.ParseIntOfIntString` | rp-paymentservice/pkg/payment/infrastructure/integrationevent/serializer.go:23-24 | the decimal text of an integer reads back as the integer |
| `Json.EscapePlain` | rp-paymentservice/pkg/payment/infrastructure/integrationevent/serializer.go:22 | a string with nothing to escape is written unchanged |
| `NotificationModel.ForUser` | rp-notificationservice/pkg/notification/infrastructure/mysql/repository/notification.go:54-70 | every notification FindForUser lists is a stored one of that user, and every stored notification of that user is listed |
| `NotificationModel.ForUserAppend` | rp-notificationservice/pkg/notification/domain/model/notification.go:22-26 | storing one more notification adds it at the end of its user's list and changes no other user's list |
| `NotificationModel.NotificationRepository.NextID` | rp-notificationservice/pkg/notification/domain/model/notification.go:23 | the generated id, or the nil UUID beside the failure |
| `NotificationModel.NotificationRepository.Store` | rp-notificationservice/pkg/notification/domain/model/notification.go:24 | the notification is appended, or the table stays as it was beside the failure |
| `NotificationDomainService.Create` | rp-notificationservice/pkg/notification/domain/service/notification.go:25-44 | a NextID failure is (Nil, err) with nothing stored; a Store failure is (Nil, err); on success exactly one row is appended, holding the allocated id, the order id, user id, message and now, and its id is returned |
| `NotificationDomainService.NotificationService.CreateNotification` | rp-notificationservice/pkg/notification/domain/service/notification.go:25-44 | the id, the error and the new table are exactly those of Create on the table before |
| `NotificationDomainService.CreatedIsListed` | rp-notificationservice/pkg/notification/domain/service/notification.go:31-43 | after a success the user's list ends with the new notification and every other user's list is unchanged |
| `NotificationAppService.CreateInUnit` | rp-notificationservice/pkg/notification/application/service/notification.go:23-35 | a failed domain call gives (Nil, its error); a successful one gives its id with Execute's own error; success exactly when nothing fails |
| `NotificationAppService.NotificationAppService.CreateNotification` | rp-notificationservice/pkg/notification/application/service/notification.go:23-35 | exactly one Execute call, then the id, error and table of CreateInUnit |
| `Outbox.EventDispatcher.Dispatch` | rp-productservice/pkg/product/domain/service/product.go:65-71 | the event is appended to the outbox, or is not and the failure is returned |
| `UserIntegrationEvent.ToDomainEvent` | rp-userservice-main/pkg/user/infrastructure/integrationevent/amqptransport.go:55-78 | the domain event copies the payload's time in seconds and both field sets, and its user id is the one whose text is the payload's user_id; there is none exactly when user_id does not parse, where MustParse panics |
| `UserIntegrationEvent.Handle` | rp-userservice-main/pkg/user/infrastructure/integrationevent/amqptransport.go:46-104 | errUnhandledDelivery exactly for an unknown type, with no workflow; a body that does not unmarshal is nil with no workflow; UserUpdated with a parsable user id starts RunUserUpdatedWorkflow under the correlation id with the payload's fields, and an unparsable one panics with no workflow (a panic exactly then); UserDeleted without hard starts RunUserDeletedWorkflow under the correlation id + `_del` with the payload's user id, and a hard delete is errProcessed with no workflow; a started workflow gives errProcessed, a failed start nil; never another error; every started workflow is one of these |
| `UserIntegrationEvent.WorkflowService.Run` | rp-userservice-main/pkg/user/infrastructure/integrationevent/amqptransport.go:79 | the call is recorded and its failure returned |
| `UserIntegrationEvent.AmqpTransport.HandleDelivery` | rp-userservice-main/pkg/user/infrastructure/integrationevent/amqptransport.go:46-104 | the outcome and the workflow calls made are exactly those of Handle |
| `UserIntegrationEvent.AmqpTransport.Handler` | rp-userservice-main/pkg/user/infrastructure/integrationevent/amqptransport.go:42-44 | withLog(handle): the outcome and the workflow calls made are exactly those of Serve |
| `UserIntegrationEvent.RequeueExactly` | rp-userservice-main/pkg/user/infrastructure/integrationevent/amqptransport.go:46-151 | the broker is told to requeue exactly for a known type with the right content type whose body does not unmarshal or whose workflow fails to start |
| `UserIntegrationEvent.ServedOutcomes` | rp-userservice-main/pkg/user/infrastructure/integrationevent/amqptransport.go:106-151 | the wrapped handler answers only nil, errProcessed or a panic: another content type and errUnhandledDelivery both become errProcessed, and handle returns no other error; so the status label of the metric is always "success" |
| `UserIntegrationEvent.StartsOnlyForKnownEvents` | rp-userservice-main/pkg/user/infrastructure/integrationevent/amqptransport.go:101-102 | a workflow starts only for a delivery of the right content type and a known event type |
| `UserIntegrationEvent.DeletedWorkflowIdInjective` | rp-userservice-main/pkg/user/infrastructure/integrationevent/amqptransport.go:94 | two cleanup workflows share an id exactly when their deliveries share a correlation id |

## Left out

- Transactions and rollback. `Execute` runs the callback and returns its error, or its own failure after it. The rows a failed callback wrote are not rolled back in the model.
- Locking. The lock names are computed and recorded; acquiring them, and mutual exclusion, are not modelled. A failure to take the locks comes before the callback runs, so the callback never runs; the model has no such case, and its Execute failure always comes after a callback that ran.
- The unit of work, locker and outbox library itself; their source is not part of this model.
- The `uow` field of the payment application service, which StoreUserBalance does not use.
- Logging: the `l` field chain of withLog and every log line.
- Prometheus metrics. The duration observations are left out; only the status label of the AMQP metric is modelled (`MetricStatus`).
- `time.Now()`, UUID v7 generation (`NextID`), and how `json.Unmarshal` reads a delivery body: all three are inputs.
- UUID text: `uuid.Parse` accepts only the lowercase canonical 36-character form in this model. The library also accepts uppercase hex digits, the 32-digit form without dashes, braces and `urn:uuid:`. So for a user_id in one of those forms `UserIntegrationEvent.ToDomainEvent` is None and `UserIntegrationEvent.Handle` answers a panic, where the Go code starts the workflow.
- The SQL driver, the SQL text and the MySQL schema. The model keeps the table as a map keyed by the primary key. Name comparison is exact string equality; MySQL collation is not modelled, and neither is a unique index on product names. DATETIME rounding of the stored times is left out too.
- `time.Time` is its UnixNano reading as an int64. Its monotonic clock, location, and instants outside the int64 range of nanoseconds are left out.
- `UserIntegrationEvent.Config`: the ContentType constant and the Type() tags of the user events are parameters. Their declarations are not part of this model.
- `PaymentIntegrationEvent.GoQuote` escapes only quotes, backslashes, newlines, tabs and carriage returns. Go's `%q` also escapes every other non-printable rune.
- `Json.ParseObject` reads only flat objects whose strings need no escaping, which is the only kind the serializer writes. It is not a general JSON parser.
- The query services, the gRPC handlers, the Temporal workflow bodies, the schema migrations and the process bootstrap are not modelled.
- `NotificationModel.ForUser`: FindForUser's `ORDER BY created_at DESC` is not modelled. The list is kept in insertion order.
