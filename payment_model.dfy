/** The account aggregate of the payment service, its lookup spec, its errors and its events. */
module PaymentModel {
  import opened Base
  import opened Uuids

  /** An account is keyed by the id of the user who owns it; the balance is in kopecks. */
  datatype Account = Account(userId: Uuid, balance: Int64, createdAt: Time, updatedAt: Time)

  datatype FindSpec = FindSpec(userId: Option<Uuid>)

  function ByUser(userId: Uuid): FindSpec { FindSpec(Some(userId)) }

  /**
    ErrAccountNotFound, ErrInsufficientFunds (declared; no operation here
    returns it), and any storage or dispatch failure.
   */
  datatype AccountError = AccountNotFound | InsufficientFunds | Infra(message: string)

  /** A storage or dispatch failure message, as the error the service passes on. */
  function Fault(failure: Option<string>): (err: Option<AccountError>)
    ensures err.None? <==> failure.None?
    ensures failure.Some? ==> err == Some(Infra(failure.value))
  {
    match failure
    case None => None
    case Some(message) => Some(Infra(message))
  }

  datatype AccountEvent =
    | AccountCreated(userId: Uuid, balance: Int64, createdAt: Time)
    | AccountBalanceUpdated(userId: Uuid, balance: Int64, updatedAt: Time)

  /** Event.Type(): the tag the event is published under. */
  function TypeTag(e: AccountEvent): string
  {
    match e
    case AccountCreated(_, _, _) => "account_created"
    case AccountBalanceUpdated(_, _, _) => "account_balance_updated"
  }

  /** The two kinds of event are published under different tags. */
  lemma TypeTagsDistinct(a: AccountEvent, b: AccountEvent)
    ensures TypeTag(a) == TypeTag(b) <==> a.AccountCreated? == b.AccountCreated?
  {
  }
}
