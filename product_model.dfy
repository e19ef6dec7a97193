/** The product aggregate, its lookup spec, its errors and its events. */
module ProductModel {
  import opened Base
  import opened Uuids

  datatype Product = Product(
    productId: Uuid,
    name: string,
    description: Option<string>,
    price: Int64,
    createdAt: Time,
    updatedAt: Time)

  /** A sparse filter: the fields that are set are ANDed. */
  datatype FindSpec = FindSpec(productId: Option<Uuid>, name: Option<string>)

  function ById(productId: Uuid): FindSpec { FindSpec(Some(productId), None) }

  function ByName(name: string): FindSpec { FindSpec(None, Some(name)) }

  /** ErrProductNotFound, ErrProductNameAlreadyUsed, and any storage or dispatch failure. */
  datatype ProductError = ProductNotFound | ProductNameAlreadyUsed | Infra(message: string)

  /** A storage or dispatch failure message, as the error the service passes on. */
  function Fault(failure: Option<string>): (err: Option<ProductError>)
    ensures err.None? <==> failure.None?
    ensures failure.Some? ==> err == Some(Infra(failure.value))
  {
    match failure
    case None => None
    case Some(message) => Some(Infra(message))
  }

  /** The UpdatedFields of ProductUpdated; a nil field is None. */
  datatype UpdatedFields = UpdatedFields(name: Option<string>, description: Option<string>, price: Option<Int64>)

  datatype ProductEvent =
    | ProductCreated(productId: Uuid, name: string, description: Option<string>, price: Int64, createdAt: Time)
    | ProductUpdated(productId: Uuid, updatedFields: UpdatedFields, updatedAt: Time)
    | ProductDeleted(productId: Uuid, deletedAt: Time)

  /** Event.Type(): the tag the event is published under. */
  function TypeTag(e: ProductEvent): string
  {
    match e
    case ProductCreated(_, _, _, _, _) => "product_created"
    case ProductUpdated(_, _, _) => "product_updated"
    case ProductDeleted(_, _) => "product_deleted"
  }

  /** Events of different kinds are published under different tags. */
  lemma TypeTagsDistinct(a: ProductEvent, b: ProductEvent)
    ensures TypeTag(a) == TypeTag(b) <==> a.ProductCreated? == b.ProductCreated? && a.ProductUpdated? == b.ProductUpdated?
  {
  }
}
