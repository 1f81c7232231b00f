/** The domain values shared by every part of the model. */
module Domain {

  datatype Option<+T> = None | Some(value: T)

  // A UUID. Only equality and, for keyset pages, its total order matter.
  type Uuid = nat

  datatype Currency = PLN | EUR | USD | GBP | CHF

  datatype Money = Money(minorAmount: int, currency: Currency)

  datatype Product = Product(id: Uuid, name: string, price: Money, stock: int, version: int)

  datatype Order = Order(id: Uuid, userID: Uuid, productID: Uuid, quantity: int, unitPrice: Money, createdAt: nat)

  datatype EventType = Created | Updated | Deleted | Purchased

  // What an event records of a product; its JSON encoding and wall-clock stamp are not modelled.
  datatype Event = Event(eventID: Uuid, kind: EventType, productID: Uuid, version: int, quantity: int, stock: int)

  function NewEvent(eventID: Uuid, kind: EventType, p: Product): Event {
    Event(eventID, kind, p.id, p.version, 0, p.stock)
  }

  function NewPurchased(eventID: Uuid, p: Product, qty: int): Event {
    NewEvent(eventID, Purchased, p).(quantity := qty)
  }

  function Min(a: int, b: int): int {
    if a < b then a else b
  }

  function Max(a: int, b: int): int {
    if a < b then b else a
  }
}
