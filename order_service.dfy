/**
 * The order placement workflow: look the product up, apply three gates in a
 * fixed order, price the order, and persist it once.
 */
module Service {
  import opened Wrappers
  import opened Dto
  import opened Orders
  import Fallback
  import Client

  /** The three ways a placement fails, in the order they are checked. */
  datatype PlaceError =
    | LookupFailed        // "Unable to fetch product details."
    | CatalogUnavailable  // "Product Service is currently unavailable. Try again later."
    | InvalidPrice        // "Invalid product price. Order cannot be placed."

  /** The user-visible message of each failure. */
  function Message(e: PlaceError): (r: string)
  {
    match e
    case LookupFailed => "Unable to fetch product details."
    case CatalogUnavailable => "Product Service is currently unavailable. Try again later."
    case InvalidPrice => "Invalid product price. Order cannot be placed."
  }

  /** The three failures are told apart by their messages. */
  lemma MessagesDistinct(a: PlaceError, b: PlaceError)
    ensures Message(a) == Message(b) <==> a == b
  {
  }

  /**
   * The exception-absorbing lookup: a thrown client call becomes `None`, and
   * a returned snapshot, null or not, is passed through unchanged.
   */
  function FetchProduct(client: Client.ProductClient, productId: int): (r: Option<ProductResponse>)
    ensures Client.Call(client, productId).Threw? ==> r == None
    ensures Client.Call(client, productId).Returned? ==> r == Client.Call(client, productId).response
  {
    match Client.Call(client, productId)
    case Returned(p) => p
    case Threw(_) => None
  }

  /** A present price that is strictly positive. */
  predicate HasValidPrice(p: ProductResponse)
  {
    p.price.Some? && p.price.value > 0.0
  }

  /**
   * The gate sequence and the pricing of the order, as a pure decision on the
   * fetched snapshot and the order's quantity. Each error fires exactly when
   * its gate is the first to reject; the order succeeds exactly when all three
   * gates pass, with total price * quantity. The quantity itself is not checked.
   */
  function Decide(product: Option<ProductResponse>, quantity: int): (r: Result<real, PlaceError>)
    ensures r == Failure(LookupFailed) <==> product.None?
    ensures r == Failure(CatalogUnavailable) <==> product.Some? && Fallback.IsSentinel(product.value)
    ensures r == Failure(InvalidPrice) <==>
              product.Some? && !Fallback.IsSentinel(product.value) && !HasValidPrice(product.value)
    ensures r.Success? <==>
              product.Some? && !Fallback.IsSentinel(product.value) && HasValidPrice(product.value)
    ensures r.Success? ==> r.value == product.value.price.value * quantity as real
  {
    if product.None? then Failure(LookupFailed)
    else if product.value.productName == Some(Fallback.PRODUCT_UNAVAILABLE) then Failure(CatalogUnavailable)
    else if product.value.price.None? || product.value.price.value <= 0.0 then Failure(InvalidPrice)
    else Success(product.value.price.value * quantity as real)
  }

  /**
   * What placing an order for `productId` and `quantity` through `client`
   * decides, stated in terms of the client's raw outcome: a thrown call or a
   * null answer is a lookup failure, and the order is priced exactly when the
   * client returned a non-sentinel snapshot with a positive price.
   */
  function Place(client: Client.ProductClient, productId: int, quantity: int): (r: Result<real, PlaceError>)
    ensures r == Failure(LookupFailed) <==>
              Client.Call(client, productId).Threw? || Client.Call(client, productId).response.None?
    ensures r.Success? <==>
              Client.Call(client, productId).Returned? && Client.Call(client, productId).response.Some? &&
              !Fallback.IsSentinel(Client.Call(client, productId).response.value) &&
              HasValidPrice(Client.Call(client, productId).response.value)
    ensures r.Success? ==>
              r.value == Client.Call(client, productId).response.value.price.value * quantity as real
  {
    Decide(FetchProduct(client, productId), quantity)
  }

  /** A sentinel snapshot is refused as unavailable whatever its price, never as mispriced. */
  lemma SentinelBeatsPrice(p: ProductResponse, quantity: int)
    requires Fallback.IsSentinel(p)
    ensures Decide(Some(p), quantity) == Failure(CatalogUnavailable)
    ensures Decide(Some(p), quantity) != Failure(InvalidPrice)
  {
  }

  /**
   * No check is made on the quantity: a correctly priced product is accepted
   * for a zero or negative quantity too, and then prices it at zero or below.
   */
  lemma QuantityUnchecked(p: ProductResponse, quantity: int)
    requires !Fallback.IsSentinel(p) && HasValidPrice(p)
    ensures Decide(Some(p), quantity).Success?
    ensures quantity == 0 ==> Decide(Some(p), quantity).value == 0.0
    ensures quantity < 0 ==> Decide(Some(p), quantity).value < 0.0
  {
  }

  /** A thrown client call always surfaces as the lookup failure. */
  lemma ThrownCallFailsLookup(client: Client.ProductClient, productId: int, quantity: int)
    requires Client.Call(client, productId).Threw?
    ensures Place(client, productId, quantity) == Failure(LookupFailed)
  {
  }

  /** With the fallback client in place, every order is refused as unavailable. */
  lemma FallbackNeverPlaces(productId: int, quantity: int)
    ensures Place(Client.FallbackClient, productId, quantity) == Failure(CatalogUnavailable)
    ensures Message(Place(Client.FallbackClient, productId, quantity).error)
              == "Product Service is currently unavailable. Try again later."
  {
  }

  /** The service: an order store and a catalog client, both supplied from outside. */
  class OrderService {
    const orderRepository: OrderRepository
    const productClient: Client.ProductClient

    constructor (orderRepository: OrderRepository, productClient: Client.ProductClient)
      ensures this.orderRepository == orderRepository && this.productClient == productClient
    {
      this.orderRepository := orderRepository;
      this.productClient := productClient;
    }

    /**
     * Places `order`. When a gate rejects it nothing changes: neither the
     * order nor the store (the store itself is modelled as never failing).
     * On success the order's total price is set, the order is saved exactly
     * once (one new row, under a fresh id), and the saved order is returned
     * with its product id and quantity as they were.
     */
    method PlaceOrder(order: Order) returns (r: Result<Order, PlaceError>)
      requires orderRepository.Valid()
      modifies order, orderRepository
      ensures orderRepository.Valid()
      ensures r.Failure? <==> Place(productClient, old(order.productId), old(order.quantity)).Failure?
      ensures r.Failure? ==>
                r.error == Place(productClient, old(order.productId), old(order.quantity)).error &&
                unchanged(order) && unchanged(orderRepository)
      ensures r.Success? ==>
                r.value == order &&
                order.productId == old(order.productId) && order.quantity == old(order.quantity) &&
                order.totalPrice == Some(Place(productClient, old(order.productId), old(order.quantity)).value) &&
                order.id == Some(old(orderRepository.nextId)) &&
                orderRepository.nextId == old(orderRepository.nextId) + 1 &&
                orderRepository.rows == old(orderRepository.rows) +
                  [OrderRecord(order.id.value, order.productId, order.quantity, order.totalPrice)] &&
                GetOrderById(order.id.value) == Some(orderRepository.rows[|orderRepository.rows| - 1])
    {
      var product := FetchProduct(productClient, order.productId);
      var decision := Decide(product, order.quantity);
      match decision {
        case Failure(e) =>
          r := Failure(e);
        case Success(totalPrice) =>
          order.totalPrice := Some(totalPrice);
          var savedOrder := orderRepository.Save(order);
          r := Success(savedOrder);
      }
    }

    /** Every saved order, exactly as the store lists them; each is found again by its id. */
    function GetAllOrders(): (r: seq<OrderRecord>)
      requires orderRepository.Valid()
      reads this, orderRepository
      ensures r == orderRepository.rows
      ensures forall k :: 0 <= k < |r| ==> GetOrderById(r[k].id) == Some(r[k])
    {
      orderRepository.FindAll()
    }

    /** The saved order with the given id; an unknown id gives `None`, not a failure. */
    function GetOrderById(orderId: int): (r: Option<OrderRecord>)
      reads this, orderRepository
      ensures r == orderRepository.FindById(orderId)
      ensures r.None? <==> forall i :: 0 <= i < |orderRepository.rows| ==> orderRepository.rows[i].id != orderId
    {
      orderRepository.FindById(orderId)
    }
  }
}
