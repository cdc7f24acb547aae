/** The order lifecycle: creating a PENDING order and handing back its
    payment hash, then recording the payment result and, on success,
    emptying the buyer's cart. */
module OrderService {
  import opened Common
  import opened Domain
  import PaymentHash

  /** The shipping address of a request; only `_id` is read. */
  datatype AddressRef = AddressRef(id: string)

  /** One line of a create-order request. Any fields besides `product` and
      `qty` that the client sent are in `extra`. */
  datatype ItemRequest = ItemRequest(product: ProductPayload, qty: real, extra: map<string, string>)

  /** The body of a create-order request; `amount` in integer cents. */
  datatype OrderRequest = OrderRequest(amount: int, address: AddressRef, orderItems: seq<ItemRequest>)

  /** The order response: the address is not part of it. */
  datatype OrderView = OrderView(
    id: string,
    date: Date,
    amount: int,
    status: OrderStatus,
    paymentStatus: PaymentStatus,
    user: string,
    orderItems: seq<OrderItem>)

  datatype PaymentHashResponse = PaymentHashResponse(order: OrderView, hash: string)

  function ToOrderView(o: Order): OrderView {
    OrderView(o.id, o.date, o.amount, o.status, o.paymentStatus, o.user, o.orderItems)
  }

  /** The line items of a new order: `product` and `qty` of each request
      item, in the request's order. */
  function SnapshotItems(items: seq<ItemRequest>): (r: seq<OrderItem>)
    ensures |r| == |items|
    ensures forall k :: 0 <= k < |items| ==> r[k] == OrderItem(items[k].product, items[k].qty)
  {
    if items == [] then []
    else [OrderItem(items[0].product, items[0].qty)] + SnapshotItems(items[1..])
  }

  /** The document `initializeNewOrder` saves. */
  function NewOrder(id: string, req: OrderRequest, user: string, now: Date): Order {
    Order(id, now, req.amount, PROCESS, PENDING, req.address.id, user, SnapshotItems(req.orderItems))
  }

  /** A new order starts in PROCESS/PENDING with the requested amount and
      keeps the request's items in order, reduced to product and quantity. */
  lemma NewOrderShape(id: string, req: OrderRequest, user: string, now: Date)
    ensures var o := NewOrder(id, req, user, now);
      && o.status == PROCESS && o.paymentStatus == PENDING
      && o.amount == req.amount && o.user == user && o.address == req.address.id && o.date == now
      && |o.orderItems| == |req.orderItems|
      && forall k :: 0 <= k < |req.orderItems| ==>
           o.orderItems[k].product == req.orderItems[k].product && o.orderItems[k].qty == req.orderItems[k].qty
  {
  }

  /** The store after a payment status is written to one order. */
  function WithPaymentStatus(orders: map<string, Order>, id: string, status: PaymentStatus): (r: map<string, Order>)
    requires id in orders
    ensures r.Keys == orders.Keys
    ensures r[id] == orders[id].(paymentStatus := status)
    ensures forall other :: other in orders && other != id ==> r[other] == orders[other]
  {
    orders[id := orders[id].(paymentStatus := status)]
  }

  /** Writing the same payment status twice is the same as writing it once;
      there is no check of the previous value. */
  lemma PaymentStatusIdempotent(orders: map<string, Order>, id: string, status: PaymentStatus)
    requires id in orders
    ensures WithPaymentStatus(WithPaymentStatus(orders, id, status), id, status) == WithPaymentStatus(orders, id, status)
  {
  }

  /** `initializeNewOrder`. The calls stand for the user lookup, the address
      lookup and the save; `newId` is the id Mongoose gives the new order and
      `now` the creation date. The hash is computed after the save, so a
      missing merchant credential fails the call with the order stored. */
  method InitializeNewOrder(
    db: Database, orderData: OrderRequest, userId: string, now: Date, newId: string,
    userCall: Call, addressCall: Call, saveCall: Call,
    env: PaymentHash.MerchantEnv, md5: string -> string)
    returns (r: Result<PaymentHashResponse>)
    requires db.Valid()
    modifies db
    ensures db.Valid()
    ensures db.users == old(db.users) && db.addresses == old(db.addresses)
    ensures db.products == old(db.products) && db.productOrder == old(db.productOrder)
    ensures !Resolves(userCall, userId, old(db.users)) ==>
      r == Failure(NotFound) && db.orders == old(db.orders)
    ensures Resolves(userCall, userId, old(db.users)) && !Resolves(addressCall, orderData.address.id, old(db.addresses)) ==>
      r == Failure(NotFound) && db.orders == old(db.orders)
    ensures Resolves(userCall, userId, old(db.users)) && Resolves(addressCall, orderData.address.id, old(db.addresses)) ==>
      var saveError := SaveError(newId in old(db.orders), saveCall);
      var order := NewOrder(newId, orderData, userId, now);
      && (saveError.Some? ==> r == Failure(saveError.value) && db.orders == old(db.orders))
      && (saveError.None? ==>
            && db.orders == old(db.orders)[newId := order]
            && r == match PaymentHash.HashPaymentDetails(env, md5, newId, orderData.amount)
                    case Failure(e) => Failure(e)
                    case Success(h) => Success(PaymentHashResponse(ToOrderView(order), h)))
  {
    if !(userCall.Succeeds? && userId in db.users) {
      return Failure(NotFound);
    }
    var existingUser := db.users[userId];
    if !(addressCall.Succeeds? && orderData.address.id in db.addresses) {
      return Failure(NotFound);
    }
    var existingAddress := db.addresses[orderData.address.id];
    var newOrder := Order(newId, now, orderData.amount, PROCESS, PENDING,
                          existingAddress.id, existingUser.id, SnapshotItems(orderData.orderItems));
    var saveError := SaveError(newId in db.orders, saveCall);
    if saveError.Some? {
      return Failure(saveError.value);
    }
    db.orders := db.orders[newId := newOrder];
    var hash := PaymentHash.HashPaymentDetails(env, md5, newOrder.id, newOrder.amount);
    match hash
    case Failure(e) => r := Failure(e);
    case Success(h) => r := Success(PaymentHashResponse(ToOrderView(newOrder), h));
  }

  /** `completeOrderPayment`. The calls stand for the order update and the
      cart reset. The order write is not undone when the cart reset fails. */
  method CompleteOrderPayment(
    db: Database, orderId: string, paymentStatus: PaymentStatus,
    updateCall: Call, userCall: Call)
    returns (r: Result<Option<UserView>>)
    requires db.Valid()
    modifies db
    ensures db.Valid()
    ensures db.addresses == old(db.addresses) && db.products == old(db.products)
    ensures db.productOrder == old(db.productOrder)
    ensures !Resolves(updateCall, orderId, old(db.orders)) ==>
      r == Failure(NotFound) && db.orders == old(db.orders) && db.users == old(db.users)
    ensures Resolves(updateCall, orderId, old(db.orders)) ==>
      var owner := old(db.orders)[orderId].user;
      && db.orders == WithPaymentStatus(old(db.orders), orderId, paymentStatus)
      && (paymentStatus != SUCCESS ==> r == Success(None) && db.users == old(db.users))
      && (paymentStatus == SUCCESS && !Resolves(userCall, owner, old(db.users)) ==>
            r == Failure(NotFound) && db.users == old(db.users))
      && (paymentStatus == SUCCESS && Resolves(userCall, owner, old(db.users)) ==>
            && db.users == old(db.users)[owner := old(db.users)[owner].(cart := [])]
            && r == Success(Some(ToUserView(db.users[owner], db.products))))
  {
    if !(updateCall.Succeeds? && orderId in db.orders) {
      return Failure(NotFound);
    }
    db.orders := WithPaymentStatus(db.orders, orderId, paymentStatus);
    var updatedOrder := db.orders[orderId];
    if paymentStatus == SUCCESS {
      var owner := updatedOrder.user;
      if !(userCall.Succeeds? && owner in db.users) {
        return Failure(NotFound);
      }
      var cleared := db.users[owner].(cart := []);
      ReplaceUserKeepsValid(db.users, cleared);
      ReplaceUserKeepsLinks(db.users, db.addresses, cleared);
      db.users := db.users[owner := cleared];
      return Success(Some(ToUserView(db.users[owner], db.products)));
    }
    r := Success(None);
  }
}
