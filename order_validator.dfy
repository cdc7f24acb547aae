/** The Joi schemas that guard the order endpoints, as predicates over a
    parsed JSON body. */
module OrderValidator {
  import opened Common
  import opened Domain

  /** A JSON value; numbers are reals. */
  datatype Json =
    | JNull
    | JBool(b: bool)
    | JNum(n: real)
    | JStr(s: string)
    | JArr(items: seq<Json>)
    | JObj(fields: map<string, Json>)

  /** The length of a MongoDB ObjectId in hex. */
  const IdLength: nat := 24

  /** `Joi.string().length(24).required()`. */
  predicate IsIdString(j: Json) {
    j.JStr? && |j.s| == IdLength
  }

  /** `Joi.number().min(m).required()`. */
  predicate NumberAtLeast(j: Json, m: real) {
    j.JNum? && j.n >= m
  }

  /** `Joi.object({_id: Joi.string().length(24).required()}).unknown(true)`:
      an object with a 24-character `_id`; other keys are allowed. */
  predicate IsRef(j: Json) {
    j.JObj? && "_id" in j.fields && IsIdString(j.fields["_id"])
  }

  /** One order item: `product` a reference and `qty` at least 1, and no
      other keys. */
  predicate IsOrderItem(j: Json) {
    && j.JObj?
    && j.fields.Keys <= {"product", "qty"}
    && "product" in j.fields && IsRef(j.fields["product"])
    && "qty" in j.fields && NumberAtLeast(j.fields["qty"], 1.0)
  }

  /** `createOrderValidationSchema`: `amount` at least 1, `address` a
      reference, `orderItems` a non-empty array of order items, and no
      other keys. */
  predicate ValidCreateOrder(j: Json) {
    && j.JObj?
    && j.fields.Keys <= {"amount", "address", "orderItems"}
    && "amount" in j.fields && NumberAtLeast(j.fields["amount"], 1.0)
    && "address" in j.fields && IsRef(j.fields["address"])
    && "orderItems" in j.fields && j.fields["orderItems"].JArr?
    && |j.fields["orderItems"].items| >= 1
    && forall k :: 0 <= k < |j.fields["orderItems"].items| ==> IsOrderItem(j.fields["orderItems"].items[k])
  }

  const PaymentStatusNames: set<string> := {"PENDING", "SUCCESS", "FAILED"}

  /** `completePaymentValidationSchema`: `_id` of 24 characters and
      `paymentStatus` one of the three status names, and no other keys. */
  predicate ValidCompletePayment(j: Json) {
    && j.JObj?
    && j.fields.Keys <= {"_id", "paymentStatus"}
    && "_id" in j.fields && IsIdString(j.fields["_id"])
    && "paymentStatus" in j.fields && j.fields["paymentStatus"].JStr?
    && j.fields["paymentStatus"].s in PaymentStatusNames
  }

  function StatusName(s: PaymentStatus): string {
    match s
    case PENDING => "PENDING"
    case SUCCESS => "SUCCESS"
    case FAILED => "FAILED"
  }

  /** The status a name stands for. */
  function ParseStatus(name: string): (r: Option<PaymentStatus>)
    ensures r.Some? <==> name in PaymentStatusNames
    ensures r.Some? ==> StatusName(r.value) == name
  {
    if name == "PENDING" then Some(PENDING)
    else if name == "SUCCESS" then Some(SUCCESS)
    else if name == "FAILED" then Some(FAILED)
    else None
  }

  // ----- Encoders: the bodies a well-behaved client sends -----

  function EncodeRef(id: string): Json {
    JObj(map["_id" := JStr(id)])
  }

  function EncodeItem(productId: string, qty: real): Json {
    JObj(map["product" := EncodeRef(productId), "qty" := JNum(qty)])
  }

  /** A line of a client's order: product id and quantity. */
  datatype Line = Line(productId: string, qty: real)

  function EncodeItems(lines: seq<Line>): (r: seq<Json>)
    ensures |r| == |lines|
    ensures forall k :: 0 <= k < |lines| ==> r[k] == EncodeItem(lines[k].productId, lines[k].qty)
  {
    seq(|lines|, k requires 0 <= k < |lines| => EncodeItem(lines[k].productId, lines[k].qty))
  }

  function EncodeCreateOrder(amount: real, addressId: string, lines: seq<Line>): Json {
    JObj(map["amount" := JNum(amount), "address" := EncodeRef(addressId), "orderItems" := JArr(EncodeItems(lines))])
  }

  function EncodeCompletePayment(id: string, status: PaymentStatus): Json {
    JObj(map["_id" := JStr(id), "paymentStatus" := JStr(StatusName(status))])
  }

  /** A create-order body built from typed values is accepted exactly when
      the amount is at least 1, the address id has 24 characters, there is
      at least one line, and every line has a 24-character product id and a
      quantity of at least 1. */
  lemma CreateOrderAccepts(amount: real, addressId: string, lines: seq<Line>)
    ensures ValidCreateOrder(EncodeCreateOrder(amount, addressId, lines)) <==>
      && amount >= 1.0
      && |addressId| == IdLength
      && |lines| >= 1
      && forall k :: 0 <= k < |lines| ==> |lines[k].productId| == IdLength && lines[k].qty >= 1.0
  {
    var j := EncodeCreateOrder(amount, addressId, lines);
    var items := EncodeItems(lines);
    assert j.fields["orderItems"].items == items;
    assert j.fields["address"] == EncodeRef(addressId);
    assert j.fields["amount"] == JNum(amount);
    forall k | 0 <= k < |lines|
      ensures IsOrderItem(items[k]) <==> |lines[k].productId| == IdLength && lines[k].qty >= 1.0
    {
      var f := items[k].fields;
      assert f["product"] == EncodeRef(lines[k].productId);
      assert f["qty"] == JNum(lines[k].qty);
      assert f.Keys == {"product", "qty"};
    }
    assert j.fields.Keys == {"amount", "address", "orderItems"};
  }

  /** A complete-payment body is accepted for every status, PENDING
      included, exactly when the id has 24 characters. */
  lemma CompletePaymentAccepts(id: string, status: PaymentStatus)
    ensures ValidCompletePayment(EncodeCompletePayment(id, status)) <==> |id| == IdLength
  {
    var j := EncodeCompletePayment(id, status);
    assert j.fields.Keys == {"_id", "paymentStatus"};
    assert j.fields["paymentStatus"] == JStr(StatusName(status));
  }

  /** The id and status of an accepted complete-payment body. */
  function DecodeCompletePayment(j: Json): (r: (string, PaymentStatus))
    requires ValidCompletePayment(j)
    ensures r.0 == j.fields["_id"].s && StatusName(r.1) == j.fields["paymentStatus"].s
  {
    (j.fields["_id"].s, ParseStatus(j.fields["paymentStatus"].s).value)
  }

  /** Encoding then decoding a complete-payment body gives back the id and
      the status. */
  lemma DecodeEncodeCompletePayment(id: string, status: PaymentStatus)
    requires |id| == IdLength
    ensures ValidCompletePayment(EncodeCompletePayment(id, status))
    ensures DecodeCompletePayment(EncodeCompletePayment(id, status)) == (id, status)
  {
    CompletePaymentAccepts(id, status);
    var r := DecodeCompletePayment(EncodeCompletePayment(id, status));
    assert StatusName(r.1) == StatusName(status);
  }

  /** A key outside the schema makes the create-order body invalid, while
      extra keys inside `address` are let through. */
  lemma UnknownKeys(j: Json, key: string, v: Json)
    requires ValidCreateOrder(j)
    ensures key !in {"amount", "address", "orderItems"} ==> !ValidCreateOrder(JObj(j.fields[key := v]))
    ensures key != "_id" ==>
      ValidCreateOrder(JObj(j.fields["address" := JObj(j.fields["address"].fields[key := v])]))
  {
    if key !in {"amount", "address", "orderItems"} {
      assert key in JObj(j.fields[key := v]).fields.Keys;
    }
    if key != "_id" {
      var addr := JObj(j.fields["address"].fields[key := v]);
      var j2 := JObj(j.fields["address" := addr]);
      assert j2.fields["orderItems"] == j.fields["orderItems"];
      assert j2.fields["amount"] == j.fields["amount"];
      assert IsRef(addr);
    }
  }
}
