/**
 * The order submission handler: validate the request, store the order with its
 * normalised name, queue the `order.created` webhook, answer with the success message.
 *
 * The database table and the webhook queue are fields of the controller object: the
 * table is a sequence of orders with an auto-increment counter, the queue an outbox of
 * webhook calls waiting for delivery. Delivery itself, signing and retries happen
 * outside this model.
 */
module OrderSubmission {
  import opened Wrappers
  import opened NameNormalization
  import opened OrderValidation

  /** A row of the orders table. */
  datatype Order = Order(id: nat, customerName: string, amount: string)

  /** The JSON body of the webhook. */
  datatype WebhookPayload = WebhookPayload(event: string, orderId: nat, customerName: string, amount: string)

  /** A webhook call handed to the queue: where it goes, what it carries, the key it is signed with. */
  datatype WebhookCall = WebhookCall(url: string, payload: WebhookPayload, secret: string)

  /** What the handler answers: a redirect back with the success flash, or with the validation errors. */
  datatype Response = Created(success: string) | Rejected(errors: seq<FieldError>)

  const OrderCreatedEvent := "order.created"
  const WebhookUrl := "https://webhook.site/12fe3aae-dcc6-468f-bf90-e6183dbaafbf"
  const SuccessMessage := "Order Created & Webhook Sent!"

  /** The payload announcing `order`, built from the stored row. */
  function PayloadFor(order: Order): (payload: WebhookPayload) {
    WebhookPayload(OrderCreatedEvent, order.id, order.customerName, order.amount)
  }

  /** The webhook calls announcing `orders`, one per order and in the same order. */
  function CallsFor(orders: seq<Order>, secret: string): (calls: seq<WebhookCall>)
    ensures |calls| == |orders|
    ensures forall i | 0 <= i < |orders| :: calls[i] == WebhookCall(WebhookUrl, PayloadFor(orders[i]), secret)
  {
    if orders == [] then []
    else CallsFor(orders[..|orders| - 1], secret) + [WebhookCall(WebhookUrl, PayloadFor(orders[|orders| - 1]), secret)]
  }

  class OrderController {
    /** The configured signing secret of the webhook server. */
    const signingSecret: string
    /** The orders table, in insertion order. */
    var orders: seq<Order>
    /** The id the next inserted order receives. */
    var nextId: nat
    /** The webhook calls queued for delivery, in dispatch order. */
    var outbox: seq<WebhookCall>

    /** Ids are positive, increase with insertion and stay below the counter. */
    ghost predicate IdsValid()
      reads this`orders, this`nextId
    {
      && 0 < nextId
      && (forall i | 0 <= i < |orders| :: 0 < orders[i].id < nextId)
      && (forall i, j | 0 <= i < j < |orders| :: orders[i].id < orders[j].id)
    }

    /** Every stored order has exactly its own webhook call in the outbox, in the same order. */
    ghost predicate Valid()
      reads this
    {
      && IdsValid()
      && outbox == CallsFor(orders, signingSecret)
    }

    constructor (secret: string)
      ensures Valid()
      ensures signingSecret == secret && orders == [] && outbox == [] && nextId == 1
    {
      signingSecret := secret;
      orders := [];
      nextId := 1;
      outbox := [];
    }

    /** `Order::create`: insert a row under a fresh id. */
    method CreateOrder(customerName: string, amount: string) returns (order: Order)
      requires IdsValid()
      modifies this`orders, this`nextId
      ensures IdsValid()
      ensures order == Order(old(nextId), customerName, amount)
      ensures orders == old(orders) + [order] && nextId == old(nextId) + 1
      ensures forall o | o in old(orders) :: o.id < order.id
    {
      order := Order(nextId, customerName, amount);
      orders := orders + [order];
      nextId := nextId + 1;
    }

    /** `WebhookCall::create()->url(...)->payload(...)->useSecret(...)->dispatch()`: queue one call. */
    method DispatchWebhook(payload: WebhookPayload)
      modifies this`outbox
      ensures outbox == old(outbox) + [WebhookCall(WebhookUrl, payload, signingSecret)]
    {
      outbox := outbox + [WebhookCall(WebhookUrl, payload, signingSecret)];
    }

    /**
     * The steps of `OrderController::store` after validation: store the order with the
     * normalised name and the raw amount under a fresh id, then queue its webhook call.
     */
    method CreateAndAnnounce(input: ValidInput) returns (order: Order)
      requires Valid()
      modifies this
      ensures Valid()
      ensures order == Order(old(nextId), Normalize(input.customerName), input.amount)
      ensures orders == old(orders) + [order] && nextId == old(nextId) + 1
      ensures forall o | o in old(orders) :: o.id != order.id
      ensures outbox == old(outbox) + [WebhookCall(WebhookUrl, PayloadFor(order), signingSecret)]
    {
      var name := Normalize(input.customerName);
      order := CreateOrder(name, input.amount);
      DispatchWebhook(PayloadFor(order));
      assert orders[..|orders| - 1] == old(orders);
    }

    /**
     * `OrderController::store`. A rejected request leaves the table, the counter and the
     * outbox as they were. An accepted one appends exactly one order, under an id no
     * earlier order has, with the normalised name and the raw amount, then queues exactly
     * one `order.created` call describing that order.
     */
    method Store(request: Request, toNumber: string -> Option<real>) returns (response: Response)
      requires Valid()
      modifies this
      ensures Valid()
      ensures Validate(request, toNumber).Err? ==>
        && response == Rejected(Validate(request, toNumber).error)
        && orders == old(orders) && outbox == old(outbox) && nextId == old(nextId)
      ensures Validate(request, toNumber).Ok? ==>
        var input := Validate(request, toNumber).value;
        var order := Order(old(nextId), Normalize(input.customerName), input.amount);
        && response == Created(SuccessMessage)
        && orders == old(orders) + [order] && nextId == old(nextId) + 1
        && (forall o | o in old(orders) :: o.id != order.id)
        && outbox == old(outbox) + [WebhookCall(WebhookUrl, WebhookPayload(OrderCreatedEvent, order.id, order.customerName, order.amount), signingSecret)]
    {
      var validated := Validate(request, toNumber);
      if validated.Err? {
        return Rejected(validated.error);
      }
      var _ := CreateAndAnnounce(validated.value);
      response := Created(SuccessMessage);
    }
  }

  /**
   * Two submissions of the same valid form create two orders with different ids and
   * the same stored fields: the handler does not deduplicate.
   */
  method SubmitTwice(request: Request, toNumber: string -> Option<real>, secret: string)
    returns (first: Order, second: Order)
    requires Validate(request, toNumber).Ok?
    ensures first.id != second.id
    ensures first.customerName == second.customerName == Normalize(request.customerName.value.text)
    ensures first.amount == second.amount == request.amount.value.text
  {
    var controller := new OrderController(secret);
    var _ := controller.Store(request, toNumber);
    var _ := controller.Store(request, toNumber);
    first, second := controller.orders[0], controller.orders[1];
  }

  /**
   * The valid submission "Jane Doe" / "50": one order is created, the queued webhook
   * carries its id, and the answer is the success message.
   */
  method SubmitJaneDoe(toNumber: string -> Option<real>, secret: string)
    returns (response: Response, order: Order, call: WebhookCall)
    requires toNumber("50") == Some(50.0)
    ensures response == Created(SuccessMessage)
    ensures order.customerName == "Jane Doe" && order.amount == "50"
    ensures call.payload == WebhookPayload(OrderCreatedEvent, order.id, "Jane Doe", "50")
    ensures call.url == WebhookUrl && call.secret == secret
  {
    var controller := new OrderController(secret);
    var request := Request(Some(Text("Jane Doe")), Some(Text("50")));
    JaneDoeAccepted(request, toNumber);
    JaneDoeNormalForm("Jane Doe");
    response := controller.Store(request, toNumber);
    order, call := controller.orders[0], controller.outbox[0];
  }

  /** "Jane Doe" is already in normal form. */
  lemma JaneDoeNormalForm(name: string)
    requires name == "Jane Doe"
    ensures LettersAndWhitespace(name) && Normalize(name) == name
  {
    assert name == "Jane" + " " + "Doe";
    assert IsWord("Jane") && IsWord("Doe");
    SpacedWordsNormalForm("Jane", "Doe");
  }

  /** "Jane Doe" / "50" passes validation. */
  lemma JaneDoeAccepted(request: Request, toNumber: string -> Option<real>)
    requires request == Request(Some(Text("Jane Doe")), Some(Text("50")))
    requires toNumber("50") == Some(50.0)
    ensures Validate(request, toNumber) == Ok(ValidInput("Jane Doe", "50"))
  {
    var name, amount := request.customerName.value.text, request.amount.value.text;
    assert NameAccepted(request.customerName) by {
      JaneDoeNormalForm(name);
      TrimKeepsInnerCharacter(name, 0);
    }
    assert AmountAccepted(request.amount, toNumber) by {
      TrimKeepsInnerCharacter(amount, 0);
    }
  }
}
