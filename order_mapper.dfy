/**
  Field-copying conversions between the order-intake request and response
  shapes and the order event that travels through the pipeline.
 */
module OrderMapper {
  import opened CommonModel

  /** An incoming order; the requested instant is in milliseconds. */
  datatype OrderRequest = OrderRequest(items: seq<OrderItem>, customerName: string, requestedAt: int)

  datatype OrderResponse = OrderResponse(
    orderId: string,
    customerName: string,
    items: seq<OrderItem>,
    status: InventoryStatus,
    message: string)

  /** The response for an event: its four fields and the caller's message. */
  function ToResponse(event: OrderEvent, message: string): (r: OrderResponse)
    ensures r.orderId == event.orderId && r.customerName == event.customerName
    ensures r.items == event.items && r.status == event.status
    ensures r.message == message
  {
    OrderResponse(event.orderId, event.customerName, event.items, event.status, message)
  }

  /** A new order event: the given id, the request's customer and items, PENDING. */
  function ToEvent(request: OrderRequest, orderId: string): (e: OrderEvent)
    ensures e.status == PENDING
    ensures e.orderId == orderId
    ensures e.customerName == request.customerName && e.items == request.items
  {
    OrderEvent(orderId, request.customerName, request.items, PENDING)
  }

  /** The event a response describes: its fields without the message. */
  function EventOf(response: OrderResponse): OrderEvent
  {
    OrderEvent(response.orderId, response.customerName, response.items, response.status)
  }

  /** A response loses nothing of its event: the event can be rebuilt from it. */
  lemma EventOfToResponse(event: OrderEvent, message: string)
    ensures EventOf(ToResponse(event, message)) == event
  {
  }

  /** The response to a newly created order reports it as PENDING under its new id. */
  lemma ResponseToNewOrder(request: OrderRequest, orderId: string, message: string)
    ensures var r := ToResponse(ToEvent(request, orderId), message);
      r == OrderResponse(orderId, request.customerName, request.items, PENDING, message)
  {
  }
}
