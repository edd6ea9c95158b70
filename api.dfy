/** The JSON replies of the handlers: a status code, the `message` field
    (for failures, the one the handler's `except` branch or guard sends),
    and the data fields the reply carries. */
module Api {
  import opened Common
  import opened Models

  datatype Body =
    | NoBody
    | OrderList(orders: seq<OrderDict>)
    | OrderBody(order: OrderDict)
    | OrderWithContent(order: OrderDict, orderContent: Option<ContentDict>)
    | TemplateList(templates: seq<TemplateDict>)
    | Intent(intentId: string, clientSecret: string, amount: real, currency: string, paymentId: nat)
    | Confirmation(payment: Payment, order: OrderDict, contentGenerated: bool)
    | PaymentList(payments: seq<Payment>)
    | PaymentBody(payment: Payment)
    | GeneratedBody(content: ContentDict, order: OrderDict)
    | ContentBody(content: ContentDict)
    | PreviewBody(preview: string)
    | UserBody(user: User)
    | TokenBody(token: string, claims: Claims, tokenUser: Option<User>)
    | ErrorDetail(error: string)   // the `error` field of a failed generation or preview

  /** The payload signed into a token: `{'user_id': ..., 'exp': ...}`. */
  datatype Claims = Claims(userId: nat, exp: Clock)

  datatype Reply = Reply(code: int, message: string, body: Body)

  function Fail(code: int, message: string): Reply {
    Reply(code, message, NoBody)
  }
}
