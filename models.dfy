/** The five persisted records.  Nullable timestamps, an order's
    requirements text and a content row's quality score are `Option`s.
    The other nullable columns are plain fields and taken as always set,
    since the code always fills them: an order's description, word count,
    status and priority, a template's default word count and active flag.
    `User` and `Payment` are defined from how the routes use them. */
module Models {
  import opened Common
  import opened Json

  datatype User = User(
    id: nat, username: string, email: string, passwordHash: string,
    firstName: string, lastName: string, isAdmin: bool, isActive: bool)

  datatype ContentTemplate = ContentTemplate(
    id: nat, name: string, contentType: string, templatePrompt: string,
    defaultWordCount: int, basePrice: real, isActive: bool, createdAt: Option<Clock>)

  datatype Order = Order(
    id: nat, userId: nat, contentType: string, title: string, description: string,
    requirements: Option<string>,   // JSON text, NULL when never set
    status: string, priority: string, wordCount: int, price: real,
    createdAt: Option<Clock>, completedAt: Option<Clock>)

  datatype Content = Content(
    id: nat, orderId: nat, generatedContent: string, contentFormat: string,
    qualityScore: Option<real>, revisionCount: int, isApproved: bool, createdAt: Option<Clock>)

  datatype Payment = Payment(
    id: nat, userId: nat, orderId: nat, amount: real, currency: string,
    paymentMethod: string, stripePaymentId: string, status: string, createdAt: Clock)

  // ---------------------------------------------------------------------
  // Rows as the ORM builds them: the columns a caller leaves out take
  // their declared defaults.

  /** `ContentTemplate(...)`: default_word_count 500 and is_active true
      unless given. */
  function NewTemplate(id: nat, name: string, contentType: string, templatePrompt: string,
                       defaultWordCount: Option<int>, basePrice: real, isActive: Option<bool>,
                       now: Clock): (t: ContentTemplate)
    ensures t.defaultWordCount == (if defaultWordCount.Some? then defaultWordCount.value else 500)
    ensures t.isActive == (isActive.None? || isActive.value)
    ensures t.name == name && t.contentType == contentType && t.templatePrompt == templatePrompt
    ensures t.basePrice == basePrice && t.createdAt == Some(now)
  {
    ContentTemplate(id, name, contentType, templatePrompt, defaultWordCount.GetOr(500),
                    basePrice, isActive.GetOr(true), Some(now))
  }

  /** `Order(...)` with the NOT NULL columns and the description given (the
      description column has no default; the model writes NULL as ""):
      pending, medium priority, price 0.0, no requirements, not completed. */
  function NewOrder(id: nat, userId: nat, contentType: string, title: string, description: string,
                    wordCount: int, now: Clock): (o: Order)
    ensures o.status == "pending" && o.priority == "medium" && o.price == 0.0
    ensures o.requirements.None? && o.completedAt.None? && o.createdAt == Some(now)
    ensures GetRequirements(o) == []
    ensures o.id == id && o.userId == userId && o.contentType == contentType && o.title == title
    ensures o.description == description && o.wordCount == wordCount
  {
    Order(id, userId, contentType, title, description, None, "pending", "medium", wordCount, 0.0,
          Some(now), None)
  }

  /** `Content(order_id=..., generated_content=...)`: markdown, no score,
      no revisions, not approved. */
  function NewContent(id: nat, orderId: nat, generatedContent: string, now: Clock): (c: Content)
    ensures c.contentFormat == "markdown" && c.qualityScore.None?
    ensures c.revisionCount == 0 && !c.isApproved
    ensures c.id == id && c.orderId == orderId && c.generatedContent == generatedContent
    ensures c.createdAt == Some(now)
  {
    Content(id, orderId, generatedContent, "markdown", None, 0, false, Some(now))
  }

  // ---------------------------------------------------------------------
  // Order.set_requirements / Order.get_requirements

  /** `get_requirements`: the stored JSON decoded, `{}` when the column is
      NULL or empty or does not decode. */
  function GetRequirements(o: Order): (r: Dict)
    ensures o.requirements.None? || o.requirements == Some("") ==> r == []
    ensures o.requirements.Some? && Decode(o.requirements.value).None? ==> r == []
    ensures o.requirements.Some? && Decode(o.requirements.value).Some? ==> r == Decode(o.requirements.value).value
  {
    match o.requirements
    case None => []
    case Some(text) =>
      if text == "" then []
      else
        match Decode(text)
        case Some(m) => m
        case None => []
  }

  /** `set_requirements`: stores `json.dumps(m)`; reading it back gives `m`
      and no other column changes. */
  function SetRequirements(o: Order, m: Dict): (r: Order)
    ensures GetRequirements(r) == m
    ensures r.(requirements := o.requirements) == o
    ensures r.requirements.Some?
  {
    RoundTrip(m);
    o.(requirements := Some(Encode(m)))
  }

  // ---------------------------------------------------------------------
  // to_dict

  datatype OrderDict = OrderDict(
    id: nat, userId: nat, contentType: string, title: string, description: string,
    requirements: Dict, status: string, priority: string, wordCount: int, price: real,
    createdAt: Option<Clock>, completedAt: Option<Clock>)

  datatype ContentDict = ContentDict(
    id: nat, orderId: nat, generatedContent: string, contentFormat: string,
    qualityScore: Option<real>, revisionCount: int, isApproved: bool, createdAt: Option<Clock>)

  datatype TemplateDict = TemplateDict(
    id: nat, name: string, contentType: string, templatePrompt: string,
    defaultWordCount: int, basePrice: real, isActive: bool, createdAt: Option<Clock>)

  /** `Order.to_dict`: requirements go through `get_requirements`. */
  function OrderToDict(o: Order): (d: OrderDict)
    ensures d.requirements == GetRequirements(o)
    ensures d.createdAt == o.createdAt && d.completedAt == o.completedAt
  {
    OrderDict(o.id, o.userId, o.contentType, o.title, o.description, GetRequirements(o),
              o.status, o.priority, o.wordCount, o.price, o.createdAt, o.completedAt)
  }

  function ContentToDict(c: Content): ContentDict {
    ContentDict(c.id, c.orderId, c.generatedContent, c.contentFormat, c.qualityScore,
                c.revisionCount, c.isApproved, c.createdAt)
  }

  function TemplateToDict(t: ContentTemplate): TemplateDict {
    TemplateDict(t.id, t.name, t.contentType, t.templatePrompt, t.defaultWordCount,
                 t.basePrice, t.isActive, t.createdAt)
  }

  /** `Content.to_dict` copies every column: two rows with the same dict are
      the same row. */
  lemma ContentToDictInjective(a: Content, b: Content)
    requires ContentToDict(a) == ContentToDict(b)
    ensures a == b
  {
  }

  /** `ContentTemplate.to_dict` copies every column. */
  lemma TemplateToDictInjective(a: ContentTemplate, b: ContentTemplate)
    requires TemplateToDict(a) == TemplateToDict(b)
    ensures a == b
  {
  }

  /** `Order.to_dict` loses only the spelling of the stored requirements text. */
  lemma OrderToDictInjective(a: Order, b: Order)
    requires OrderToDict(a) == OrderToDict(b)
    ensures a.(requirements := b.requirements) == b
    ensures GetRequirements(a) == GetRequirements(b)
  {
  }

  /** What the dict reports for requirements is what was last set. */
  lemma OrderDictAfterSet(o: Order, m: Dict)
    ensures OrderToDict(SetRequirements(o, m)).requirements == m
  {
  }
}
