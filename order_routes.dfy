/** The order blueprint: list, create, get, update and delete orders, and
    list the content templates. */
module OrderRoutes {
  import opened Common
  import opened Json
  import opened Models
  import opened Store
  import opened Api

  /** `order.user_id == current_user.id or current_user.is_admin` */
  predicate CanAccess(caller: User, o: Order) {
    o.userId == caller.id || caller.isAdmin
  }

  function OrderDicts(os: seq<Order>): (ds: seq<OrderDict>)
    ensures |ds| == |os| && forall i :: 0 <= i < |os| ==> ds[i] == OrderToDict(os[i])
  {
    seq(|os|, i requires 0 <= i < |os| => OrderToDict(os[i]))
  }

  // ---------------------------------------------------------------------
  // GET /orders

  /** `Order.query.filter_by(user_id=...).all()`, in table order. */
  function OwnedBy(os: seq<Order>, userId: nat): (r: seq<Order>)
    ensures forall o :: o in r <==> o in os && o.userId == userId
    ensures |r| <= |os|
  {
    if |os| == 0 then []
    else (if os[0].userId == userId then [os[0]] else []) + OwnedBy(os[1..], userId)
  }

  /** Owned rows are kept in table order: the first row of `os` the user
      owns heads the list. */
  lemma {:induction false} OwnedByKeepsOrder(os: seq<Order>, userId: nat, k: nat)
    requires k < |os| && os[k].userId == userId
    requires forall j :: 0 <= j < k ==> os[j].userId != userId
    ensures |OwnedBy(os, userId)| > 0 && OwnedBy(os, userId)[0] == os[k]
    decreases k
  {
    if k > 0 {
      OwnedByKeepsOrder(os[1..], userId, k - 1);
    }
  }

  function GetOrdersSpec(st: Db, caller: User): (r: Reply)
    ensures r.code == 200 && r.body.OrderList?
    ensures caller.isAdmin ==> r.body.orders == OrderDicts(st.orders)
    ensures !caller.isAdmin ==> r.body.orders == OrderDicts(OwnedBy(st.orders, caller.id))
  {
    var visible := if caller.isAdmin then st.orders else OwnedBy(st.orders, caller.id);
    Reply(200, "", OrderList(OrderDicts(visible)))
  }

  /** A non-admin's list holds exactly the caller's orders. */
  lemma ListedOrdersAreOwn(st: Db, caller: User, d: OrderDict)
    requires !caller.isAdmin
    ensures d in GetOrdersSpec(st, caller).body.orders <==>
            exists o :: o in st.orders && o.userId == caller.id && OrderToDict(o) == d
  {
    var own := OwnedBy(st.orders, caller.id);
    DictsOf(own, d);
    if exists o :: o in st.orders && o.userId == caller.id && OrderToDict(o) == d {
      var o :| o in st.orders && o.userId == caller.id && OrderToDict(o) == d;
      assert o in own;
    }
  }

  /** A dict is listed exactly when some listed order converts to it. */
  lemma DictsOf(os: seq<Order>, d: OrderDict)
    ensures d in OrderDicts(os) <==> exists o :: o in os && OrderToDict(o) == d
  {
    var ds := OrderDicts(os);
    if d in ds {
      var i :| 0 <= i < |ds| && ds[i] == d;
      assert os[i] in os;
    }
    if exists o :: o in os && OrderToDict(o) == d {
      var o :| o in os && OrderToDict(o) == d;
      var i :| 0 <= i < |os| && os[i] == o;
      assert ds[i] == d;
    }
  }

  // ---------------------------------------------------------------------
  // POST /orders

  datatype CreateOrderBody = CreateOrderBody(
    contentType: Option<string>, title: Option<string>, wordCount: Option<int>,
    description: Option<string>, priority: Option<string>, requirements: Option<Dict>)

  const OrderRequired := ["content_type", "title"]

  function CreateOrderFields(b: CreateOrderBody): set<string> {
    (if b.contentType.Some? then {"content_type"} else {}) +
    (if b.title.Some? then {"title"} else {})
  }

  /** The row `create_order` builds from the body, the caller and the
      template, before the requirements are set. */
  function OrderFromBody(id: nat, caller: User, b: CreateOrderBody, t: ContentTemplate, now: Clock): (o: Order)
    requires b.contentType.Some? && b.title.Some? && t.defaultWordCount != 0
    ensures o.userId == caller.id && o.contentType == b.contentType.value && o.title == b.title.value
    ensures o.wordCount == b.wordCount.GetOr(t.defaultWordCount)
    ensures o.description == b.description.GetOr("") && o.priority == b.priority.GetOr("medium")
    ensures o.status == "pending" && o.requirements.None? && o.completedAt.None?
    ensures o.price == t.basePrice * (o.wordCount as real / t.defaultWordCount as real)
  {
    var wordCount := b.wordCount.GetOr(t.defaultWordCount);
    NewOrder(id, caller.id, b.contentType.value, b.title.value, b.description.GetOr(""), wordCount, now)
      .(priority := b.priority.GetOr("medium"),
        price := t.basePrice * (wordCount as real / t.defaultWordCount as real))
  }

  /** `if data.get('requirements'): order.set_requirements(...)` */
  predicate RequirementsGiven(b: CreateOrderBody) {
    b.requirements.Some? && |b.requirements.value| > 0
  }

  /** The row `create_order` adds: the requirements are stored only when
      the body brings a non-empty map. */
  function PlacedOrder(id: nat, caller: User, b: CreateOrderBody, t: ContentTemplate, now: Clock): (o: Order)
    requires b.contentType.Some? && b.title.Some? && t.defaultWordCount != 0
    ensures o.(requirements := None) == OrderFromBody(id, caller, b, t, now)
    ensures RequirementsGiven(b) ==> GetRequirements(o) == b.requirements.value
    ensures !RequirementsGiven(b) ==> o.requirements.None?
  {
    var o := OrderFromBody(id, caller, b, t, now);
    if RequirementsGiven(b) then SetRequirements(o, b.requirements.value) else o
  }

  /** `create_order`: the guards in the handler's order, then the new row. */
  function CreateOrderSpec(st: Db, caller: User, b: CreateOrderBody, now: Clock): (Reply, Db)
  {
    // the loop over required_fields, unrolled (see CreateOrderMissingField)
    if b.contentType.None? then (Fail(400, RequiredMessage("content_type")), st)
    else if b.title.None? then (Fail(400, RequiredMessage("title")), st)
    else
      match ActiveTemplate(st, b.contentType.value)
      case None => (Fail(400, "Invalid content type"), st)
      case Some(t) =>
        // word_count / template.default_word_count raises ZeroDivisionError
        if t.defaultWordCount == 0 then (Fail(500, "Failed to create order"), st)
        else
          var o' := PlacedOrder(st.nextOrderId, caller, b, t, now);
          (Reply(201, "Order created successfully", OrderBody(OrderToDict(o'))),
           st.(orders := st.orders + [o'], nextOrderId := st.nextOrderId + 1))
  }

  /** The required-field loop of `create_order` reports content_type first,
      then title. */
  lemma CreateOrderMissingField(b: CreateOrderBody)
    ensures MissingField(OrderRequired, CreateOrderFields(b))
         == if b.contentType.None? then Some("content_type")
            else if b.title.None? then Some("title") else None
  {
    assert OrderRequired[1..] == ["title"];
    assert OrderRequired[1..][1..] == [];
  }

  /** `create_order` stores nothing unless it answers 201, and answers 400
      for a missing field or an unknown or inactive content type. */
  lemma CreateOrderRejects(st: Db, caller: User, b: CreateOrderBody, now: Clock)
    ensures var r := CreateOrderSpec(st, caller, b, now);
      && (r.0.code != 201 ==> r.1 == st)
      && (b.contentType.None? ==> r.0 == Fail(400, "content_type is required"))
      && (b.contentType.Some? && b.title.None? ==> r.0 == Fail(400, "title is required"))
      && (b.contentType.Some? && b.title.Some? && ActiveTemplate(st, b.contentType.value).None? ==>
            r.0 == Fail(400, "Invalid content type"))
      && (r.0.code == 201 <==>
            && b.contentType.Some? && b.title.Some?
            && ActiveTemplate(st, b.contentType.value).Some?
            && ActiveTemplate(st, b.contentType.value).value.defaultWordCount != 0)
  {
  }

  /** A created order is appended with the next key, owned by the caller,
      built from the body with the handler's defaults, and carries the
      requirements exactly when a non-empty map was sent. */
  lemma CreateOrderAdds(st: Db, caller: User, b: CreateOrderBody, now: Clock)
    requires CreateOrderSpec(st, caller, b, now).0.code == 201
    ensures b.contentType.Some? && b.title.Some? && ActiveTemplate(st, b.contentType.value).Some?
    ensures var r := CreateOrderSpec(st, caller, b, now);
      && |r.1.orders| == |st.orders| + 1 && r.1.orders[..|st.orders|] == st.orders
      && var o := r.1.orders[|st.orders|];
      && var t := ActiveTemplate(st, b.contentType.value).value;
      && o.id == st.nextOrderId && o.userId == caller.id && o.status == "pending"
      && o.wordCount == b.wordCount.GetOr(t.defaultWordCount)
      && o.description == b.description.GetOr("") && o.priority == b.priority.GetOr("medium")
      && o.(requirements := None) == OrderFromBody(st.nextOrderId, caller, b, t, now)
      && (RequirementsGiven(b) ==> GetRequirements(o) == b.requirements.value)
      && (!RequirementsGiven(b) ==> o.requirements.None? && GetRequirements(o) == [])
      && r.1 == st.(orders := st.orders + [o], nextOrderId := st.nextOrderId + 1)
      && r.0 == Reply(201, "Order created successfully", OrderBody(OrderToDict(o)))
  {
  }

  /** The new row of `create_order`, added to the session. */
  method PlaceOrder(db: Database, caller: User, b: CreateOrderBody, t: ContentTemplate, now: Clock)
    returns (order: Order)
    requires b.contentType.Some? && b.title.Some? && t.defaultWordCount != 0
    modifies db
    ensures order == PlacedOrder(old(db.nextOrderId), caller, b, t, now)
    ensures db.State() == old(db.State()).(orders := old(db.orders) + [order], nextOrderId := old(db.nextOrderId) + 1)
  {
    order := OrderFromBody(db.nextOrderId, caller, b, t, now);
    if RequirementsGiven(b) {
      order := SetRequirements(order, b.requirements.value);
    }
    db.orders := db.orders + [order];
    db.nextOrderId := db.nextOrderId + 1;
  }

  /** The `for field in required_fields` loop of `create_order`. */
  method CheckOrderFields(b: CreateOrderBody) returns (missing: Option<string>)
    ensures missing == if b.contentType.None? then Some("content_type")
                       else if b.title.None? then Some("title") else None
  {
    missing := FirstMissing(OrderRequired, CreateOrderFields(b));
    CreateOrderMissingField(b);
  }

  method CreateOrder(db: Database, caller: User, b: CreateOrderBody, now: Clock) returns (reply: Reply)
    modifies db
    ensures (reply, db.State()) == CreateOrderSpec(old(db.State()), caller, b, now)
  {
    var missing := CheckOrderFields(b);
    if missing.Some? {
      return Fail(400, RequiredMessage(missing.value));
    }
    var template := ActiveTemplate(db.State(), b.contentType.value);
    if template.None? {
      return Fail(400, "Invalid content type");
    }
    var t := template.value;
    if t.defaultWordCount == 0 {
      return Fail(500, "Failed to create order");
    }
    var order := PlaceOrder(db, caller, b, t, now);
    return Reply(201, "Order created successfully", OrderBody(OrderToDict(order)));
  }

  // ---------------------------------------------------------------------
  // GET /orders/<id>

  /** `get_or_404` raises inside the handler's `try`, so a missing order is
      answered by the `except` branch with 500. */
  function GetOrderSpec(st: Db, caller: User, id: nat): (r: Reply)
    ensures OrderIndex(st, id).None? ==> r == Fail(500, "Failed to fetch order")
    ensures OrderIndex(st, id).Some? && !CanAccess(caller, st.orders[OrderIndex(st, id).value])
            ==> r == Fail(403, "Access denied")
    ensures OrderIndex(st, id).Some? && CanAccess(caller, st.orders[OrderIndex(st, id).value])
            ==> r.code == 200
    ensures r.code == 200 ==>
      && OrderIndex(st, id).Some?
      && var o := st.orders[OrderIndex(st, id).value];
      && CanAccess(caller, o) && r.body.OrderWithContent? && r.body.order == OrderToDict(o)
      && (r.body.orderContent.Some? <==> ContentOfOrder(st, id).Some?)
      && (r.body.orderContent.Some? ==> r.body.orderContent.value == ContentToDict(st.contents[ContentOfOrder(st, id).value]))
  {
    match OrderIndex(st, id)
    case None => Fail(500, "Failed to fetch order")
    case Some(i) =>
      var o := st.orders[i];
      if !CanAccess(caller, o) then Fail(403, "Access denied")
      else
        var content := match ContentOfOrder(st, id)
                       case Some(k) => Some(ContentToDict(st.contents[k]))
                       case None => None;
        Reply(200, "", OrderWithContent(OrderToDict(o), content))
  }

  // ---------------------------------------------------------------------
  // PUT /orders/<id>

  datatype UpdateOrderBody = UpdateOrderBody(
    title: Option<string>, description: Option<string>, requirements: Option<Dict>,
    priority: Option<string>, status: Option<string>)

  /** The field assignments of `update_order`: title, description and
      requirements for any key present; priority and status only for an
      admin; `completed_at` stamped when an admin sets 'completed'. */
  function ApplyUpdate(o: Order, caller: User, b: UpdateOrderBody, now: Clock): (o': Order)
    ensures o'.id == o.id && o'.userId == o.userId && o'.contentType == o.contentType
    ensures o'.wordCount == o.wordCount && o'.price == o.price && o'.createdAt == o.createdAt
    ensures o'.title == b.title.GetOr(o.title) && o'.description == b.description.GetOr(o.description)
    ensures b.requirements.Some? ==> GetRequirements(o') == b.requirements.value
    ensures b.requirements.None? ==> o'.requirements == o.requirements
    ensures o'.priority == (if caller.isAdmin && b.priority.Some? then b.priority.value else o.priority)
    ensures o'.status == (if caller.isAdmin && b.status.Some? then b.status.value else o.status)
    ensures o'.completedAt == (if caller.isAdmin && b.status == Some("completed") then Some(now) else o.completedAt)
  {
    var o1 := o.(title := b.title.GetOr(o.title), description := b.description.GetOr(o.description));
    var o2 := if b.requirements.Some? then SetRequirements(o1, b.requirements.value) else o1;
    var o3 := if caller.isAdmin && b.priority.Some? then o2.(priority := b.priority.value) else o2;
    if caller.isAdmin && b.status.Some? then
      var o4 := o3.(status := b.status.value);
      if b.status.value == "completed" then o4.(completedAt := Some(now)) else o4
    else o3
  }

  /** A non-admin's update never moves the status, the priority or
      `completed_at`, whatever the body asks. */
  lemma NonAdminCannotChangeStatus(o: Order, caller: User, b: UpdateOrderBody, now: Clock)
    requires !caller.isAdmin
    ensures var o' := ApplyUpdate(o, caller, b, now);
            o'.status == o.status && o'.priority == o.priority && o'.completedAt == o.completedAt
  {
  }

  /** An admin may set any status string, valid or not. */
  lemma AdminSetsAnyStatus(o: Order, caller: User, b: UpdateOrderBody, now: Clock)
    requires caller.isAdmin && b.status.Some?
    ensures ApplyUpdate(o, caller, b, now).status == b.status.value
  {
  }

  function UpdateOrderSpec(st: Db, caller: User, id: nat, b: UpdateOrderBody, now: Clock): (r: (Reply, Db))
    ensures r.0.code != 200 ==> r.1 == st
    ensures OrderIndex(st, id).None? ==> r.0 == Fail(500, "Failed to update order")
    ensures r.0.code == 200 <==> OrderIndex(st, id).Some? && CanAccess(caller, st.orders[OrderIndex(st, id).value])
    ensures OrderIndex(st, id).Some? && !CanAccess(caller, st.orders[OrderIndex(st, id).value])
            ==> r.0 == Fail(403, "Access denied")
    ensures r.0.code == 200 ==>
      var i := OrderIndex(st, id).value;
      && r.1 == st.(orders := st.orders[i := ApplyUpdate(st.orders[i], caller, b, now)])
      && r.0.body == OrderBody(OrderToDict(ApplyUpdate(st.orders[i], caller, b, now)))
  {
    match OrderIndex(st, id)
    case None => (Fail(500, "Failed to update order"), st)
    case Some(i) =>
      var o := st.orders[i];
      if !CanAccess(caller, o) then (Fail(403, "Access denied"), st)
      else
        var o' := ApplyUpdate(o, caller, b, now);
        (Reply(200, "Order updated successfully", OrderBody(OrderToDict(o'))),
         st.(orders := st.orders[i := o']))
  }

  method UpdateOrder(db: Database, caller: User, id: nat, b: UpdateOrderBody, now: Clock) returns (reply: Reply)
    modifies db
    ensures (reply, db.State()) == UpdateOrderSpec(old(db.State()), caller, id, b, now)
  {
    var found := OrderIndex(db.State(), id);
    if found.None? {
      return Fail(500, "Failed to update order");
    }
    var i := found.value;
    var order := db.orders[i];
    if !CanAccess(caller, order) {
      return Fail(403, "Access denied");
    }
    ghost var before := order;
    if b.title.Some? {
      order := order.(title := b.title.value);
    }
    if b.description.Some? {
      order := order.(description := b.description.value);
    }
    if b.requirements.Some? {
      order := SetRequirements(order, b.requirements.value);
    }
    if b.priority.Some? && caller.isAdmin {
      order := order.(priority := b.priority.value);
    }
    if b.status.Some? && caller.isAdmin {
      order := order.(status := b.status.value);
      if b.status.value == "completed" {
        order := order.(completedAt := Some(now));
      }
    }
    assert order == ApplyUpdate(before, caller, b, now);
    db.orders := db.orders[i := order];
    return Reply(200, "Order updated successfully", OrderBody(OrderToDict(order)));
  }

  // ---------------------------------------------------------------------
  // DELETE /orders/<id>

  /** `db.session.delete(order)` nulls the order's dependants' `order_id`,
      which the NOT NULL columns refuse at commit: the `except` branch
      answers 500 and nothing is deleted. */
  function DeleteOrderSpec(st: Db, caller: User, id: nat): (r: (Reply, Db))
    ensures r.0.code != 200 ==> r.1 == st
    ensures OrderIndex(st, id).None? ==> r.0 == Fail(500, "Failed to delete order")
    ensures OrderIndex(st, id).Some? && !CanAccess(caller, st.orders[OrderIndex(st, id).value])
            ==> r.0 == Fail(403, "Access denied")
    ensures OrderIndex(st, id).Some? && CanAccess(caller, st.orders[OrderIndex(st, id).value])
            && st.orders[OrderIndex(st, id).value].status != "pending"
            ==> r.0 == Fail(400, "Cannot delete order that is not pending")
    ensures r.0.code == 200 <==>
      && OrderIndex(st, id).Some?
      && CanAccess(caller, st.orders[OrderIndex(st, id).value])
      && st.orders[OrderIndex(st, id).value].status == "pending"
      && !HasDependants(st, id)
    ensures r.0.code == 200 ==>
      var i := OrderIndex(st, id).value;
      r.1 == st.(orders := st.orders[..i] + st.orders[i + 1..])
  {
    match OrderIndex(st, id)
    case None => (Fail(500, "Failed to delete order"), st)
    case Some(i) =>
      var o := st.orders[i];
      if !CanAccess(caller, o) then (Fail(403, "Access denied"), st)
      else if o.status != "pending" then (Fail(400, "Cannot delete order that is not pending"), st)
      else if HasDependants(st, id) then (Fail(500, "Failed to delete order"), st)
      else (Reply(200, "Order deleted successfully", NoBody), st.(orders := st.orders[..i] + st.orders[i + 1..]))
  }

  method DeleteOrder(db: Database, caller: User, id: nat) returns (reply: Reply)
    modifies db
    ensures (reply, db.State()) == DeleteOrderSpec(old(db.State()), caller, id)
  {
    var found := OrderIndex(db.State(), id);
    if found.None? {
      return Fail(500, "Failed to delete order");
    }
    var i := found.value;
    if !CanAccess(caller, db.orders[i]) {
      return Fail(403, "Access denied");
    }
    if db.orders[i].status != "pending" {
      return Fail(400, "Cannot delete order that is not pending");
    }
    if HasDependants(db.State(), id) {
      return Fail(500, "Failed to delete order");
    }
    db.orders := db.orders[..i] + db.orders[i + 1..];
    return Reply(200, "Order deleted successfully", NoBody);
  }

  /** A pending order that already has a content row (or a payment) cannot
      be deleted at all: the reply is 500, not 200. */
  lemma PendingOrderWithContentIsNotDeleted(st: Db, caller: User, id: nat, k: nat)
    requires OrderIndex(st, id).Some? && CanAccess(caller, st.orders[OrderIndex(st, id).value])
    requires st.orders[OrderIndex(st, id).value].status == "pending"
    requires k < |st.contents| && st.contents[k].orderId == id
    ensures DeleteOrderSpec(st, caller, id) == (Fail(500, "Failed to delete order"), st)
  {
    assert st.contents[k] in st.contents;
  }

  // ---------------------------------------------------------------------
  // GET /content-templates

  function ActiveTemplates(ts: seq<ContentTemplate>): (r: seq<ContentTemplate>)
    ensures forall t :: t in r <==> t in ts && t.isActive
    ensures |r| <= |ts|
  {
    if |ts| == 0 then []
    else (if ts[0].isActive then [ts[0]] else []) + ActiveTemplates(ts[1..])
  }

  function GetTemplatesSpec(st: Db): (r: Reply)
    ensures r.code == 200 && r.body.TemplateList?
    ensures |r.body.templates| == |ActiveTemplates(st.templates)|
    ensures forall i :: 0 <= i < |r.body.templates| ==>
              r.body.templates[i] == TemplateToDict(ActiveTemplates(st.templates)[i])
  {
    var active := ActiveTemplates(st.templates);
    Reply(200, "", TemplateList(seq(|active|, i requires 0 <= i < |active| => TemplateToDict(active[i]))))
  }

  /** Every listed template is active, and every active one is listed. */
  lemma ListedTemplatesAreActive(st: Db, t: ContentTemplate)
    ensures TemplateToDict(t) in GetTemplatesSpec(st).body.templates <==> t in st.templates && t.isActive
  {
    var active := ActiveTemplates(st.templates);
    var ds := GetTemplatesSpec(st).body.templates;
    if TemplateToDict(t) in ds {
      var i :| 0 <= i < |ds| && ds[i] == TemplateToDict(t);
      TemplateToDictInjective(active[i], t);
      assert active[i] in active;
    }
    if t in st.templates && t.isActive {
      assert t in active;
      var i :| 0 <= i < |active| && active[i] == t;
      assert ds[i] == TemplateToDict(t);
    }
  }

  // ---------------------------------------------------------------------
  // Integrity

  lemma CreateOrderPreservesValid(st: Db, caller: User, b: CreateOrderBody, now: Clock)
    requires Valid(st)
    ensures Valid(CreateOrderSpec(st, caller, b, now).1)
  {
    var r := CreateOrderSpec(st, caller, b, now);
    if r.0.code == 201 {
      var st' := r.1;
      KeyedAppend(st.orders, OrderKey, st.nextOrderId, st'.orders[|st.orders|]);
      forall c | c in st'.contents ensures OrderIndex(st', c.orderId).Some? {
        var k := OrderIndex(st, c.orderId).value;
        assert st'.orders[k] == st.orders[k];
      }
      forall p | p in st'.payments ensures OrderIndex(st', p.orderId).Some? {
        var k := OrderIndex(st, p.orderId).value;
        assert st'.orders[k] == st.orders[k];
      }
    }
  }

  lemma UpdateOrderPreservesValid(st: Db, caller: User, id: nat, b: UpdateOrderBody, now: Clock)
    requires Valid(st)
    ensures Valid(UpdateOrderSpec(st, caller, id, b, now).1)
  {
    var r := UpdateOrderSpec(st, caller, id, b, now);
    if r.0.code == 200 {
      var i := OrderIndex(st, id).value;
      KeyedUpdate(st.orders, OrderKey, st.nextOrderId, i, r.1.orders[i]);
      forall c | c in r.1.contents ensures OrderIndex(r.1, c.orderId).Some? {
        OrderIndexAfterUpdate(st, r.1, c.orderId);
      }
      forall p | p in r.1.payments ensures OrderIndex(r.1, p.orderId).Some? {
        OrderIndexAfterUpdate(st, r.1, p.orderId);
      }
    }
  }

  /** Deleting keeps every foreign key pointing at an order, because only an
      order without dependants is deleted. */
  lemma DeleteOrderPreservesValid(st: Db, caller: User, id: nat)
    requires Valid(st)
    ensures Valid(DeleteOrderSpec(st, caller, id).1)
  {
    var r := DeleteOrderSpec(st, caller, id);
    if r.0.code == 200 {
      var i := OrderIndex(st, id).value;
      var st' := r.1;
      KeyedRemove(st.orders, OrderKey, st.nextOrderId, i);
      forall c | c in st'.contents ensures OrderIndex(st', c.orderId).Some? {
        RemainingOrderFound(st, i, c.orderId);
      }
      forall p | p in st'.payments ensures OrderIndex(st', p.orderId).Some? {
        RemainingOrderFound(st, i, p.orderId);
      }
    }
  }

  lemma RemainingOrderFound(st: Db, i: nat, id: int)
    requires i < |st.orders| && st.orders[i].id != id && OrderIndex(st, id).Some?
    ensures OrderIndex(st.(orders := st.orders[..i] + st.orders[i + 1..]), id).Some?
  {
    var k := OrderIndex(st, id).value;
    var rest := st.orders[..i] + st.orders[i + 1..];
    if k < i {
      assert rest[k] == st.orders[k];
    } else {
      assert rest[k - 1] == st.orders[k];
    }
  }
}
