/** The database the handlers share: one table per record type, each in
    insertion (primary-key) order, and the next primary key of each table.
    `Db` is the committed state as a value; `Database` is the session object
    whose fields the handlers assign. */
module Store {
  import opened Common
  import opened Models

  datatype Db = Db(
    users: seq<User>, templates: seq<ContentTemplate>, orders: seq<Order>,
    contents: seq<Content>, payments: seq<Payment>,
    nextUserId: nat, nextTemplateId: nat, nextOrderId: nat,
    nextContentId: nat, nextPaymentId: nat)

  // ---------------------------------------------------------------------
  // Queries

  /** The first row satisfying `p`, as `query.filter(...).first()` returns it. */
  function FirstIndex<T>(s: seq<T>, p: T -> bool): (r: Option<nat>)
    ensures r.Some? ==> r.value < |s| && p(s[r.value])
    ensures r.Some? ==> forall j :: 0 <= j < r.value ==> !p(s[j])
    ensures r.None? <==> forall j :: 0 <= j < |s| ==> !p(s[j])
    decreases |s|
  {
    if |s| == 0 then None
    else if p(s[0]) then Some(0)
    else
      match FirstIndex(s[1..], p)
      case None => None
      case Some(k) => Some(k + 1)
  }

  /** `Order.query.get(id)` */
  function OrderIndex(st: Db, id: int): Option<nat> {
    FirstIndex(st.orders, (o: Order) => o.id == id)
  }

  /** `Content.query.get(id)` */
  function ContentIndex(st: Db, id: int): Option<nat> {
    FirstIndex(st.contents, (c: Content) => c.id == id)
  }

  /** `Payment.query.get(id)` */
  function PaymentIndex(st: Db, id: int): Option<nat> {
    FirstIndex(st.payments, (p: Payment) => p.id == id)
  }

  /** `User.query.filter_by(id=...).first()` */
  function UserIndex(st: Db, id: int): Option<nat> {
    FirstIndex(st.users, (u: User) => u.id == id)
  }

  function UserByName(st: Db, username: string): Option<nat> {
    FirstIndex(st.users, (u: User) => u.username == username)
  }

  function UserByEmail(st: Db, email: string): Option<nat> {
    FirstIndex(st.users, (u: User) => u.email == email)
  }

  /** `order.content`: the relationship is declared with `uselist=False`, so
      it yields one row of the order's contents, the first one. */
  function ContentOfOrder(st: Db, orderId: int): Option<nat> {
    FirstIndex(st.contents, (c: Content) => c.orderId == orderId)
  }

  function PaymentByReference(st: Db, reference: string): Option<nat> {
    FirstIndex(st.payments, (p: Payment) => p.stripePaymentId == reference)
  }

  /** `ContentTemplate.query.filter_by(content_type=..., is_active=True).first()` */
  function ActiveTemplate(st: Db, contentType: string): (r: Option<ContentTemplate>)
    ensures r.Some? ==> r.value in st.templates && r.value.isActive && r.value.contentType == contentType
    ensures r.None? <==> forall t :: t in st.templates ==> !(t.isActive && t.contentType == contentType)
    ensures r.Some? ==>
      exists i :: 0 <= i < |st.templates| && st.templates[i] == r.value &&
        forall j :: 0 <= j < i ==> !(st.templates[j].isActive && st.templates[j].contentType == contentType)
  {
    match FirstIndex(st.templates, (t: ContentTemplate) => t.isActive && t.contentType == contentType)
    case Some(i) => Some(st.templates[i])
    case None => None
  }

  /** `Payment.query.filter_by(order_id=..., status='completed').first()` is a row. */
  predicate HasCompletedPayment(st: Db, orderId: int) {
    exists p :: p in st.payments && p.orderId == orderId && p.status == "completed"
  }

  /** The rows of the order's dependants: its contents and its payments. */
  predicate HasDependants(st: Db, orderId: int) {
    (exists c :: c in st.contents && c.orderId == orderId) ||
    (exists p :: p in st.payments && p.orderId == orderId)
  }

  // ---------------------------------------------------------------------
  // Integrity of the committed state

  /** Primary keys are positive, below the table's next key, and increase
      along the table; so they are unique. */
  ghost predicate Keyed<T>(s: seq<T>, key: T -> nat, next: nat) {
    0 < next &&
    (forall i :: 0 <= i < |s| ==> 0 < key(s[i]) < next) &&
    (forall i, j :: 0 <= i < j < |s| ==> key(s[i]) < key(s[j]))
  }

  function UserKey(u: User): nat { u.id }
  function TemplateKey(t: ContentTemplate): nat { t.id }
  function OrderKey(o: Order): nat { o.id }
  function ContentKey(c: Content): nat { c.id }
  function PaymentKey(p: Payment): nat { p.id }

  /** Every foreign key names an existing order. */
  ghost predicate Referenced(st: Db) {
    (forall c :: c in st.contents ==> OrderIndex(st, c.orderId).Some?) &&
    (forall p :: p in st.payments ==> OrderIndex(st, p.orderId).Some?)
  }

  ghost predicate Valid(st: Db) {
    Keyed(st.users, UserKey, st.nextUserId) &&
    Keyed(st.templates, TemplateKey, st.nextTemplateId) &&
    Keyed(st.orders, OrderKey, st.nextOrderId) &&
    Keyed(st.contents, ContentKey, st.nextContentId) &&
    Keyed(st.payments, PaymentKey, st.nextPaymentId) &&
    Referenced(st)
  }

  /** Under unique keys a lookup by key finds exactly the row carrying it. */
  lemma OrderIndexOf(st: Db, i: nat)
    requires Keyed(st.orders, OrderKey, st.nextOrderId) && i < |st.orders|
    ensures OrderIndex(st, st.orders[i].id) == Some(i)
  {
    var r := OrderIndex(st, st.orders[i].id);
    assert r.Some?;
  }

  lemma PaymentIndexOf(st: Db, j: nat)
    requires Keyed(st.payments, PaymentKey, st.nextPaymentId) && j < |st.payments|
    ensures PaymentIndex(st, st.payments[j].id) == Some(j)
  {
    var r := PaymentIndex(st, st.payments[j].id);
    assert r.Some?;
  }

  /** A table keeps its keys when rows are rewritten without touching their
      key, and when a row with the next key is appended. */
  lemma KeyedUpdate<T>(s: seq<T>, key: T -> nat, next: nat, i: nat, x: T)
    requires Keyed(s, key, next) && i < |s| && key(x) == key(s[i])
    ensures Keyed(s[i := x], key, next)
  {
    var s' := s[i := x];
    forall j | 0 <= j < |s'| ensures key(s'[j]) == key(s[j]) {
    }
  }

  lemma KeyedAppend<T>(s: seq<T>, key: T -> nat, next: nat, x: T)
    requires Keyed(s, key, next) && key(x) == next
    ensures Keyed(s + [x], key, next + 1)
  {
    var s' := s + [x];
    forall j | 0 <= j < |s| ensures key(s'[j]) == key(s[j]) {
    }
  }

  lemma KeyedRemove<T>(s: seq<T>, key: T -> nat, next: nat, i: nat)
    requires Keyed(s, key, next) && i < |s|
    ensures Keyed(s[..i] + s[i + 1..], key, next)
  {
    var s' := s[..i] + s[i + 1..];
    forall j | 0 <= j < |s'| ensures s'[j] == (if j < i then s[j] else s[j + 1]) {
    }
  }

  /** Order lookups only see keys: rewriting non-key columns of orders
      leaves every lookup where it was. */
  lemma OrderIndexAfterUpdate(st: Db, st': Db, id: int)
    requires |st'.orders| == |st.orders|
    requires forall i :: 0 <= i < |st.orders| ==> st'.orders[i].id == st.orders[i].id
    ensures OrderIndex(st', id) == OrderIndex(st, id)
    decreases |st.orders|
  {
    if |st.orders| > 0 {
      OrderIndexAfterUpdate(st.(orders := st.orders[1..]), st'.(orders := st'.orders[1..]), id);
    }
  }

  /** Rewriting the non-key columns of one order keeps the integrity. */
  lemma OrderRowPreservesValid(st: Db, i: nat, o: Order)
    requires Valid(st) && i < |st.orders| && o.id == st.orders[i].id
    ensures Valid(st.(orders := st.orders[i := o]))
  {
    var st' := st.(orders := st.orders[i := o]);
    KeyedUpdate(st.orders, OrderKey, st.nextOrderId, i, o);
    forall c | c in st'.contents ensures OrderIndex(st', c.orderId).Some? {
      OrderIndexAfterUpdate(st, st', c.orderId);
    }
    forall p | p in st'.payments ensures OrderIndex(st', p.orderId).Some? {
      OrderIndexAfterUpdate(st, st', p.orderId);
    }
  }

  // ---------------------------------------------------------------------
  // The session

  /** The tables as the handlers see and change them. */
  class Database {
    var users: seq<User>
    var templates: seq<ContentTemplate>
    var orders: seq<Order>
    var contents: seq<Content>
    var payments: seq<Payment>
    var nextUserId: nat
    var nextTemplateId: nat
    var nextOrderId: nat
    var nextContentId: nat
    var nextPaymentId: nat

    /** A session over the committed state `st`. */
    constructor (st: Db)
      ensures State() == st
    {
      users, templates, orders, contents, payments := st.users, st.templates, st.orders, st.contents, st.payments;
      nextUserId, nextTemplateId, nextOrderId := st.nextUserId, st.nextTemplateId, st.nextOrderId;
      nextContentId, nextPaymentId := st.nextContentId, st.nextPaymentId;
    }

    function State(): Db
      reads this
    {
      Db(users, templates, orders, contents, payments,
         nextUserId, nextTemplateId, nextOrderId, nextContentId, nextPaymentId)
    }
  }
}
