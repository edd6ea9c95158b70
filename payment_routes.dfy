/** The payment blueprint: payment intents, their confirmation (which
    triggers generation), refunds, and the payment listings. */
module PaymentRoutes {
  import opened Common
  import opened Models
  import opened Store
  import opened Api
  import opened Generator

  // ---------------------------------------------------------------------
  // POST /create-payment-intent

  const IntentPrefix := "pi_demo_"
  const SecretSuffix := "_secret_demo"

  /** `f"pi_demo_{uuid.uuid4().hex[:16]}"`, given the 32 hex digits of the
      fresh uuid. */
  function IntentReference(uuidHex: string): (r: string)
    requires |uuidHex| == 32
    ensures |r| == 24 && r[..8] == IntentPrefix && r[8..] == uuidHex[..16]
  {
    IntentPrefix + uuidHex[..16]
  }

  /** The row `Payment(user_id=..., order_id=..., amount=order.price,
      currency='USD', payment_method='card', stripe_payment_id=...,
      status='pending')`. */
  function PendingPayment(id: nat, caller: User, o: Order, reference: string, now: Clock): Payment {
    Payment(id, caller.id, o.id, o.price, "USD", "card", reference, "pending", now)
  }

  /** `create_payment_intent`: `not order_id` rejects an absent, null or zero
      id; `get_or_404` raises inside the `try`, so an unknown order gives 500;
      only the owner may pay, and only a completed payment blocks a new one. */
  function CreateIntentSpec(st: Db, caller: User, orderId: Option<int>, uuidHex: string, now: Clock): (Reply, Db)
    requires |uuidHex| == 32
  {
    if orderId.None? || orderId.value == 0 then (Fail(400, "Order ID is required"), st)
    else
      match OrderIndex(st, orderId.value)
      case None => (Fail(500, "Failed to create payment intent"), st)
      case Some(i) =>
        var o := st.orders[i];
        if o.userId != caller.id then (Fail(403, "Access denied"), st)
        else if HasCompletedPayment(st, orderId.value) then (Fail(400, "Order already paid"), st)
        else
          var reference := IntentReference(uuidHex);
          var p := PendingPayment(st.nextPaymentId, caller, o, reference, now);
          (Reply(200, "", Intent(reference, reference + SecretSuffix, o.price, "USD", p.id)),
           st.(payments := st.payments + [p], nextPaymentId := st.nextPaymentId + 1))
  }

  /** The guards of `create_payment_intent`, in order; each leaves the
      store as it was. */
  lemma CreateIntentRejects(st: Db, caller: User, orderId: Option<int>, uuidHex: string, now: Clock)
    requires |uuidHex| == 32
    ensures var r := CreateIntentSpec(st, caller, orderId, uuidHex, now);
      && (r.0.code != 200 ==> r.1 == st)
      && (orderId.None? || orderId == Some(0) ==> r.0 == Fail(400, "Order ID is required"))
      && (orderId.Some? && orderId.value != 0 && OrderIndex(st, orderId.value).None? ==>
            r.0 == Fail(500, "Failed to create payment intent"))
      && (orderId.Some? && orderId.value != 0 && OrderIndex(st, orderId.value).Some? &&
          st.orders[OrderIndex(st, orderId.value).value].userId != caller.id ==>
            r.0 == Fail(403, "Access denied"))
      && (orderId.Some? && orderId.value != 0 && OrderIndex(st, orderId.value).Some? &&
          st.orders[OrderIndex(st, orderId.value).value].userId == caller.id &&
          HasCompletedPayment(st, orderId.value) ==>
            r.0 == Fail(400, "Order already paid"))
      && (r.0.code == 200 <==>
            && orderId.Some? && orderId.value != 0 && OrderIndex(st, orderId.value).Some?
            && st.orders[OrderIndex(st, orderId.value).value].userId == caller.id
            && !HasCompletedPayment(st, orderId.value))
  {
  }

  /** An admin gets no exemption: paying for another user's order is
      refused. */
  lemma AdminCannotPayForOthers(st: Db, caller: User, orderId: int, uuidHex: string, now: Clock)
    requires |uuidHex| == 32 && caller.isAdmin && orderId != 0
    requires OrderIndex(st, orderId).Some? && st.orders[OrderIndex(st, orderId).value].userId != caller.id
    ensures CreateIntentSpec(st, caller, Some(orderId), uuidHex, now).0 == Fail(403, "Access denied")
  {
  }

  /** A successful intent appends one pending card payment in USD over the
      order's price, keyed with the next payment id; the client secret is
      the reference followed by `_secret_demo`. */
  lemma CreateIntentAdds(st: Db, caller: User, orderId: Option<int>, uuidHex: string, now: Clock)
    requires |uuidHex| == 32
    requires CreateIntentSpec(st, caller, orderId, uuidHex, now).0.code == 200
    ensures orderId.Some? && OrderIndex(st, orderId.value).Some?
    ensures var r := CreateIntentSpec(st, caller, orderId, uuidHex, now);
      && var o := st.orders[OrderIndex(st, orderId.value).value];
      && |r.1.payments| == |st.payments| + 1 && r.1.payments[..|st.payments|] == st.payments
      && var p := r.1.payments[|st.payments|];
      && p.id == st.nextPaymentId && p.userId == caller.id && p.orderId == orderId.value
      && p.amount == o.price && p.currency == "USD" && p.paymentMethod == "card"
      && p.status == "pending" && p.stripePaymentId == IntentPrefix + uuidHex[..16]
      && r.0.body == Intent(p.stripePaymentId, p.stripePaymentId + SecretSuffix, o.price, "USD", p.id)
      && r.1 == st.(payments := st.payments + [p], nextPaymentId := st.nextPaymentId + 1)
  {
    var i := OrderIndex(st, orderId.value).value;
    assert st.orders[i].id == orderId.value;
  }

  method CreateIntent(db: Database, caller: User, orderId: Option<int>, uuidHex: string, now: Clock)
    returns (reply: Reply)
    requires |uuidHex| == 32
    modifies db
    ensures (reply, db.State()) == CreateIntentSpec(old(db.State()), caller, orderId, uuidHex, now)
  {
    if orderId.None? || orderId.value == 0 {
      return Fail(400, "Order ID is required");
    }
    var found := OrderIndex(db.State(), orderId.value);
    if found.None? {
      return Fail(500, "Failed to create payment intent");
    }
    var order := db.orders[found.value];
    if order.userId != caller.id {
      return Fail(403, "Access denied");
    }
    if HasCompletedPayment(db.State(), orderId.value) {
      return Fail(400, "Order already paid");
    }
    var reference := IntentReference(uuidHex);
    var payment := PendingPayment(db.nextPaymentId, caller, order, reference, now);
    db.payments := db.payments + [payment];
    db.nextPaymentId := db.nextPaymentId + 1;
    return Reply(200, "", Intent(reference, reference + SecretSuffix, order.price, "USD", payment.id));
  }

  // ---------------------------------------------------------------------
  // POST /confirm-payment

  /** The session after `confirm_payment`'s own assignments and commit:
      the payment completed, whatever its status was, and a pending order
      moved to in_progress. */
  function PaidState(st: Db, j: nat, i: nat): (st': Db)
    requires j < |st.payments| && i < |st.orders|
  {
    var o := st.orders[i];
    st.(payments := st.payments[j := st.payments[j].(status := "completed")],
        orders := if o.status == "pending" then st.orders[i := o.(status := "in_progress")] else st.orders)
  }

  /** `confirm_payment`: the guards, the commit of `PaidState`, then
      generation for the payment's order whatever its status.  A payment
      whose order row is gone makes `payment.order.status` raise: 500. */
  function ConfirmSpec(st: Db, caller: User, reference: Option<string>, llm: Llm, now: Clock): (Reply, Db)
  {
    if reference.None? || reference.value == "" then (Fail(400, "Payment intent ID is required"), st)
    else
      match PaymentByReference(st, reference.value)
      case None => (Fail(404, "Payment not found"), st)
      case Some(j) =>
        var p := st.payments[j];
        if p.userId != caller.id then (Fail(403, "Access denied"), st)
        else
          match OrderIndex(st, p.orderId)
          case None => (Fail(500, "Failed to confirm payment"), st)
          case Some(i) =>
            var paid := PaidState(st, j, i);
            var gen := GenerateSpec(paid, st.orders[i].id, llm, now);
            (Reply(200, "Payment confirmed successfully",
                   Confirmation(paid.payments[j], OrderToDict(gen.1.orders[i]), gen.0.Generated?)),
             gen.1)
  }

  /** The guards of `confirm_payment` come before any change. */
  lemma ConfirmRejects(st: Db, caller: User, reference: Option<string>, llm: Llm, now: Clock)
    ensures var r := ConfirmSpec(st, caller, reference, llm, now);
      && (r.0.code != 200 ==> r.1 == st)
      && (reference.None? || reference == Some("") ==> r.0 == Fail(400, "Payment intent ID is required"))
      && (reference.Some? && reference.value != "" && PaymentByReference(st, reference.value).None? ==>
            r.0 == Fail(404, "Payment not found"))
      && (reference.Some? && reference.value != "" && PaymentByReference(st, reference.value).Some? &&
          st.payments[PaymentByReference(st, reference.value).value].userId != caller.id ==>
            r.0 == Fail(403, "Access denied"))
      && (r.0.code == 200 <==>
            && reference.Some? && reference.value != ""
            && PaymentByReference(st, reference.value).Some?
            && var p := st.payments[PaymentByReference(st, reference.value).value];
            && p.userId == caller.id && OrderIndex(st, p.orderId).Some?)
  {
  }

  /** After a confirmation the payment is completed, whatever its status
      was (a refunded one included), and its other columns are kept; the
      order went pending to in_progress, any other status staying, and then
      generation ran on that committed state. */
  lemma ConfirmCompletes(st: Db, caller: User, reference: string, llm: Llm, now: Clock)
    requires ConfirmSpec(st, caller, Some(reference), llm, now).0.code == 200
    ensures PaymentByReference(st, reference).Some?
    ensures var j := PaymentByReference(st, reference).value;
      && var p := st.payments[j];
      && OrderIndex(st, p.orderId).Some?
      && var i := OrderIndex(st, p.orderId).value;
      && var o := st.orders[i];
      && var r := ConfirmSpec(st, caller, Some(reference), llm, now);
      && var paid := PaidState(st, j, i);
      && paid.payments[j] == p.(status := "completed")
      && paid.orders[i] == o.(status := if o.status == "pending" then "in_progress" else o.status)
      && r.1 == GenerateSpec(paid, o.id, llm, now).1
      && r.0.body == Confirmation(p.(status := "completed"), OrderToDict(r.1.orders[i]),
                                  !GenerationFails(paid, o.id, llm))
  {
  }

  /** The generation a confirmation triggers touches no payment, and either
      completes the order or leaves it as the confirmation committed it. */
  lemma ConfirmThenGenerate(st: Db, j: nat, i: nat, llm: Llm, now: Clock)
    requires j < |st.payments| && i < |st.orders| && OrderIndex(st, st.orders[i].id) == Some(i)
    ensures var paid := PaidState(st, j, i);
      && var r := GenerateSpec(paid, st.orders[i].id, llm, now);
      && r.1.payments == paid.payments && |r.1.orders| == |st.orders|
      && r.1.orders[i].status == (if GenerationFails(paid, st.orders[i].id, llm) then paid.orders[i].status
                                  else "completed")
  {
    var paid := PaidState(st, j, i);
    OrderIndexAfterUpdate(st, paid, st.orders[i].id);
  }

  /** A confirmation keeps the store's integrity. */
  lemma ConfirmPreservesValid(st: Db, caller: User, reference: Option<string>, llm: Llm, now: Clock)
    requires Valid(st)
    ensures Valid(ConfirmSpec(st, caller, reference, llm, now).1)
  {
    var r := ConfirmSpec(st, caller, reference, llm, now);
    if r.0.code == 200 {
      var j := PaymentByReference(st, reference.value).value;
      var i := OrderIndex(st, st.payments[j].orderId).value;
      var paid := PaidState(st, j, i);
      PaidStateValid(st, j, i);
      GeneratePreservesValid(paid, st.orders[i].id, llm, now);
    }
  }

  lemma PaidStateValid(st: Db, j: nat, i: nat)
    requires Valid(st) && j < |st.payments| && i < |st.orders|
    ensures Valid(PaidState(st, j, i))
  {
    var paid := PaidState(st, j, i);
    KeyedUpdate(st.payments, PaymentKey, st.nextPaymentId, j, paid.payments[j]);
    KeyedUpdate(st.orders, OrderKey, st.nextOrderId, i, st.orders[i].(status := "in_progress"));
    forall c | c in paid.contents ensures OrderIndex(paid, c.orderId).Some? {
      OrderIndexAfterUpdate(st, paid, c.orderId);
    }
    forall p | p in paid.payments ensures OrderIndex(paid, p.orderId).Some? {
      OrderIndexAfterUpdate(st, paid, p.orderId);
      if p !in st.payments {
        assert p == paid.payments[j];
        assert st.payments[j] in st.payments;
      }
    }
  }

  method Confirm(db: Database, caller: User, reference: Option<string>, llm: Llm, now: Clock)
    returns (reply: Reply)
    modifies db
    ensures (reply, db.State()) == ConfirmSpec(old(db.State()), caller, reference, llm, now)
  {
    if reference.None? || reference.value == "" {
      return Fail(400, "Payment intent ID is required");
    }
    var foundPayment := PaymentByReference(db.State(), reference.value);
    if foundPayment.None? {
      return Fail(404, "Payment not found");
    }
    var j := foundPayment.value;
    if db.payments[j].userId != caller.id {
      return Fail(403, "Access denied");
    }
    var foundOrder := OrderIndex(db.State(), db.payments[j].orderId);
    if foundOrder.None? {
      return Fail(500, "Failed to confirm payment");
    }
    var i := foundOrder.value;
    ghost var paid := PaidState(db.State(), j, i);
    db.payments := db.payments[j := db.payments[j].(status := "completed")];
    var order := db.orders[i];
    if order.status == "pending" {
      db.orders := db.orders[i := order.(status := "in_progress")];
    }
    assert db.State() == paid;
    var payment := db.payments[j];
    var outcome := Generate(db, order.id, llm, now);
    return Reply(200, "Payment confirmed successfully",
                 Confirmation(payment, OrderToDict(db.orders[i]), outcome.Generated?));
  }

  // ---------------------------------------------------------------------
  // Listings, newest first

  /** `filter_by(user_id=...)`, in table order. */
  function PaymentsOf(ps: seq<Payment>, userId: nat): (r: seq<Payment>)
    ensures forall p :: p in r <==> p in ps && p.userId == userId
  {
    if |ps| == 0 then []
    else (if ps[0].userId == userId then [ps[0]] else []) + PaymentsOf(ps[1..], userId)
  }

  /** Places `p` before the first payment not newer than it. */
  function InsertNewest(p: Payment, ps: seq<Payment>): (r: seq<Payment>)
    ensures multiset(r) == multiset(ps) + multiset{p}
  {
    if |ps| == 0 || ps[0].createdAt <= p.createdAt then [p] + ps
    else
      assert ps == [ps[0]] + ps[1..];
      [ps[0]] + InsertNewest(p, ps[1..])
  }

  /** `order_by(Payment.created_at.desc())`: an insertion sort, which keeps
      table order among equal timestamps. */
  function NewestFirst(ps: seq<Payment>): (r: seq<Payment>)
    ensures multiset(r) == multiset(ps)
  {
    if |ps| == 0 then []
    else
      assert ps == [ps[0]] + ps[1..];
      InsertNewest(ps[0], NewestFirst(ps[1..]))
  }

  ghost predicate Descending(ps: seq<Payment>) {
    forall i, j :: 0 <= i < j < |ps| ==> ps[i].createdAt >= ps[j].createdAt
  }

  lemma {:induction false} InsertKeepsDescending(p: Payment, ps: seq<Payment>)
    requires Descending(ps)
    ensures Descending(InsertNewest(p, ps))
    decreases |ps|
  {
    if |ps| > 0 && ps[0].createdAt > p.createdAt {
      InsertKeepsDescending(p, ps[1..]);
      var tail := InsertNewest(p, ps[1..]);
      assert multiset(tail) == multiset(ps[1..]) + multiset{p};
      forall k | 0 <= k < |tail| ensures ps[0].createdAt >= tail[k].createdAt {
        assert tail[k] in multiset(tail);
        if tail[k] != p {
          assert tail[k] in multiset(ps[1..]);
          var m :| 0 <= m < |ps[1..]| && ps[1..][m] == tail[k];
          assert ps[m + 1] == tail[k];
        }
      }
    }
  }

  lemma {:induction false} NewestFirstDescending(ps: seq<Payment>)
    ensures Descending(NewestFirst(ps))
    decreases |ps|
  {
    if |ps| > 0 {
      NewestFirstDescending(ps[1..]);
      InsertKeepsDescending(ps[0], NewestFirst(ps[1..]));
    }
  }

  /** `get_payment_history`: exactly the caller's payments, newest first. */
  function HistorySpec(st: Db, caller: User): Reply {
    Reply(200, "", PaymentList(NewestFirst(PaymentsOf(st.payments, caller.id))))
  }

  lemma HistoryIsOwnNewestFirst(st: Db, caller: User, p: Payment)
    ensures HistorySpec(st, caller).body.PaymentList?
    ensures var ps := HistorySpec(st, caller).body.payments;
      && Descending(ps)
      && multiset(ps) == multiset(PaymentsOf(st.payments, caller.id))
      && (p in ps <==> p in st.payments && p.userId == caller.id)
  {
    var own := PaymentsOf(st.payments, caller.id);
    NewestFirstDescending(own);
    assert p in NewestFirst(own) <==> p in multiset(NewestFirst(own));
    assert p in own <==> p in multiset(own);
  }

  /** `admin_get_all_payments`: its own admin check, then every payment,
      newest first. */
  function AdminPaymentsSpec(st: Db, caller: User): Reply {
    if !caller.isAdmin then Fail(403, "Admin access required")
    else Reply(200, "", PaymentList(NewestFirst(st.payments)))
  }

  lemma AdminPaymentsAreAll(st: Db, caller: User)
    ensures !caller.isAdmin ==> AdminPaymentsSpec(st, caller) == Fail(403, "Admin access required")
    ensures caller.isAdmin ==>
      && AdminPaymentsSpec(st, caller).body.PaymentList?
      && var ps := AdminPaymentsSpec(st, caller).body.payments;
      && Descending(ps) && multiset(ps) == multiset(st.payments)
  {
    NewestFirstDescending(st.payments);
  }

  // ---------------------------------------------------------------------
  // GET /payment/<id>

  function GetPaymentSpec(st: Db, caller: User, id: nat): (r: Reply)
    ensures PaymentIndex(st, id).None? ==> r == Fail(500, "Failed to fetch payment")
    ensures r.code == 200 <==>
      PaymentIndex(st, id).Some? &&
      (st.payments[PaymentIndex(st, id).value].userId == caller.id || caller.isAdmin)
    ensures r.code == 200 ==> r.body == PaymentBody(st.payments[PaymentIndex(st, id).value])
    ensures r.code != 200 && PaymentIndex(st, id).Some? ==> r == Fail(403, "Access denied")
  {
    match PaymentIndex(st, id)
    case None => Fail(500, "Failed to fetch payment")
    case Some(j) =>
      var p := st.payments[j];
      if p.userId != caller.id && !caller.isAdmin then Fail(403, "Access denied")
      else Reply(200, "", PaymentBody(p))
  }

  // ---------------------------------------------------------------------
  // POST /refund/<id>

  /** `request_refund`: owner only (no admin exemption), from completed only;
      the payment becomes refunded and its order cancelled. */
  function RefundSpec(st: Db, caller: User, id: nat): (Reply, Db)
  {
    match PaymentIndex(st, id)
    case None => (Fail(500, "Failed to process refund"), st)
    case Some(j) =>
      var p := st.payments[j];
      if p.userId != caller.id then (Fail(403, "Access denied"), st)
      else if p.status != "completed" then (Fail(400, "Only completed payments can be refunded"), st)
      else
        match OrderIndex(st, p.orderId)
        case None => (Fail(500, "Failed to process refund"), st)
        case Some(i) =>
          var p' := p.(status := "refunded");
          (Reply(200, "Refund processed successfully", PaymentBody(p')),
           st.(payments := st.payments[j := p'],
               orders := st.orders[i := st.orders[i].(status := "cancelled")]))
  }

  lemma RefundRejects(st: Db, caller: User, id: nat)
    ensures var r := RefundSpec(st, caller, id);
      && (r.0.code != 200 ==> r.1 == st)
      && (PaymentIndex(st, id).None? ==> r.0 == Fail(500, "Failed to process refund"))
      && (PaymentIndex(st, id).Some? && st.payments[PaymentIndex(st, id).value].userId != caller.id ==>
            r.0 == Fail(403, "Access denied"))
      && (PaymentIndex(st, id).Some? && st.payments[PaymentIndex(st, id).value].userId == caller.id &&
          st.payments[PaymentIndex(st, id).value].status != "completed" ==>
            r.0 == Fail(400, "Only completed payments can be refunded"))
      && (r.0.code == 200 <==>
            && PaymentIndex(st, id).Some?
            && var p := st.payments[PaymentIndex(st, id).value];
            && p.userId == caller.id && p.status == "completed" && OrderIndex(st, p.orderId).Some?)
  {
  }

  /** A refund changes exactly two columns: the payment's status and its
      order's status. */
  lemma RefundChanges(st: Db, caller: User, id: nat)
    requires RefundSpec(st, caller, id).0.code == 200
    ensures PaymentIndex(st, id).Some? && OrderIndex(st, st.payments[PaymentIndex(st, id).value].orderId).Some?
    ensures var j := PaymentIndex(st, id).value;
      && var i := OrderIndex(st, st.payments[j].orderId).value;
      && var r := RefundSpec(st, caller, id);
      && st.payments[j].status == "completed"
      && r.1.payments == st.payments[j := st.payments[j].(status := "refunded")]
      && r.1.orders == st.orders[i := st.orders[i].(status := "cancelled")]
      && r.1.users == st.users && r.1.templates == st.templates && r.1.contents == st.contents
      && r.1.nextUserId == st.nextUserId && r.1.nextTemplateId == st.nextTemplateId
      && r.1.nextOrderId == st.nextOrderId && r.1.nextContentId == st.nextContentId
      && r.1.nextPaymentId == st.nextPaymentId
      && r.0.body == PaymentBody(st.payments[j].(status := "refunded"))
  {
  }

  lemma RefundPreservesValid(st: Db, caller: User, id: nat)
    requires Valid(st)
    ensures Valid(RefundSpec(st, caller, id).1)
  {
    var r := RefundSpec(st, caller, id);
    if r.0.code == 200 {
      var j := PaymentIndex(st, id).value;
      var i := OrderIndex(st, st.payments[j].orderId).value;
      var st' := r.1;
      KeyedUpdate(st.payments, PaymentKey, st.nextPaymentId, j, st'.payments[j]);
      KeyedUpdate(st.orders, OrderKey, st.nextOrderId, i, st'.orders[i]);
      forall c | c in st'.contents ensures OrderIndex(st', c.orderId).Some? {
        OrderIndexAfterUpdate(st, st', c.orderId);
      }
      forall p | p in st'.payments ensures OrderIndex(st', p.orderId).Some? {
        OrderIndexAfterUpdate(st, st', p.orderId);
        if p !in st.payments {
          assert p == st'.payments[j];
          assert st.payments[j] in st.payments;
        }
      }
    }
  }

  method Refund(db: Database, caller: User, id: nat) returns (reply: Reply)
    modifies db
    ensures (reply, db.State()) == RefundSpec(old(db.State()), caller, id)
  {
    var foundPayment := PaymentIndex(db.State(), id);
    if foundPayment.None? {
      return Fail(500, "Failed to process refund");
    }
    var j := foundPayment.value;
    var payment := db.payments[j];
    if payment.userId != caller.id {
      return Fail(403, "Access denied");
    }
    if payment.status != "completed" {
      return Fail(400, "Only completed payments can be refunded");
    }
    var foundOrder := OrderIndex(db.State(), payment.orderId);
    if foundOrder.None? {
      return Fail(500, "Failed to process refund");
    }
    var i := foundOrder.value;
    payment := payment.(status := "refunded");
    db.payments := db.payments[j := payment];
    db.orders := db.orders[i := db.orders[i].(status := "cancelled")];
    return Reply(200, "Refund processed successfully", PaymentBody(payment));
  }
}
