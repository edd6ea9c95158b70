/** Properties of runs of several handlers over one store: the places where
    the order → payment → content workflow, as written, departs from the
    status machine it suggests. */
module Workflow {
  import opened Common
  import opened Json
  import opened Models
  import opened Store
  import opened Api
  import opened Prompt
  import opened Generator
  import opened Auth
  import opened PaymentRoutes
  import opened ContentRoutes

  // ---------------------------------------------------------------------
  // Payments

  /** A reference lookup ignores the payments' statuses. */
  lemma ReferenceLookupIgnoresStatus(st: Db, st': Db, j: nat, status: string, reference: string)
    requires j < |st.payments| && st'.payments == st.payments[j := st.payments[j].(status := status)]
    ensures PaymentByReference(st', reference) == PaymentByReference(st, reference)
  {
    var p := (x: Payment) => x.stripePaymentId == reference;
    assert forall m :: 0 <= m < |st.payments| ==> p(st'.payments[m]) == p(st.payments[m]);
    var a, b := PaymentByReference(st', reference), PaymentByReference(st, reference);
    if a.Some? && b.Some? {
      assert a.value == b.value;
    }
  }

  /** Confirmation checks nothing about the payment's status: an owned
      payment found by its reference, whose order exists, is confirmed, and
      of all the payments only it changes, to completed. */
  lemma ConfirmIgnoresPaymentStatus(st: Db, caller: User, j: nat, llm: Llm, now: Clock)
    requires j < |st.payments| && st.payments[j].userId == caller.id && st.payments[j].stripePaymentId != ""
    requires PaymentByReference(st, st.payments[j].stripePaymentId) == Some(j)
    requires OrderIndex(st, st.payments[j].orderId).Some?
    ensures var r := ConfirmSpec(st, caller, Some(st.payments[j].stripePaymentId), llm, now);
      r.0.code == 200 && r.1.payments == st.payments[j := st.payments[j].(status := "completed")]
  {
    var i := OrderIndex(st, st.payments[j].orderId).value;
    assert GenerateSpec(PaidState(st, j, i), st.orders[i].id, llm, now).1.payments == PaidState(st, j, i).payments;
  }

  /** A refunded payment can be confirmed again: confirmation succeeds and
      the payment is completed once more. */
  lemma RefundThenConfirm(st: Db, caller: User, id: nat, llm: Llm, now: Clock)
    requires RefundSpec(st, caller, id).0.code == 200
    ensures PaymentIndex(st, id).Some?
    ensures var j := PaymentIndex(st, id).value;
      && var reference := st.payments[j].stripePaymentId;
      && var refunded := RefundSpec(st, caller, id).1;
      && refunded.payments == st.payments[j := st.payments[j].(status := "refunded")]
      && (reference != "" && PaymentByReference(st, reference) == Some(j) ==>
            && ConfirmSpec(refunded, caller, Some(reference), llm, now).0.code == 200
            && ConfirmSpec(refunded, caller, Some(reference), llm, now).1.payments
               == st.payments[j := st.payments[j].(status := "completed")])
  {
    RefundChanges(st, caller, id);
    var j := PaymentIndex(st, id).value;
    var refunded := RefundSpec(st, caller, id).1;
    if st.payments[j].stripePaymentId != "" && PaymentByReference(st, st.payments[j].stripePaymentId) == Some(j) {
      OrderIndexAfterUpdate(st, refunded, st.payments[j].orderId);
      RefundedCanBeConfirmed(st, refunded, caller, j, llm, now);
    }
  }

  lemma RefundedCanBeConfirmed(st: Db, refunded: Db, caller: User, j: nat, llm: Llm, now: Clock)
    requires j < |st.payments| && st.payments[j].userId == caller.id && st.payments[j].stripePaymentId != ""
    requires PaymentByReference(st, st.payments[j].stripePaymentId) == Some(j)
    requires refunded.payments == st.payments[j := st.payments[j].(status := "refunded")]
    requires OrderIndex(refunded, st.payments[j].orderId).Some?
    ensures var r := ConfirmSpec(refunded, caller, Some(st.payments[j].stripePaymentId), llm, now);
      r.0.code == 200 && r.1.payments == st.payments[j := st.payments[j].(status := "completed")]
  {
    var p := st.payments[j];
    ReferenceLookupIgnoresStatus(st, refunded, j, "refunded", p.stripePaymentId);
    assert refunded.payments[j] == p.(status := "refunded");
    ConfirmIgnoresPaymentStatus(refunded, caller, j, llm, now);
    assert refunded.payments[j := refunded.payments[j].(status := "completed")]
        == st.payments[j := st.payments[j].(status := "completed")];
  }

  /** Only a completed payment blocks a new intent: after one successful
      intent, still pending, a second intent for the same order succeeds
      too. */
  lemma SecondIntentAllowed(st: Db, caller: User, orderId: int, u1: string, u2: string, now: Clock, later: Clock)
    requires |u1| == 32 && |u2| == 32
    requires CreateIntentSpec(st, caller, Some(orderId), u1, now).0.code == 200
    ensures var st1 := CreateIntentSpec(st, caller, Some(orderId), u1, now).1;
      && CreateIntentSpec(st1, caller, Some(orderId), u2, later).0.code == 200
      && |CreateIntentSpec(st1, caller, Some(orderId), u2, later).1.payments| == |st.payments| + 2
  {
    CreateIntentRejects(st, caller, Some(orderId), u1, now);
    CreateIntentAdds(st, caller, Some(orderId), u1, now);
    var st1 := CreateIntentSpec(st, caller, Some(orderId), u1, now).1;
    assert st1.orders == st.orders;
    assert OrderIndex(st1, orderId) == OrderIndex(st, orderId);
    assert !HasCompletedPayment(st1, orderId) by {
      forall q | q in st1.payments && q.orderId == orderId ensures q.status != "completed" {
        if q !in st.payments {
          assert q == st1.payments[|st.payments|];
        }
      }
    }
    CreateIntentRejects(st1, caller, Some(orderId), u2, later);
    CreateIntentAdds(st1, caller, Some(orderId), u2, later);
  }

  /** Confirmation does not look for an earlier completed payment: with one
      already completed for the order, confirming a pending one leaves the
      order with two completed payments. */
  lemma SecondConfirmationCompletesToo(st: Db, caller: User, j: nat, k: nat, llm: Llm, now: Clock)
    requires Valid(st) && j < |st.payments| && k < |st.payments| && j != k
    requires st.payments[k].orderId == st.payments[j].orderId && st.payments[k].status == "completed"
    requires st.payments[j].userId == caller.id && st.payments[j].stripePaymentId != ""
    requires PaymentByReference(st, st.payments[j].stripePaymentId) == Some(j)
    ensures var ps := ConfirmSpec(st, caller, Some(st.payments[j].stripePaymentId), llm, now).1.payments;
      && |ps| == |st.payments|
      && ps[j].status == "completed" && ps[k].status == "completed"
      && ps[j].orderId == ps[k].orderId
  {
    assert st.payments[j] in st.payments;
    ConfirmIgnoresPaymentStatus(st, caller, j, llm, now);
  }

  // ---------------------------------------------------------------------
  // Content

  /** `/generate` on an in_progress order that already has content adds a
      second row for it rather than replacing the first. */
  lemma GenerateAgainAddsSecondRow(st: Db, caller: User, orderId: nat, llm: Llm, now: Clock)
    requires ContentOfOrder(st, orderId).Some?
    requires GenerateRouteSpec(st, caller, orderId, llm, now).0.code == 200
    ensures var r := GenerateRouteSpec(st, caller, orderId, llm, now).1;
      && var k := ContentOfOrder(st, orderId).value;
      && k < |st.contents| < |r.contents|
      && r.contents[k] == st.contents[k] && r.contents[k].orderId == orderId
      && r.contents[|st.contents|].orderId == orderId
  {
    GenerateRouteAppends(st, caller, orderId, llm, now);
    var r := GenerateRouteSpec(st, caller, orderId, llm, now).1;
    var k := ContentOfOrder(st, orderId).value;
    assert r.contents[..|st.contents|][k] == r.contents[k];
  }

  /** The notes a revision stores never reach the generation prompt: for an
      order that already had requirements, the revised order produces the
      same prompt from every template. */
  lemma RevisionNotesNeverReachPrompt(o: Order, t: ContentTemplate, notes: string)
    requires |GetRequirements(o)| > 0
    ensures PromptFor(RevisedOrder(o, notes), t) == PromptFor(o, t)
  {
    var o' := RevisedOrder(o, notes);
    assert o'.title == o.title && o'.description == o.description && o'.wordCount == o.wordCount
        && o'.contentType == o.contentType
        && RequirementParts(GetRequirements(o')) == RequirementParts(GetRequirements(o)) by {
      RevisedOrderKeepsRequirements(o, notes);
      var m, m' := GetRequirements(o), GetRequirements(o');
      assert HasKey(m', RevisionNotesKey);
      assert SameRecognisedKeys(m', m) by {
        assert "tone" != RevisionNotesKey && "target_audience" != RevisionNotesKey;
        assert "keywords" != RevisionNotesKey && "additional_notes" != RevisionNotesKey;
      }
      OnlyRecognisedKeysMatter(m', m);
    }
    PromptReadsOnly(o', o, t);
  }

  /** For an order without requirements a revision makes the prompt carry a
      "Specific requirements:" header with no bullet under it. */
  lemma RevisionOfBareOrderAddsHeader(o: Order, notes: string)
    requires |GetRequirements(o)| == 0
    ensures RequirementParts(GetRequirements(RevisedOrder(o, notes))) == [RequirementsHeader]
  {
    var m := GetRequirements(o);
    assert !HasKey(m, RevisionNotesKey);
    assert Put(m, RevisionNotesKey, notes) == [(RevisionNotesKey, notes)];
    HeaderWithoutBullets(notes);
  }
}
