/** The content blueprint: generation on request, preview, fetching,
    approval, revision requests and the admin regeneration. */
module ContentRoutes {
  import opened Common
  import opened Json
  import opened Models
  import opened Store
  import opened Api
  import opened Generator
  import opened Auth
  import opened OrderRoutes

  /** The store with order `i` moved to `status` and nothing else changed. */
  function WithStatus(st: Db, i: nat, status: string): Db
    requires i < |st.orders|
  {
    st.(orders := st.orders[i := st.orders[i].(status := status)])
  }

  /** Order lookups survive a status change. */
  lemma WithStatusValid(st: Db, i: nat, status: string)
    requires Valid(st) && i < |st.orders|
    ensures Valid(WithStatus(st, i, status))
    ensures forall id: int :: OrderIndex(WithStatus(st, i, status), id) == OrderIndex(st, id)
  {
    var st' := WithStatus(st, i, status);
    OrderRowPreservesValid(st, i, st'.orders[i]);
    forall id: int ensures OrderIndex(st', id) == OrderIndex(st, id) {
      OrderIndexAfterUpdate(st, st', id);
    }
  }

  // ---------------------------------------------------------------------
  // POST /generate/<order_id>

  /** `generate_content` (the route): owner or admin, pending or in_progress
      only; it commits in_progress, runs the generator, and on failure
      commits 'pending' whatever the status was before. */
  function GenerateRouteSpec(st: Db, caller: User, orderId: nat, llm: Llm, now: Clock): (Reply, Db)
  {
    match OrderIndex(st, orderId)
    case None => (Fail(500, "Content generation failed"), st)
    case Some(i) =>
      var o := st.orders[i];
      if !CanAccess(caller, o) then (Fail(403, "Access denied"), st)
      else if o.status != "pending" && o.status != "in_progress" then
        (Fail(400, "Order cannot be processed in current status"), st)
      else
        var started := WithStatus(st, i, "in_progress");
        var gen := GenerateSpec(started, orderId, llm, now);
        match gen.0
        case Generated(c, d) => (Reply(200, "Content generated successfully", GeneratedBody(c, d)), gen.1)
        case Failed(e) =>
          (Reply(500, "Content generation failed", ErrorDetail(e)), WithStatus(st, i, "pending"))
  }

  /** The guards of the route leave the store as it was; generation is
      attempted exactly for an accessible pending or in_progress order. */
  lemma GenerateRouteRejects(st: Db, caller: User, orderId: nat, llm: Llm, now: Clock)
    ensures var r := GenerateRouteSpec(st, caller, orderId, llm, now);
      && (OrderIndex(st, orderId).None? ==> r == (Fail(500, "Content generation failed"), st))
      && (OrderIndex(st, orderId).Some? && !CanAccess(caller, st.orders[OrderIndex(st, orderId).value]) ==>
            r == (Fail(403, "Access denied"), st))
      && (OrderIndex(st, orderId).Some? && CanAccess(caller, st.orders[OrderIndex(st, orderId).value]) &&
          st.orders[OrderIndex(st, orderId).value].status !in {"pending", "in_progress"} ==>
            r == (Fail(400, "Order cannot be processed in current status"), st))
      && (r.0.code == 200 ==> r.0.body.GeneratedBody?)
  {
  }

  /** A failed generation leaves the order 'pending', even one that was
      in_progress before the request; nothing else changes. */
  lemma GenerateRouteFailureResetsToPending(st: Db, caller: User, orderId: nat, llm: Llm, now: Clock)
    requires OrderIndex(st, orderId).Some?
    requires var o := st.orders[OrderIndex(st, orderId).value];
      CanAccess(caller, o) && o.status in {"pending", "in_progress"}
    requires GenerationFails(WithStatus(st, OrderIndex(st, orderId).value, "in_progress"), orderId, llm)
    ensures var i := OrderIndex(st, orderId).value;
      var r := GenerateRouteSpec(st, caller, orderId, llm, now);
      r.0.code == 500 && r.0.message == "Content generation failed" &&
      r.1 == st.(orders := st.orders[i := st.orders[i].(status := "pending")])
  {
  }

  /** A successful generation keeps every earlier content row, the order's
      included, and appends the new one: an order can collect several. */
  lemma GenerateRouteAppends(st: Db, caller: User, orderId: nat, llm: Llm, now: Clock)
    requires GenerateRouteSpec(st, caller, orderId, llm, now).0.code == 200
    ensures OrderIndex(st, orderId).Some?
    ensures var r := GenerateRouteSpec(st, caller, orderId, llm, now);
      && var i := OrderIndex(st, orderId).value;
      && |r.1.contents| == |st.contents| + 1 && r.1.contents[..|st.contents|] == st.contents
      && r.1.contents[|st.contents|].orderId == orderId
      && r.1.contents[|st.contents|].contentFormat == "markdown"
      && |r.1.orders| == |st.orders| && r.1.orders[i] == st.orders[i].(status := "completed")
      && r.1.payments == st.payments && r.1.users == st.users && r.1.templates == st.templates
  {
    var i := OrderIndex(st, orderId).value;
    var started := WithStatus(st, i, "in_progress");
    OrderIndexAfterUpdate(st, started, orderId);
    assert st.orders[i].id == orderId;
  }

  lemma GenerateRoutePreservesValid(st: Db, caller: User, orderId: nat, llm: Llm, now: Clock)
    requires Valid(st)
    ensures Valid(GenerateRouteSpec(st, caller, orderId, llm, now).1)
  {
    match OrderIndex(st, orderId)
    case None =>
    case Some(i) =>
      var o := st.orders[i];
      if CanAccess(caller, o) && (o.status == "pending" || o.status == "in_progress") {
        var started := WithStatus(st, i, "in_progress");
        var gen := GenerateSpec(started, orderId, llm, now);
        WithStatusValid(st, i, "in_progress");
        GeneratePreservesValid(started, orderId, llm, now);
        WithStatusValid(st, i, "pending");
        assert GenerateRouteSpec(st, caller, orderId, llm, now).1
            == if gen.0.Generated? then gen.1 else WithStatus(st, i, "pending");
      }
  }

  method GenerateRoute(db: Database, caller: User, orderId: nat, llm: Llm, now: Clock) returns (reply: Reply)
    modifies db
    ensures (reply, db.State()) == GenerateRouteSpec(old(db.State()), caller, orderId, llm, now)
  {
    ghost var st := db.State();
    var found := OrderIndex(db.State(), orderId);
    if found.None? {
      return Fail(500, "Content generation failed");
    }
    var i := found.value;
    var order := db.orders[i];
    if !CanAccess(caller, order) {
      return Fail(403, "Access denied");
    }
    if order.status != "pending" && order.status != "in_progress" {
      return Fail(400, "Order cannot be processed in current status");
    }
    db.orders := db.orders[i := order.(status := "in_progress")];
    assert db.State() == WithStatus(st, i, "in_progress");
    var outcome := Generate(db, orderId, llm, now);
    if outcome.Generated? {
      return Reply(200, "Content generated successfully", GeneratedBody(outcome.content, outcome.order));
    }
    db.orders := db.orders[i := db.orders[i].(status := "pending")];
    assert db.orders == st.orders[i := st.orders[i].(status := "pending")];
    return Reply(500, "Content generation failed", ErrorDetail(outcome.error));
  }

  // ---------------------------------------------------------------------
  // POST /preview

  datatype PreviewRequestBody = PreviewRequestBody(
    contentType: Option<string>, title: Option<string>, description: Option<string>,
    requirements: Option<Dict>)

  const PreviewRequired := ["content_type", "title"]

  function PreviewFields(b: PreviewRequestBody): set<string> {
    (if b.contentType.Some? then {"content_type"} else {}) +
    (if b.title.Some? then {"title"} else {})
  }

  /** The required-field loop of the route reports content_type first, then
      title. */
  lemma PreviewMissingField(b: PreviewRequestBody)
    ensures MissingField(PreviewRequired, PreviewFields(b))
         == if b.contentType.None? then Some("content_type")
            else if b.title.None? then Some("title") else None
  {
    assert PreviewRequired[1..] == ["title"];
    assert PreviewRequired[1..][1..] == [];
  }

  /** `preview_content` (the route): the two required fields, then the
      generator's preview with description '' and requirements {} by
      default. */
  function PreviewRouteSpec(st: Db, b: PreviewRequestBody, llm: Llm): (r: Reply)
    ensures b.contentType.None? ==> r == Fail(400, RequiredMessage("content_type"))
    ensures b.contentType.Some? && b.title.None? ==> r == Fail(400, RequiredMessage("title"))
    ensures r.code == 200 <==>
      b.contentType.Some? && b.title.Some? &&
      PreviewSpec(st, b.contentType.value, b.title.value, b.description.GetOr(""), b.requirements.GetOr([]), llm).Previewed?
    ensures r.code == 200 ==>
      r.body == PreviewBody(PreviewSpec(st, b.contentType.value, b.title.value, b.description.GetOr(""),
                                        b.requirements.GetOr([]), llm).preview)
  {
    if b.contentType.None? then Fail(400, RequiredMessage("content_type"))
    else if b.title.None? then Fail(400, RequiredMessage("title"))
    else
      match PreviewSpec(st, b.contentType.value, b.title.value, b.description.GetOr(""), b.requirements.GetOr([]), llm)
      case Previewed(text) => Reply(200, "Preview generated successfully", PreviewBody(text))
      case PreviewFailed(e) => Reply(500, "Preview generation failed", ErrorDetail(e))
  }

  /** The `for field in required_fields` loop of `preview_content`. */
  method CheckPreviewFields(b: PreviewRequestBody) returns (missing: Option<string>)
    ensures missing == if b.contentType.None? then Some("content_type")
                       else if b.title.None? then Some("title") else None
  {
    missing := FirstMissing(PreviewRequired, PreviewFields(b));
    PreviewMissingField(b);
  }

  /** The route reads the store and writes nothing. */
  method PreviewRoute(db: Database, b: PreviewRequestBody, llm: Llm) returns (reply: Reply)
    ensures reply == PreviewRouteSpec(db.State(), b, llm)
  {
    var missing := CheckPreviewFields(b);
    if missing.Some? {
      return Fail(400, RequiredMessage(missing.value));
    }
    var outcome := Preview(db, b.contentType.value, b.title.value, b.description.GetOr(""),
                           b.requirements.GetOr([]), llm);
    if outcome.Previewed? {
      return Reply(200, "Preview generated successfully", PreviewBody(outcome.preview));
    }
    return Reply(500, "Preview generation failed", ErrorDetail(outcome.error));
  }

  // ---------------------------------------------------------------------
  // GET /content/<order_id>

  function GetContentSpec(st: Db, caller: User, orderId: nat): (r: Reply)
    ensures OrderIndex(st, orderId).None? ==> r == Fail(500, "Failed to fetch content")
    ensures OrderIndex(st, orderId).Some? && !CanAccess(caller, st.orders[OrderIndex(st, orderId).value])
            ==> r == Fail(403, "Access denied")
    ensures OrderIndex(st, orderId).Some? && CanAccess(caller, st.orders[OrderIndex(st, orderId).value])
            ==> (r == Fail(404, "No content found for this order") <==> ContentOfOrder(st, orderId).None?)
    ensures r.code == 200 <==>
      OrderIndex(st, orderId).Some? && CanAccess(caller, st.orders[OrderIndex(st, orderId).value]) &&
      ContentOfOrder(st, orderId).Some?
    ensures r.code == 200 ==> r.body == ContentBody(ContentToDict(st.contents[ContentOfOrder(st, orderId).value]))
  {
    match OrderIndex(st, orderId)
    case None => Fail(500, "Failed to fetch content")
    case Some(i) =>
      if !CanAccess(caller, st.orders[i]) then Fail(403, "Access denied")
      else
        match ContentOfOrder(st, orderId)
        case None => Fail(404, "No content found for this order")
        case Some(k) => Reply(200, "", ContentBody(ContentToDict(st.contents[k])))
  }

  /** The content reported is the order's oldest one. */
  lemma GetContentIsFirst(st: Db, caller: User, orderId: nat)
    requires GetContentSpec(st, caller, orderId).code == 200
    ensures var k := ContentOfOrder(st, orderId).value;
      st.contents[k].orderId == orderId && forall m :: 0 <= m < k ==> st.contents[m].orderId != orderId
  {
  }

  // ---------------------------------------------------------------------
  // POST /content/<content_id>/approve

  /** `approve_content`: `get_or_404` inside the `try` gives 500 for an
      unknown content, and so does `content.order.user_id` for a content
      whose order row is gone. */
  function ApproveSpec(st: Db, caller: User, contentId: nat): (Reply, Db)
  {
    match ContentIndex(st, contentId)
    case None => (Fail(500, "Failed to approve content"), st)
    case Some(k) =>
      var c := st.contents[k];
      match OrderIndex(st, c.orderId)
      case None => (Fail(500, "Failed to approve content"), st)
      case Some(i) =>
        if !CanAccess(caller, st.orders[i]) then (Fail(403, "Access denied"), st)
        else
          var c' := c.(isApproved := true);
          (Reply(200, "Content approved successfully", ContentBody(ContentToDict(c'))),
           st.(contents := st.contents[k := c']))
  }

  /** Approval flips one flag of one row and changes nothing else; a
      caller who is neither owner nor admin changes nothing. */
  lemma ApproveSetsOnlyFlag(st: Db, caller: User, contentId: nat)
    ensures var r := ApproveSpec(st, caller, contentId);
      && (r.0.code != 200 ==> r.1 == st)
      && (r.0.code == 200 <==>
            ContentIndex(st, contentId).Some? &&
            OrderIndex(st, st.contents[ContentIndex(st, contentId).value].orderId).Some? &&
            CanAccess(caller, st.orders[OrderIndex(st, st.contents[ContentIndex(st, contentId).value].orderId).value]))
      && (r.0.code == 200 ==>
            var k := ContentIndex(st, contentId).value;
            && r.1 == st.(contents := st.contents[k := st.contents[k].(isApproved := true)])
            && r.0.body == ContentBody(ContentToDict(r.1.contents[k])))
      && (ContentIndex(st, contentId).Some? &&
          OrderIndex(st, st.contents[ContentIndex(st, contentId).value].orderId).Some? &&
          !CanAccess(caller, st.orders[OrderIndex(st, st.contents[ContentIndex(st, contentId).value].orderId).value])
          ==> r.0 == Fail(403, "Access denied"))
  {
  }

  method Approve(db: Database, caller: User, contentId: nat) returns (reply: Reply)
    modifies db
    ensures (reply, db.State()) == ApproveSpec(old(db.State()), caller, contentId)
  {
    var found := ContentIndex(db.State(), contentId);
    if found.None? {
      return Fail(500, "Failed to approve content");
    }
    var k := found.value;
    var content := db.contents[k];
    var owner := OrderIndex(db.State(), content.orderId);
    if owner.None? {
      return Fail(500, "Failed to approve content");
    }
    if !CanAccess(caller, db.orders[owner.value]) {
      return Fail(403, "Access denied");
    }
    content := content.(isApproved := true);
    db.contents := db.contents[k := content];
    return Reply(200, "Content approved successfully", ContentBody(ContentToDict(content)));
  }

  // ---------------------------------------------------------------------
  // POST /content/<content_id>/revise

  const RevisionNotesKey := "revision_notes"

  /** The content after a revision request: one more revision, no longer
      approved. */
  function RevisedContent(c: Content): (c': Content)
    ensures c'.revisionCount == c.revisionCount + 1 && !c'.isApproved
    ensures c'.(revisionCount := c.revisionCount, isApproved := c.isApproved) == c
  {
    c.(revisionCount := c.revisionCount + 1, isApproved := false)
  }

  /** The order after a revision request: back in progress, and its
      requirements with `revision_notes` set. */
  function RevisedOrder(o: Order, notes: string): Order {
    SetRequirements(o.(status := "in_progress"), Put(GetRequirements(o), RevisionNotesKey, notes))
  }

  /** The notes land under `revision_notes`, every other requirement keeps
      its value, and only the status and requirements columns change. */
  lemma RevisedOrderKeepsRequirements(o: Order, notes: string)
    ensures var o' := RevisedOrder(o, notes);
      && o'.status == "in_progress"
      && Get(GetRequirements(o'), RevisionNotesKey) == Some(notes)
      && (forall k :: k != RevisionNotesKey ==> Get(GetRequirements(o'), k) == Get(GetRequirements(o), k))
      && o'.(status := o.status, requirements := o.requirements) == o
  {
  }

  /** The store after the revision of content `k` of order `i`. */
  function RevisedState(st: Db, k: nat, i: nat, notes: string): Db
    requires k < |st.contents| && i < |st.orders|
  {
    st.(contents := st.contents[k := RevisedContent(st.contents[k])],
        orders := st.orders[i := RevisedOrder(st.orders[i], notes)])
  }

  /** `request_revision`: the guards of approval, then the revised content
      and order; `data.get('revision_notes', '')`. */
  function ReviseSpec(st: Db, caller: User, contentId: nat, notes: Option<string>): (Reply, Db)
  {
    match ContentIndex(st, contentId)
    case None => (Fail(500, "Failed to request revision"), st)
    case Some(k) =>
      var c := st.contents[k];
      match OrderIndex(st, c.orderId)
      case None => (Fail(500, "Failed to request revision"), st)
      case Some(i) =>
        if !CanAccess(caller, st.orders[i]) then (Fail(403, "Access denied"), st)
        else
          (Reply(200, "Revision requested successfully", ContentBody(ContentToDict(RevisedContent(c)))),
           RevisedState(st, k, i, notes.GetOr("")))
  }

  lemma ReviseChanges(st: Db, caller: User, contentId: nat, notes: Option<string>)
    ensures var r := ReviseSpec(st, caller, contentId, notes);
      && (r.0.code != 200 ==> r.1 == st)
      && (r.0.code == 200 <==>
            ContentIndex(st, contentId).Some? &&
            OrderIndex(st, st.contents[ContentIndex(st, contentId).value].orderId).Some? &&
            CanAccess(caller, st.orders[OrderIndex(st, st.contents[ContentIndex(st, contentId).value].orderId).value]))
      && (r.0.code == 200 ==>
            var k := ContentIndex(st, contentId).value;
            var i := OrderIndex(st, st.contents[k].orderId).value;
            && r.1.contents[k].revisionCount == st.contents[k].revisionCount + 1
            && !r.1.contents[k].isApproved
            && r.1.contents == st.contents[k := RevisedContent(st.contents[k])]
            && r.1.orders == st.orders[i := RevisedOrder(st.orders[i], notes.GetOr(""))]
            && r.1 == st.(contents := r.1.contents, orders := r.1.orders))
  {
  }

  /** The order's assignments in `request_revision`. */
  method ReviseOrder(order: Order, notes: string) returns (revised: Order)
    ensures revised == RevisedOrder(order, notes)
  {
    revised := order.(status := "in_progress");
    var requirements := GetRequirements(order);
    requirements := Put(requirements, RevisionNotesKey, notes);
    revised := SetRequirements(revised, requirements);
  }

  /** The assignments of `request_revision`: the content's revision count
      and approval, and the order as `ReviseOrder` rewrote it. */
  method ApplyRevision(db: Database, k: nat, i: nat, order: Order)
    requires k < |db.contents| && i < |db.orders|
    modifies db
    ensures db.State() == old(db.State()).(contents := old(db.contents)[k := RevisedContent(old(db.contents[k]))],
                                           orders := old(db.orders)[i := order])
  {
    var content := db.contents[k];
    content := content.(revisionCount := content.revisionCount + 1);
    content := content.(isApproved := false);
    db.contents := db.contents[k := content];
    db.orders := db.orders[i := order];
  }

  method Revise(db: Database, caller: User, contentId: nat, notes: Option<string>) returns (reply: Reply)
    modifies db
    ensures (reply, db.State()) == ReviseSpec(old(db.State()), caller, contentId, notes)
  {
    var found := ContentIndex(db.State(), contentId);
    if found.None? {
      return Fail(500, "Failed to request revision");
    }
    var k := found.value;
    var content := db.contents[k];
    var owner := OrderIndex(db.State(), content.orderId);
    if owner.None? {
      return Fail(500, "Failed to request revision");
    }
    var i := owner.value;
    var order := db.orders[i];
    if !CanAccess(caller, order) {
      return Fail(403, "Access denied");
    }
    var revised := ReviseOrder(order, notes.GetOr(""));
    ApplyRevision(db, k, i, revised);
    return Reply(200, "Revision requested successfully", ContentBody(ContentToDict(db.contents[k])));
  }

  /** Approval and revision keep every key and every foreign key. */
  lemma ApprovePreservesValid(st: Db, caller: User, contentId: nat)
    requires Valid(st)
    ensures Valid(ApproveSpec(st, caller, contentId).1)
  {
    var a := ApproveSpec(st, caller, contentId);
    if a.0.code == 200 {
      var k := ContentIndex(st, contentId).value;
      ContentRowPreservesValid(st, k, a.1.contents[k]);
    }
  }

  lemma RevisePreservesValid(st: Db, caller: User, contentId: nat, notes: Option<string>)
    requires Valid(st)
    ensures Valid(ReviseSpec(st, caller, contentId, notes).1)
  {
    var r := ReviseSpec(st, caller, contentId, notes);
    if r.0.code == 200 {
      var k := ContentIndex(st, contentId).value;
      var i := OrderIndex(st, st.contents[k].orderId).value;
      var mid := st.(contents := r.1.contents);
      ContentRowPreservesValid(st, k, r.1.contents[k]);
      OrderRowPreservesValid(mid, i, r.1.orders[i]);
      assert r.1 == mid.(orders := mid.orders[i := r.1.orders[i]]);
    }
  }

  /** Rewriting a content row without touching its key or its order. */
  lemma ContentRowPreservesValid(st: Db, k: nat, c: Content)
    requires Valid(st) && k < |st.contents| && c.id == st.contents[k].id && c.orderId == st.contents[k].orderId
    ensures Valid(st.(contents := st.contents[k := c]))
  {
    KeyedUpdate(st.contents, ContentKey, st.nextContentId, k, c);
    var st' := st.(contents := st.contents[k := c]);
    forall x | x in st'.contents ensures OrderIndex(st', x.orderId).Some? {
      if x == c {
        assert st.contents[k] in st.contents;
      }
    }
  }

  // ---------------------------------------------------------------------
  // POST /admin/regenerate/<order_id>

  /** The store after `db.session.delete(order.content)` (when there is one)
      and `order.status = 'in_progress'`: only the order's first content row
      goes. */
  function ClearedState(st: Db, i: nat, orderId: nat): Db
    requires i < |st.orders|
  {
    var st' := WithStatus(st, i, "in_progress");
    match ContentOfOrder(st, orderId)
    case None => st'
    case Some(k) => st'.(contents := st.contents[..k] + st.contents[k + 1..])
  }

  /** `admin_regenerate_content`: the admin gate, then an unknown order gives
      500; otherwise the cleared state is committed and the generator runs,
      and a failure is not reverted. */
  function RegenerateSpec(st: Db, caller: User, orderId: nat, llm: Llm, now: Clock): (Reply, Db)
  {
    match AdminGate(caller)
    case Some(denied) => (denied, st)
    case None =>
      match OrderIndex(st, orderId)
      case None => (Fail(500, "Content regeneration failed"), st)
      case Some(i) =>
        var cleared := ClearedState(st, i, orderId);
        var gen := GenerateSpec(cleared, orderId, llm, now);
        match gen.0
        case Generated(c, d) => (Reply(200, "Content regenerated successfully", GeneratedBody(c, d)), gen.1)
        case Failed(e) => (Reply(500, "Content regeneration failed", ErrorDetail(e)), gen.1)
  }

  /** Non-admins change nothing; for an admin and an existing order the
      order's first content is gone and the order is in progress whether or
      not generation then succeeds. */
  lemma RegenerateChanges(st: Db, caller: User, orderId: nat, llm: Llm, now: Clock)
    ensures !caller.isAdmin ==> RegenerateSpec(st, caller, orderId, llm, now) == (Fail(403, "Admin access required"), st)
    ensures caller.isAdmin && OrderIndex(st, orderId).None? ==>
      RegenerateSpec(st, caller, orderId, llm, now) == (Fail(500, "Content regeneration failed"), st)
    ensures caller.isAdmin && OrderIndex(st, orderId).Some? ==>
      var i := OrderIndex(st, orderId).value;
      var cleared := ClearedState(st, i, orderId);
      var r := RegenerateSpec(st, caller, orderId, llm, now);
      && cleared.orders == st.orders[i := st.orders[i].(status := "in_progress")]
      && (ContentOfOrder(st, orderId).Some? ==>
            var k := ContentOfOrder(st, orderId).value;
            && st.contents[k].orderId == orderId
            && (forall m :: 0 <= m < k ==> st.contents[m].orderId != orderId)
            && cleared.contents == st.contents[..k] + st.contents[k + 1..])
      && (ContentOfOrder(st, orderId).None? ==> cleared.contents == st.contents)
      && r.1 == GenerateSpec(cleared, orderId, llm, now).1
      && (GenerationFails(cleared, orderId, llm) ==> r.1 == cleared && r.0.code == 500)
  {
  }

  /** Deleting a content row keeps the integrity: nothing refers to contents. */
  lemma ClearedStateValid(st: Db, i: nat, orderId: nat)
    requires Valid(st) && i < |st.orders|
    ensures Valid(ClearedState(st, i, orderId))
  {
    WithStatusValid(st, i, "in_progress");
    var started := WithStatus(st, i, "in_progress");
    var cleared := ClearedState(st, i, orderId);
    if ContentOfOrder(st, orderId).Some? {
      var k := ContentOfOrder(st, orderId).value;
      assert cleared == started.(contents := started.contents[..k] + started.contents[k + 1..]);
      KeyedRemove(started.contents, ContentKey, started.nextContentId, k);
      forall c | c in cleared.contents ensures OrderIndex(cleared, c.orderId).Some? {
        var m :| 0 <= m < |cleared.contents| && cleared.contents[m] == c;
        assert c == started.contents[if m < k then m else m + 1];
        assert OrderIndex(cleared, c.orderId) == OrderIndex(started, c.orderId);
      }
      forall p | p in cleared.payments ensures OrderIndex(cleared, p.orderId).Some? {
        assert OrderIndex(cleared, p.orderId) == OrderIndex(started, p.orderId);
      }
    }
  }

  lemma RegeneratePreservesValid(st: Db, caller: User, orderId: nat, llm: Llm, now: Clock)
    requires Valid(st)
    ensures Valid(RegenerateSpec(st, caller, orderId, llm, now).1)
  {
    if caller.isAdmin && OrderIndex(st, orderId).Some? {
      var i := OrderIndex(st, orderId).value;
      var cleared := ClearedState(st, i, orderId);
      assert Valid(cleared) by { ClearedStateValid(st, i, orderId); }
      GeneratePreservesValid(cleared, orderId, llm, now);
      assert RegenerateSpec(st, caller, orderId, llm, now).1 == GenerateSpec(cleared, orderId, llm, now).1;
    }
  }

  method Regenerate(db: Database, caller: User, orderId: nat, llm: Llm, now: Clock) returns (reply: Reply)
    modifies db
    ensures (reply, db.State()) == RegenerateSpec(old(db.State()), caller, orderId, llm, now)
  {
    var gate := AdminGate(caller);
    if gate.Some? {
      return gate.value;
    }
    var found := OrderIndex(db.State(), orderId);
    if found.None? {
      return Fail(500, "Content regeneration failed");
    }
    var i := found.value;
    ghost var cleared := ClearedState(db.State(), i, orderId);
    var existing := ContentOfOrder(db.State(), orderId);
    if existing.Some? {
      var k := existing.value;
      db.contents := db.contents[..k] + db.contents[k + 1..];
    }
    db.orders := db.orders[i := db.orders[i].(status := "in_progress")];
    assert db.State() == cleared;
    var outcome := Generate(db, orderId, llm, now);
    if outcome.Generated? {
      return Reply(200, "Content regenerated successfully", GeneratedBody(outcome.content, outcome.order));
    }
    return Reply(500, "Content regeneration failed", ErrorDetail(outcome.error));
  }
}
