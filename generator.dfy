/** `ContentGenerator.generate_content` and `preview_content`: the store
    transition of one generation, with the chat-completion call as an oracle. */
module Generator {
  import opened Common
  import opened Models
  import opened Store
  import opened Prompt

  /** The arguments of `chat.completions.create`. */
  datatype LlmRequest = LlmRequest(
    model: string, system: string, prompt: string, maxTokens: int, temperature: real)

  /** What the completion call and the quality heuristic after it yield: the
      text and its score, or the message of the exception either raised. */
  datatype Completion = Completion(text: string, score: real) | ApiError(error: string)

  /** The language model, taken as an arbitrary (hence any) answer per request. */
  type Llm = LlmRequest -> Completion

  /** The dict `generate_content` returns. */
  datatype Outcome = Generated(content: ContentDict, order: OrderDict) | Failed(error: string)

  const OrderNotFound := "Order not found"
  const TemplateNotFound := "Content template not found"
  /** `str(e)` of the KeyError/ValueError/IndexError `str.format` raises. */
  const FormatError := "template prompt could not be formatted"

  function GenerationRequest(o: Order, prompt: string): LlmRequest {
    LlmRequest(GenerationModel, GenerationSystem, prompt, MaxTokens(o.wordCount), Temperature)
  }

  /** The cases in which `generate_content` raises and rolls back. */
  predicate GenerationFails(st: Db, orderId: int, llm: Llm) {
    match OrderIndex(st, orderId)
    case None => true
    case Some(i) =>
      var o := st.orders[i];
      match ActiveTemplate(st, o.contentType)
      case None => true
      case Some(t) =>
        match PromptFor(o, t)
        case None => true
        case Some(prompt) => llm(GenerationRequest(o, prompt)).ApiError?
  }

  /** Everything `generate_content` does before it writes: the order's
      position and the model's answer, or the error that stops it. */
  datatype Attempt = Stopped(error: string) | Answered(i: nat, text: string, score: real)

  function AttemptGeneration(st: Db, orderId: int, llm: Llm): (a: Attempt)
    ensures a.Stopped? <==> GenerationFails(st, orderId, llm)
    ensures OrderIndex(st, orderId).None? ==> a == Stopped(OrderNotFound)
    ensures OrderIndex(st, orderId).Some? &&
            ActiveTemplate(st, st.orders[OrderIndex(st, orderId).value].contentType).None?
            ==> a == Stopped(TemplateNotFound)
    ensures a.Answered? ==>
      && OrderIndex(st, orderId) == Some(a.i) && a.i < |st.orders|
      && var o := st.orders[a.i];
      && ActiveTemplate(st, o.contentType).Some?
      && PromptFor(o, ActiveTemplate(st, o.contentType).value).Some?
      && llm(GenerationRequest(o, PromptFor(o, ActiveTemplate(st, o.contentType).value).value))
         == Completion(a.text, a.score)
  {
    match OrderIndex(st, orderId)
    case None => Stopped(OrderNotFound)
    case Some(i) =>
      var o := st.orders[i];
      match ActiveTemplate(st, o.contentType)
      case None => Stopped(TemplateNotFound)
      case Some(t) =>
        match PromptFor(o, t)
        case None => Stopped(FormatError)
        case Some(prompt) =>
          match llm(GenerationRequest(o, prompt))
          case ApiError(e) => Stopped(e)
          case Completion(text, score) => Answered(i, text, score)
  }

  /** The row `Content(order_id=..., generated_content=..., content_format='markdown',
      quality_score=..., is_approved=quality_score > 0.7)`. */
  function GeneratedContent(id: nat, orderId: nat, text: string, score: real, now: Clock): (c: Content)
    ensures c.orderId == orderId && c.generatedContent == text && c.contentFormat == "markdown"
    ensures c.qualityScore == Some(score) && c.revisionCount == 0
    ensures c.isApproved <==> score > 0.7
  {
    NewContent(id, orderId, text, now).(qualityScore := Some(score), isApproved := score > 0.7)
  }

  /** The committed state after `generate_content(order_id)`, and its result. */
  function GenerateSpec(st: Db, orderId: int, llm: Llm, now: Clock): (r: (Outcome, Db))
    // any exception rolls back
    ensures r.0.Failed? <==> GenerationFails(st, orderId, llm)
    ensures r.0.Failed? ==> r.1 == st && r.0.error == AttemptGeneration(st, orderId, llm).error
    // success: one new markdown content for the order, the order completed
    ensures r.0.Generated? ==>
      var a := AttemptGeneration(st, orderId, llm);
      var o := st.orders[a.i];
      var c := GeneratedContent(st.nextContentId, o.id, a.text, a.score, now);
      && r.1.contents == st.contents + [c]
      && r.1.orders == st.orders[a.i := o.(status := "completed")]
      && r.1.nextContentId == st.nextContentId + 1
      && r.1.users == st.users && r.1.templates == st.templates && r.1.payments == st.payments
      && r.1.nextUserId == st.nextUserId && r.1.nextTemplateId == st.nextTemplateId
      && r.1.nextOrderId == st.nextOrderId && r.1.nextPaymentId == st.nextPaymentId
      && r.0 == Generated(ContentToDict(c), OrderToDict(r.1.orders[a.i]))
  {
    match AttemptGeneration(st, orderId, llm)
    case Stopped(e) => (Failed(e), st)
    case Answered(i, text, score) =>
      var o' := st.orders[i].(status := "completed");
      var c := GeneratedContent(st.nextContentId, st.orders[i].id, text, score, now);
      (Generated(ContentToDict(c), OrderToDict(o')),
       st.(contents := st.contents + [c], orders := st.orders[i := o'],
           nextContentId := st.nextContentId + 1))
  }

  /** A generation keeps the store's integrity. */
  lemma GeneratePreservesValid(st: Db, orderId: int, llm: Llm, now: Clock)
    requires Valid(st)
    ensures Valid(GenerateSpec(st, orderId, llm, now).1)
  {
    var a := AttemptGeneration(st, orderId, llm);
    if a.Answered? {
      var o := st.orders[a.i];
      OrderIndexOf(st, a.i);
      CompletedWithContentValid(st, a.i, GeneratedContent(st.nextContentId, o.id, a.text, a.score, now));
    }
  }

  /** Appending a content row for order `i` and completing that order keeps
      the store's integrity. */
  lemma CompletedWithContentValid(st: Db, i: nat, c: Content)
    requires Valid(st) && i < |st.orders|
    requires c.id == st.nextContentId && OrderIndex(st, c.orderId).Some?
    ensures Valid(st.(contents := st.contents + [c], orders := st.orders[i := st.orders[i].(status := "completed")],
                      nextContentId := st.nextContentId + 1))
  {
    var st' := st.(contents := st.contents + [c], orders := st.orders[i := st.orders[i].(status := "completed")],
                   nextContentId := st.nextContentId + 1);
    KeyedUpdate(st.orders, OrderKey, st.nextOrderId, i, st'.orders[i]);
    KeyedAppend(st.contents, ContentKey, st.nextContentId, c);
    forall x | x in st'.contents ensures OrderIndex(st', x.orderId).Some? {
      OrderIndexAfterUpdate(st, st', x.orderId);
    }
    forall p | p in st'.payments ensures OrderIndex(st', p.orderId).Some? {
      OrderIndexAfterUpdate(st, st', p.orderId);
    }
  }

  /** `generate_content(order_id)` on the session. */
  method Generate(db: Database, orderId: int, llm: Llm, now: Clock) returns (outcome: Outcome)
    modifies db
    ensures (outcome, db.State()) == GenerateSpec(old(db.State()), orderId, llm, now)
  {
    var found := OrderIndex(db.State(), orderId);
    if found.None? {
      return Failed(OrderNotFound);
    }
    var i := found.value;
    var order := db.orders[i];
    var template := ActiveTemplate(db.State(), order.contentType);
    if template.None? {
      return Failed(TemplateNotFound);
    }
    var prompt := BuildPrompt(order, template.value);
    if prompt.None? {
      return Failed(FormatError);
    }
    var answer := llm(GenerationRequest(order, prompt.value));
    if answer.ApiError? {
      return Failed(answer.error);
    }
    assert AttemptGeneration(db.State(), orderId, llm) == Answered(i, answer.text, answer.score);
    var content := GeneratedContent(db.nextContentId, order.id, answer.text, answer.score, now);
    db.contents := db.contents + [content];
    db.nextContentId := db.nextContentId + 1;
    db.orders := db.orders[i := order.(status := "completed")];
    return Generated(ContentToDict(content), OrderToDict(db.orders[i]));
  }

  /** The result `preview_content` returns; nothing is stored. */
  datatype PreviewOutcome = Previewed(preview: string) | PreviewFailed(error: string)

  function PreviewRequestFor(prompt: string): LlmRequest {
    LlmRequest(PreviewModel, PreviewSystem, prompt, PreviewTokens, Temperature)
  }

  /** `preview_content(content_type, title, description, requirements)`; the
      requirements are accepted and never read. */
  function PreviewSpec(st: Db, contentType: string, title: string, description: string,
                       requirements: Json.Dict, llm: Llm): (r: PreviewOutcome)
    ensures ActiveTemplate(st, contentType).None? ==> r == PreviewFailed(TemplateNotFound)
    ensures r.Previewed? <==>
      && ActiveTemplate(st, contentType).Some?
      && PreviewPromptFor(ActiveTemplate(st, contentType).value, title, description).Some?
      && llm(PreviewRequestFor(PreviewPromptFor(ActiveTemplate(st, contentType).value, title, description).value)).Completion?
    ensures r.Previewed? ==>
      r.preview == llm(PreviewRequestFor(PreviewPromptFor(ActiveTemplate(st, contentType).value, title, description).value)).text
  {
    match ActiveTemplate(st, contentType)
    case None => PreviewFailed(TemplateNotFound)
    case Some(t) =>
      match PreviewPromptFor(t, title, description)
      case None => PreviewFailed(FormatError)
      case Some(prompt) =>
        match llm(PreviewRequestFor(prompt))
        case ApiError(e) => PreviewFailed(e)
        case Completion(text, _) => Previewed(text)
  }

  /** The preview ignores its requirements argument. */
  lemma PreviewIgnoresRequirements(st: Db, contentType: string, title: string, description: string,
                                   r1: Json.Dict, r2: Json.Dict, llm: Llm)
    ensures PreviewSpec(st, contentType, title, description, r1, llm)
         == PreviewSpec(st, contentType, title, description, r2, llm)
  {
  }

  /** `preview_content` on the session: reads the templates, writes nothing. */
  method Preview(db: Database, contentType: string, title: string, description: string,
                 requirements: Json.Dict, llm: Llm) returns (outcome: PreviewOutcome)
    ensures outcome == PreviewSpec(db.State(), contentType, title, description, requirements, llm)
  {
    var template := ActiveTemplate(db.State(), contentType);
    if template.None? {
      return PreviewFailed(TemplateNotFound);
    }
    var prompt := BuildPreviewPrompt(template.value, title, description);
    if prompt.None? {
      return PreviewFailed(FormatError);
    }
    var answer := llm(PreviewRequestFor(prompt.value));
    if answer.ApiError? {
      return PreviewFailed(answer.error);
    }
    return Previewed(answer.text);
  }
}
