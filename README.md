# ContentGenius backend: order → payment → content workflow in Dafny

This project models the core of the ContentGenius Flask backend:

- the route handlers for orders, payments, generated content and authentication;
- the content generator service;
- the start-up seeding of templates and the admin account;
- the three records the routes share: `Order`, `Content` and `ContentTemplate`.

The model is a state machine over one committed store, `Store.Db`. It holds the five tables (users, templates, orders, contents, payments) as sequences in primary-key order, plus the next key of each table.

Every state-changing handler has two parts (a read-only handler has only its specification function):

- **A specification function** `XxxSpec(st, ...)`. It returns the HTTP reply (status code, message, body) and the store after the handler's commits. It runs the guards in the order the Python code runs them and applies exactly the field assignments the code applies.
- **A method on a `Store.Database` session object.** It assigns the session's table fields step by step, as the handler does. Its `ensures` ties the reply and the new session state to the specification function.

The properties are lemmas about the specification functions:

- rejection paths leave the store unchanged;
- what an accepted request adds or changes, and that nothing else changes;
- the store's integrity (unique ascending keys, every foreign key resolving) is preserved.

The workflow lemmas state where the code, as written, departs from the status machine it suggests (all in `Workflow` except the `/generate` failure, which is `ContentRoutes.GenerateRouteFailureResetsToPending`):

- a refunded payment can be confirmed again;
- two pending intents for one order can both be confirmed;
- `/generate` adds a second content row;
- a failed `/generate` resets the order to `pending`;
- revision notes never reach the prompt.

External effects are parameters of the model:

- the language model is `Generator.Llm`, a function from a request to an answer (text and quality score) or a failure;
- the JWT decoder and encoder, the password hash and check, the uuid and the clock are also parameters.

Requirements are stored as the JSON text of an insertion-ordered string map. `Json.Encode` produces the `json.dumps` form, with `ensure_ascii` escapes and surrogate pairs. `Json.Decode` reads back exactly what `json.dumps` writes, and `Json.RoundTrip` proves that decoding an encoded map gives it back; any other spelling reads as the empty map (see "## Left out").

Where the code and the design it suggests disagree, the model follows the code:

- `get_or_404` runs inside each handler's `try`. The `NotFound` it raises is caught by `except Exception`, so an unknown order, content or payment id is answered with 500, not 404. Only `confirm_payment` (unknown reference) and `get_content` (no content row) answer 404.
- `delete_order` on a pending order that has a content row or a payment cannot succeed. Deleting the order makes the ORM null the dependants' non-null `order_id`, so the commit fails with 500 and nothing is deleted (`OrderRoutes.PendingOrderWithContentIsNotDeleted`).
- The user and payment models are not part of this model. `User` and `Payment` are defined from their use in the routes. Both `order_id` columns are taken as non-null foreign keys.

## Model

| member | source | states |
|---|---|---|
| Common.JoinSplit | src/services/content_generator.py:129 | joining the fields of a split with the same one-character separator gives the string back |
| Common.SplitSingleField | src/routes/auth.py:18 | `split(" ")` yields one field exactly when the header has no space |
| Common.SplitAfterWord | src/routes/auth.py:18 | splitting `a + " " + b` with no space in `a` gives `a` followed by the fields of `b` |
| Common.FirstMissing | src/routes/order.py:34-37 | the required-field loop returns the first listed name the body lacks, or none when all are present |
| Common.MissingField | src/routes/auth.py:53-56 | none exactly when every required name is present; otherwise a name that is absent and every earlier one present |
| Common.NatToString | src/services/content_generator.py:115 | the decimal rendering of a count is a non-empty string of digits whose value is the count |
| Common.NatToStringInjective | src/services/content_generator.py:115 | distinct word counts print differently |
| Json.KeyIndex | src/routes/content.py:155 | the position of a key in the requirements map, absent exactly when the map lacks the key |
| Json.Get | src/services/content_generator.py:102 | `requirements.get(k)` finds a value exactly when the key is present, and it is the value stored under it |
| Json.Put | src/routes/content.py:155 | `requirements[k] = v` makes `k` map to `v`, leaves every other key's value, and keeps the size when `k` was present |
| Json.KeyIndexUnique | src/routes/content.py:155 | in a map with distinct keys the lookup finds the one position holding the key |
| Json.Hex4RoundTrip | src/models/order.py:29-35 | the four hex digits of a `\uXXXX` escape parse back to the code unit |
| Json.UnescapeEscape | src/models/order.py:29-35 | the escape `json.dumps` writes for any character decodes to that character, and the rest of the text is left alone |
| Json.UnescapeShort | src/models/order.py:29-35 | the short escapes (quote, backslash, `\n`, `\r`, `\t`, `\b`, `\f`) decode back |
| Json.UnescapeBmp | src/models/order.py:29-35 | a non-ASCII or control character of the basic plane written as `\uXXXX` decodes back |
| Json.EscapeAstral | src/models/order.py:29 | a character above U+FFFF is written as a surrogate pair of `\u` escapes |
| Json.UnescapeSurrogates | src/models/order.py:34-35 | a high and a low surrogate escape decode to the one character they encode |
| Json.UnescapeAstral | src/models/order.py:29-35 | a character above U+FFFF survives the escape and unescape round trip |
| Json.StringBodyRoundTrip | src/models/order.py:29-35 | the escaped body of a string, followed by the closing quote, decodes to the string and the rest |
| Json.StringRoundTrip | src/models/order.py:29-35 | a JSON string literal decodes to the string it encodes, whatever follows it |
| Json.ItemRoundTrip | src/models/order.py:29-35 | a `"key": "value"` member decodes to its key, then its value |
| Json.DecodeItemsStep | src/models/order.py:34-35 | decoding one member adds it to the map read so far, then continues or stops at the closing brace |
| Json.LastItemRoundTrip | src/models/order.py:29-35 | the last member and the closing brace decode to the map read so far plus that member |
| Json.ItemsRoundTrip | src/models/order.py:29-35 | the members of a map with distinct keys, from any position, decode to that map |
| Json.RoundTrip | src/models/order.py:27-35 | `json.loads(json.dumps(m)) == m` for every requirements map |
| Models.NewTemplate | src/models/content_template.py:6-12 | a new template takes word count 500 and active true unless given, and copies the required columns |
| Models.NewOrder | src/models/order.py:6-18 | a new order is pending, medium priority, price 0.0, with no requirements or completion time, and copies the given columns |
| Models.NewContent | src/models/content.py:6-12 | a new content row is markdown, unscored, with zero revisions and not approved |
| Models.GetRequirements | src/models/order.py:31-38 | the empty map when the stored text is null, empty or not in the spelling `json.dumps` writes, otherwise the decoded map |
| Models.SetRequirements | src/models/order.py:27-29 | afterwards `get_requirements` returns the map that was set, and no other column changes |
| Models.OrderToDict | src/models/order.py:40-55 | the dict reports requirements through `get_requirements` and reports absent timestamps as absent |
| Models.ContentToDictInjective | src/models/content.py:18-30 | `Content.to_dict` loses no column: two rows with the same dict are equal |
| Models.TemplateToDictInjective | src/models/content_template.py:18-30 | `ContentTemplate.to_dict` loses no column: two rows with the same dict are equal |
| Models.OrderToDictInjective | src/models/order.py:40-55 | `Order.to_dict` loses only the spelling of the stored requirements text |
| Models.OrderDictAfterSet | src/models/order.py:27-47 | the dict of an order reports the requirements that were last set |
| Store.FirstIndex | src/services/content_generator.py:22-25 | `query.filter(...).first()` is the first row that matches, and none exactly when no row matches |
| Store.ActiveTemplate | src/services/content_generator.py:22-28 | the template found is the first active one of the requested type in key order; none exactly when no active template has that type |
| Store.OrderIndexOf | src/services/content_generator.py:17 | under unique keys `Order.query.get(id)` finds exactly the row carrying the id |
| Store.PaymentIndexOf | src/routes/payment.py:150 | under unique keys a payment lookup by id finds exactly the row carrying it |
| Store.KeyedAppend | src/services/content_generator.py:64-70 | appending a row with the next key keeps the keys unique and ascending |
| Store.KeyedRemove | src/routes/order.py:146-152 | removing a row keeps the keys unique and ascending |
| Store.OrderIndexAfterUpdate | src/routes/payment.py:88-93 | rewriting orders without changing their ids leaves every order lookup where it was |
| Store.OrderRowPreservesValid | src/routes/order.py:111-126 | rewriting the non-key columns of one order keeps the store's integrity |
| Prompt.FormatBraceFreePrefix | src/services/content_generator.py:90 | brace-free text passes through `str.format` unchanged, in front of whatever the rest formats to |
| Prompt.FormatOneField | src/services/content_generator.py:90 | a template with one `{topic}` field and no other brace formats to its text with the title in place of the field |
| Prompt.FormatDoubledBraces | src/services/content_generator.py:90 | doubled braces are literal: `{{a}}` formats to `{a}` |
| Prompt.FormatEscapedField | src/services/content_generator.py:90 | `{{topic}}` is not a field and formats to `{topic}` |
| Prompt.FormatStrayBrace | src/services/content_generator.py:90 | a stray closing brace makes formatting raise, whatever the topic |
| Prompt.Bullet | src/services/content_generator.py:102-112 | a requirement bullet appears exactly when its key is present with a non-empty value |
| Prompt.RequirementParts | src/services/content_generator.py:98-112 | the requirement lines are non-empty exactly when the map is non-empty, and then open with the header |
| Prompt.BuildPrompt | src/services/content_generator.py:85-129 | the step-by-step assembly of `_build_prompt` returns the parts specified by `PromptFor`, or none where formatting raises |
| Prompt.RequirementLines | src/services/content_generator.py:99-112 | the `if requirements:` block appends the header and the four bullets in their fixed order |
| Prompt.AddBullet | src/services/content_generator.py:102-103 | one `if requirements.get(k): append(...)` step appends that key's bullet and nothing else |
| Prompt.PromptStartsWithTemplate | src/services/content_generator.py:90-91 | the prompt opens with the formatted template followed by a newline |
| Prompt.DescriptionPartIff | src/services/content_generator.py:94-95 | the part after the template is the additional-context line exactly when the description is non-empty |
| Prompt.SecondPart | src/services/content_generator.py:91-115 | after the template comes the context line, else the requirements header, else the word-count line |
| Prompt.HeaderIff | src/services/content_generator.py:99-100 | the "Specific requirements:" header follows the context part exactly when the requirements are non-empty, bullets or not |
| Prompt.PromptEnding | src/services/content_generator.py:115-127 | the word-count line is always present; it is last unless the content type has a format instruction, which then is last |
| Prompt.OnlyRecognisedKeysMatter | src/services/content_generator.py:98-112 | two requirement maps that agree on the four recognised keys, and on being empty, give the same lines |
| Prompt.PromptReadsOnly | src/services/content_generator.py:85-129 | the prompt depends only on the order's title, description, word count, type and requirement lines |
| Prompt.HeaderWithoutBullets | src/services/content_generator.py:99-112 | a map holding only `revision_notes` yields the header with no bullet |
| Prompt.MaxTokens | src/services/content_generator.py:46 | the token budget is at most 4000, and twice the word count when that is at most 4000 |
| Prompt.PreviewPrompt | src/services/content_generator.py:168-172 | the preview prompt is the formatted template, a newline, an optional context line, then the fixed preview request |
| Prompt.BuildPreviewPrompt | src/services/content_generator.py:168-172 | building the preview prompt with `+=` gives the specified preview prompt, or none where formatting raises |
| Generator.AttemptGeneration | src/services/content_generator.py:17-53 | generation stops on an unknown order, a missing active template, a prompt that does not format, or a failed model call; otherwise it answers with the model's text and score |
| Generator.GeneratedContent | src/services/content_generator.py:56-62 | the new row is a `Content` with the model defaults, markdown, copies the text and score, and is approved exactly when the score exceeds 0.7 |
| Generator.GenerateSpec | src/services/content_generator.py:13-83 | a failure leaves the store unchanged; a success appends one content row with the next key and sets the order to completed, without setting `completed_at` |
| Generator.GeneratePreservesValid | src/services/content_generator.py:56-70 | a generation keeps the store's integrity |
| Generator.CompletedWithContentValid | src/services/content_generator.py:64-70 | appending a content row for an existing order and completing it keeps the integrity |
| Generator.Generate | src/services/content_generator.py:13-83 | the service method's result and session follow `GenerateSpec` |
| Generator.PreviewSpec | src/services/content_generator.py:155-200 | an unknown or inactive type fails with "template not found"; a preview is returned exactly when the prompt formats and the model answers, and it is the model's text; nothing is stored |
| Generator.PreviewIgnoresRequirements | src/services/content_generator.py:155-172 | the preview result does not depend on the requirements argument |
| Generator.Preview | src/services/content_generator.py:155-200 | the preview reads the templates, follows `PreviewSpec` and changes nothing |
| Auth.ExtractToken | src/routes/auth.py:15-20 | no header gives no token; a header without a space is a format error; otherwise the token is the second space-separated field |
| Auth.Authenticate | src/routes/auth.py:10-35 | no header or an empty token gives 401 "Token is missing", a header without a space 401 "Invalid token format"; for a non-empty token an expired one gives 401 "Token has expired", an invalid one 401 "Token is invalid", a payload without `user_id` 500, an id naming no user 401 "User not found", and an existing user is admitted as that user; a caller is admitted only that way |
| Auth.EmptyTokenIsMissing | src/routes/auth.py:18-23 | an empty second field ("Bearer " or "Bearer  x") is answered 401 "Token is missing" |
| Auth.SchemeIgnored | src/routes/auth.py:18 | the word in front of the token is never looked at |
| Auth.BearerAdmitsInactiveUser | src/routes/auth.py:25-35 | a valid token for an existing user admits that user whether or not the account is active |
| Auth.AdminGate | src/routes/auth.py:39-45 | `admin_required` lets the handler run exactly for an admin and otherwise answers 403 |
| Auth.RegisterMissingField | src/routes/auth.py:53-56 | the required-field loop reports username, then email, then password |
| Auth.RegisterRejects | src/routes/auth.py:52-63 | nothing is stored unless `register` answers 201; a missing field, a taken username (checked first) or a taken email answer 400 |
| Auth.RegisterAdds | src/routes/auth.py:65-80 | a registered user is appended with the next key as a regular, active account holding the hash of the password |
| Auth.RegisterKeepsUsersUnique | src/routes/auth.py:58-75 | registration never admits a second user with a taken username or email |
| Auth.RegisterPreservesValid | src/routes/auth.py:74-75 | registration keeps the store's integrity |
| Auth.CheckRegisterFields | src/routes/auth.py:53-56 | the loop over the required fields returns the first one the body lacks |
| Auth.Register | src/routes/auth.py:47-83 | the handler's reply and session follow `RegisterSpec` |
| Auth.IssueClaims | src/routes/auth.py:100-102 | a token's claims name the user and expire 24 hours after issue |
| Auth.LoginSpec | src/routes/auth.py:85-114 | a missing username or password answers 400; an unknown user and a wrong password get the same 401; a correct password answers 401 "Account is deactivated" for an inactive account and 200 with a 24-hour token for an active one, and only then |
| Auth.RefreshSpec | src/routes/auth.py:123-136 | refresh answers 200 with a token for the caller that expires 24 hours after issue |
| Auth.LoginAndRefreshAgree | src/routes/auth.py:100-131 | login and refresh at the same moment sign the same claims for a user |
| OrderRoutes.OrderDicts | src/routes/order.py:20 | the listed dicts are the dicts of the listed orders, one per order, in order |
| OrderRoutes.OwnedBy | src/routes/order.py:18 | the caller's orders are exactly the rows they own |
| OrderRoutes.OwnedByKeepsOrder | src/routes/order.py:18 | owned rows keep table order: the first owned row heads the list |
| OrderRoutes.GetOrdersSpec | src/routes/order.py:11-26 | an admin lists every order, anyone else only their own |
| OrderRoutes.ListedOrdersAreOwn | src/routes/order.py:15-20 | a non-admin's list holds a dict exactly when it is the dict of one of their orders |
| OrderRoutes.DictsOf | src/routes/order.py:20 | a dict is listed exactly when some listed order converts to it |
| OrderRoutes.OrderFromBody | src/routes/order.py:49-61 | the new order is a model-default order owned by the caller, takes the template's word count unless given, defaults description to '' and priority to 'medium', and is priced from the template |
| OrderRoutes.PlacedOrder | src/routes/order.py:49-66 | requirements are stored exactly when the body brings a non-empty map |
| OrderRoutes.CreateOrderMissingField | src/routes/order.py:34-37 | the required-field loop reports content_type, then title |
| OrderRoutes.CreateOrderRejects | src/routes/order.py:34-46 | nothing is stored unless the reply is 201; a missing field or an unknown or inactive content type answers 400 |
| OrderRoutes.CreateOrderAdds | src/routes/order.py:49-71 | a created order is appended with the next key, owned by the caller, and reported in the reply |
| OrderRoutes.PlaceOrder | src/routes/order.py:52-67 | the new row is appended to the session with the next key and nothing else changes |
| OrderRoutes.CheckOrderFields | src/routes/order.py:34-37 | the loop over the required fields returns the first one the body lacks |
| OrderRoutes.CreateOrder | src/routes/order.py:27-75 | the handler's reply and session follow `CreateOrderSpec` |
| OrderRoutes.GetOrderSpec | src/routes/order.py:77-96 | an unknown id answers 500, a caller who is neither owner nor admin 403, and an existing order the caller may access 200 with the order's dict and its content's dict when there is one |
| OrderRoutes.ApplyUpdate | src/routes/order.py:109-124 | title, description and requirements change only for keys in the body; priority and status only for an admin; an admin's 'completed' stamps `completed_at` |
| OrderRoutes.NonAdminCannotChangeStatus | src/routes/order.py:116-124 | a non-admin's update never moves the status, the priority or `completed_at` |
| OrderRoutes.AdminSetsAnyStatus | src/routes/order.py:119-120 | an admin may set any status string, valid or not |
| OrderRoutes.UpdateOrderSpec | src/routes/order.py:98-133 | the update commits exactly for an accessible existing order; otherwise 500 or 403 and no change |
| OrderRoutes.UpdateOrder | src/routes/order.py:98-133 | the handler's reply and session follow `UpdateOrderSpec` |
| OrderRoutes.DeleteOrderSpec | src/routes/order.py:135-155 | only an accessible pending order without dependants is removed; a non-pending one answers 400 and stays |
| OrderRoutes.DeleteOrder | src/routes/order.py:135-155 | the handler's reply and session follow `DeleteOrderSpec` |
| OrderRoutes.PendingOrderWithContentIsNotDeleted | src/routes/order.py:146-155 | a pending order that has a content row is not deleted: 500, and the store is unchanged |
| OrderRoutes.ActiveTemplates | src/routes/order.py:160 | the listing holds exactly the active templates |
| OrderRoutes.GetTemplatesSpec | src/routes/order.py:157-166 | the listing answers 200 with the dict of every active template, in table order |
| OrderRoutes.ListedTemplatesAreActive | src/routes/order.py:160-162 | a template is listed exactly when it is stored and active |
| OrderRoutes.CreateOrderPreservesValid | src/routes/order.py:64-66 | creating an order keeps the store's integrity |
| OrderRoutes.UpdateOrderPreservesValid | src/routes/order.py:111-126 | updating an order keeps the store's integrity |
| OrderRoutes.DeleteOrderPreservesValid | src/routes/order.py:146-152 | deletion keeps every foreign key pointing at an order, since only an order without dependants is removed |
| OrderRoutes.RemainingOrderFound | src/routes/order.py:151-152 | every other order is still found after one is deleted |
| PaymentRoutes.IntentReference | src/routes/payment.py:35 | the reference is "pi_demo_" followed by the first 16 hex digits of the uuid |
| PaymentRoutes.CreateIntentRejects | src/routes/payment.py:19-31 | in order: no order id 400, unknown order 500, not the owner 403, a completed payment exists 400; each leaves the store unchanged |
| PaymentRoutes.AdminCannotPayForOthers | src/routes/payment.py:25-26 | an admin paying for another user's order is refused with 403 |
| PaymentRoutes.CreateIntentAdds | src/routes/payment.py:33-53 | a new pending card payment in USD over the order's price is appended with the next key; the client secret is the reference plus "_secret_demo" |
| PaymentRoutes.CreateIntent | src/routes/payment.py:11-60 | the handler's reply and session follow `CreateIntentSpec` |
| PaymentRoutes.ConfirmRejects | src/routes/payment.py:70-80 | before any change: no reference 400, unknown reference 404, not the owner 403 |
| PaymentRoutes.ConfirmCompletes | src/routes/payment.py:84-107 | a confirmed payment is completed whatever its status was, its order moves from pending to in_progress, and generation runs on that committed state |
| PaymentRoutes.ConfirmThenGenerate | src/routes/payment.py:93-100 | the generation that a confirmation triggers touches no payment, and either completes the order or leaves it in the state the confirmation committed |
| PaymentRoutes.ConfirmPreservesValid | src/routes/payment.py:84-100 | a confirmation keeps the store's integrity |
| PaymentRoutes.PaidStateValid | src/routes/payment.py:84-93 | the confirmation's own commit keeps the integrity |
| PaymentRoutes.Confirm | src/routes/payment.py:62-110 | the handler's reply and session follow `ConfirmSpec` |
| PaymentRoutes.PaymentsOf | src/routes/payment.py:117 | the history holds exactly the caller's payments |
| PaymentRoutes.InsertNewest | src/routes/payment.py:117 | inserting a payment into the sorted list adds exactly that payment |
| PaymentRoutes.NewestFirst | src/routes/payment.py:117 | `order_by(created_at.desc())` is a permutation of its input |
| PaymentRoutes.InsertKeepsDescending | src/routes/payment.py:117 | insertion keeps the list sorted newest first |
| PaymentRoutes.NewestFirstDescending | src/routes/payment.py:117 | the sorted list is newest first |
| PaymentRoutes.HistoryIsOwnNewestFirst | src/routes/payment.py:112-124 | the history lists a payment exactly when it is the caller's, in a permutation of the caller's payments sorted newest first |
| PaymentRoutes.AdminPaymentsAreAll | src/routes/payment.py:179-194 | non-admins get 403; an admin gets every payment, newest first |
| PaymentRoutes.GetPaymentSpec | src/routes/payment.py:126-142 | an unknown id answers 500; the owner or an admin gets 200 with the payment; anyone else 403 |
| PaymentRoutes.RefundRejects | src/routes/payment.py:150-160 | an unknown id answers 500, a non-owner 403 (no admin exemption), a payment that is not completed 400; each changes nothing |
| PaymentRoutes.RefundChanges | src/routes/payment.py:162-166 | a refund changes exactly two columns: the payment becomes refunded and its order cancelled |
| PaymentRoutes.RefundPreservesValid | src/routes/payment.py:162-166 | a refund keeps the store's integrity |
| PaymentRoutes.Refund | src/routes/payment.py:144-177 | the handler's reply and session follow `RefundSpec` |
| ContentRoutes.WithStatusValid | src/routes/content.py:29-30 | changing an order's status keeps the integrity and every order lookup |
| ContentRoutes.GenerateRouteRejects | src/routes/content.py:18-26 | the route's guards leave the store unchanged; generation is attempted exactly for an accessible pending or in_progress order |
| ContentRoutes.GenerateRouteFailureResetsToPending | src/routes/content.py:29-48 | a failed generation leaves the order pending, even one that was in_progress, and nothing else changes |
| ContentRoutes.GenerateRouteAppends | src/routes/content.py:29-40 | a successful generation keeps every earlier content row and appends a new one |
| ContentRoutes.GenerateRoutePreservesValid | src/routes/content.py:29-44 | the route keeps the store's integrity |
| ContentRoutes.GenerateRoute | src/routes/content.py:12-51 | the handler's reply and session follow `GenerateRouteSpec` |
| ContentRoutes.PreviewMissingField | src/routes/content.py:61-64 | the required-field loop reports content_type, then title |
| ContentRoutes.PreviewRouteSpec | src/routes/content.py:53-85 | a missing content_type or title answers 400; otherwise 200 with the preview exactly when the service succeeds |
| ContentRoutes.CheckPreviewFields | src/routes/content.py:61-64 | the loop over the required fields returns the first one the body lacks |
| ContentRoutes.PreviewRoute | src/routes/content.py:53-85 | the route follows `PreviewRouteSpec` and changes nothing |
| ContentRoutes.GetContentSpec | src/routes/content.py:87-106 | an unknown order answers 500, a caller who is neither owner nor admin 403, an order without content 404, otherwise 200 with the content |
| ContentRoutes.GetContentIsFirst | src/routes/content.py:95-103 | the content reported is the order's oldest content row |
| ContentRoutes.ApproveSetsOnlyFlag | src/routes/content.py:108-129 | approval sets `is_approved` on one row and changes nothing else; any other caller changes nothing |
| ContentRoutes.Approve | src/routes/content.py:108-129 | the handler's reply and session follow `ApproveSpec` |
| ContentRoutes.RevisedContent | src/routes/content.py:147-148 | a revision adds exactly one to `revision_count`, clears `is_approved` and changes nothing else in the row |
| ContentRoutes.RevisedOrderKeepsRequirements | src/routes/content.py:150-156 | the order moves to in_progress; `revision_notes` is set and every other requirement keeps its value |
| ContentRoutes.ReviseChanges | src/routes/content.py:136-163 | the guards change nothing; an accepted revision rewrites exactly the content row and its order |
| ContentRoutes.ReviseOrder | src/routes/content.py:151-156 | the order's assignments in `request_revision` give the revised order |
| ContentRoutes.ApplyRevision | src/routes/content.py:147-158 | the assignments rewrite exactly the content row and its order in the session |
| ContentRoutes.Revise | src/routes/content.py:131-166 | the handler's reply and session follow `ReviseSpec` |
| ContentRoutes.ApprovePreservesValid | src/routes/content.py:117-121 | approval keeps the store's integrity |
| ContentRoutes.RevisePreservesValid | src/routes/content.py:147-158 | revision keeps the store's integrity |
| ContentRoutes.ContentRowPreservesValid | src/routes/content.py:147-148 | rewriting a content row without touching its key or its order keeps the integrity |
| ContentRoutes.RegenerateChanges | src/routes/content.py:168-197 | non-admins change nothing; an unknown order answers 500; otherwise the order's first content row goes, the order is in_progress, and a failure is not reverted |
| ContentRoutes.ClearedStateValid | src/routes/content.py:176-182 | deleting the content row and setting in_progress keeps the integrity |
| ContentRoutes.RegeneratePreservesValid | src/routes/content.py:174-185 | admin regeneration keeps the store's integrity |
| ContentRoutes.Regenerate | src/routes/content.py:168-200 | the handler's reply and session follow `RegenerateSpec` |
| InitData.SeedOneAddsOnlyMissing | src/utils/init_data.py:45-53 | a seed is added exactly when no template of its type exists, active or not; otherwise nothing changes |
| InitData.SeedAllKeepsExisting | src/utils/init_data.py:45-56 | seeding only appends templates: every existing one stays unchanged and in place, and no other table changes |
| InitData.SeedAllCovers | src/utils/init_data.py:45-53 | after seeding, every seeded type has a template |
| InitData.SeedAllWhenCovered | src/utils/init_data.py:45-53 | when every type already has a template, seeding changes nothing |
| InitData.SeedingIdempotent | src/utils/init_data.py:45-56 | seeding twice gives what seeding once gives |
| InitData.SeedingCoversAllTypes | src/utils/init_data.py:7-53 | after start-up each of the five content types has a template |
| InitData.PlaceholderAt | src/utils/init_data.py:11-41 | a seed prompt holds `{topic}` right after its leading text |
| InitData.SeedFormats | src/utils/init_data.py:11-41 | a seed whose text around the placeholder is brace-free formats to that text with the title in place of the placeholder |
| InitData.SeedsWellFormed | src/utils/init_data.py:11-41 | every seed's word count is positive and its prompt contains `{topic}` |
| InitData.SeedAllPreservesValid | src/utils/init_data.py:45-56 | seeding keeps the store's integrity |
| InitData.SeedTemplates | src/utils/init_data.py:45-56 | the loop over the seed list leaves the session as `SeedAll` specifies |
| InitData.InitializeContentTemplates | src/utils/init_data.py:4-56 | start-up seeding of the five templates leaves the session as `SeedAll` specifies |
| InitData.FirstCovering | src/utils/init_data.py:47 | the type query finds a row exactly when some template has that type |
| InitData.CreateAdminOutcome | src/utils/init_data.py:66-77 | afterwards a user named 'admin' exists; one created now is an active admin, and an existing one is left untouched |
| InitData.CreateAdminIdempotent | src/utils/init_data.py:66-77 | creating the admin twice is creating it once |
| InitData.CreateAdminPreservesValid | src/utils/init_data.py:66-77 | creating the admin keeps the store's integrity |
| InitData.CreateAdminKeepsUsernamesUnique | src/utils/init_data.py:66-77 | the admin is added only under a free username, so usernames stay unique |
| InitData.CreateAdminMayDuplicateEmail | src/utils/init_data.py:66-77 | the email is not looked up: with no user named 'admin' but one holding the admin address, the address ends up held twice |
| InitData.CreateAdminKeepsEmailsUnique | src/utils/init_data.py:66-77 | with the admin address free, emails stay unique |
| InitData.CreateAdminUser | src/utils/init_data.py:62-84 | the function leaves the session as `CreateAdminSpec` specifies |
| Workflow.ReferenceLookupIgnoresStatus | src/routes/payment.py:74 | the payment lookup by reference does not depend on any payment's status |
| Workflow.ConfirmIgnoresPaymentStatus | src/routes/payment.py:74-93 | an owned payment found by its reference is confirmed with 200 and becomes completed whatever its status was |
| Workflow.RefundThenConfirm | src/routes/payment.py:84 | after a successful refund the same payment can be confirmed again and becomes completed once more |
| Workflow.RefundedCanBeConfirmed | src/routes/payment.py:84 | a refunded payment found by its reference is confirmed and becomes completed |
| Workflow.SecondIntentAllowed | src/routes/payment.py:29-31 | while the first intent is still pending, a second intent for the same order is accepted too |
| Workflow.SecondConfirmationCompletesToo | src/routes/payment.py:84 | with one completed payment for an order, confirming another leaves the order with two completed payments |
| Workflow.GenerateAgainAddsSecondRow | src/routes/content.py:29-33 | `/generate` on an order that already has content adds a second row and keeps the first |
| Workflow.RevisionNotesNeverReachPrompt | src/services/content_generator.py:98-112 | for an order with requirements, a revision leaves the generation prompt unchanged |
| Workflow.RevisionOfBareOrderAddsHeader | src/services/content_generator.py:99-100 | for an order without requirements, a revision makes the prompt carry the requirements header with no bullet |

## Left out

- OpenAI calls are the oracle `Generator.Llm`. `_calculate_quality_score` is left out: the score is part of the oracle's answer and is used only through the `> 0.7` rule. The `max_tokens` value is passed to the oracle in the request.
- Price arithmetic uses Dafny `real`. The model does not capture floating-point rounding or `round(..., 2)`.
- JWT encoding and decoding (signature and expiry), password hashing and checking, `uuid4` and `datetime.utcnow` are parameters: `Decoder`, the encoder, `hash`, `checkPassword`, the uuid hex and the clock.
- `updated_at` is not modelled. It is only an `onupdate` stamp that no handler or lemma reads.
- SQLite may reuse the key of a deleted last row. The model takes every new key from a per-table counter that never goes back.
- JSON request parsing is left out: a body is a record of optional fields.
  - JSON `null` and an absent key are both `None`.
  - Requirement values are strings only, so the model has no nested or non-string values.
  - Non-dict bodies are not represented.
- The `error` field of 500 replies carries `str(e)` of arbitrary exceptions and is not modelled. The message text is.
- The database commit of the start-up seeding and of the admin creation is assumed to succeed. The rollback after a failed commit is not modelled.
- Ties in `order_by(created_at.desc())` are kept in table order. The model does not capture any other order the database might return them in.
- `/me` and `/logout` return the caller or a constant and change nothing. They are not modelled.
- `src/main.py` (app set-up, CORS, static files) is not part of this model.
- Concurrency is not modelled. Each handler runs alone against the committed store.
- Models.GetRequirements: reads back exactly what `json.dumps` writes (`": "` and `", "` separators, string values, nothing after `}`). Valid JSON in any other spelling, such as `{"a":"b"}`, reads as the empty map, where `json.loads` returns the map. Every handler in the model stores requirements through `set_requirements`, so every text the model writes is in that spelling. Only a text written into the database by other means reaches the gap.
- InitData.CreateAdminSpec: the commit is taken to succeed. If the user model declares the email unique (that model is not part of this model), an existing holder of the admin address makes the commit fail and roll back. The model instead keeps the row and shows the duplicate (`CreateAdminMayDuplicateEmail`).
- InitData.SeedsWellFormed: proves that each literal seed prompt holds `{topic}` at the end of its leading text. It does not prove that the literal texts are brace-free, so it does not show that formatting them succeeds. `SeedFormats` proves that for any brace-free text.
- Prompt.BuildPrompt: `str.format` is modelled for `{{`, `}}` and `{topic}` only. Any other field, conversion or format spec counts as an error, although Python accepts some of them.
