# Nawam Fabrics backend: a Dafny model of its decision logic

The Nawam Fabrics backend is an ASP.NET service for a fabric shop. Its
catalog of categories and products lives in Airtable. Customers browse it
through a Facebook Messenger bot and ask questions through an FAQ
responder. This project models in Dafny the parts of that backend that
decide things, and proves what they promise:

- **The Messenger conversation** (`MessengerController`), module `Messenger`.
  - The webhook handshake.
  - Dispatch of an inbound event: a message, or a button press carrying a payload.
  - The three listings of cards:
    - main categories;
    - sub-categories, followed by a "back" card;
    - products.
  - How payloads are built (`MAIN_CATEGORY_{id}`, `SUB_CATEGORY_{main}_{sub}`,
    `ORDER_{id}`, `BACK_TO_MAIN`) and how they are read back.
  - The category-name lookup.
  - What the controller hands to the messenger service is returned as a
    list of outbound messages, in the order they are sent.
- **The catalog endpoints** (`AirtableController`), module `AirtableEndpoints`.
  - Pass-through listings with their empty-id checks.
  - The id lookup.
  - The merged, de-duplicated product list.
  - The two-level category tree built for the bot.
  - Each action returns its HTTP response together with the calls it made on
    the catalog service, so "no call was made" can be stated.
- **The category hierarchy** (`CategoriesController.GetAll`), module
  `CategoriesEndpoint`.
  - Field dictionaries become categories.
  - Categories without a parent become roots.
  - Each root's children are the categories whose parent equals its id.
- **The FAQ responder** (`FaqService.GetReplyAsync`), module `Faq`.
  - The question is trimmed, lower-cased and letter-folded:
    - أ, إ and آ become ا;
    - ة becomes ه;
    - ى becomes ي.
  - It is then tried against an ordered table of 15 keyword rules; the
    first rule with a keyword inside the question gives the answer.
  - When no rule matches, a language model is consulted.
- **The Airtable store** (`AirtableService`), module `AirtableStore`.
  - Listing products and categories, record by record.
  - Looking up a product's name.
  - Creating a reservation, followed by one Telegram notice.
  - Modelled as a class over fixed Airtable answers, with a ghost log of its
    effects in order.

Shared modules:

- `Catalog`: the catalog's data shapes, and the answers of the catalog
  service interface `IAirtableService` as given inputs.
- `Text`: the .NET string operations the code relies on, with their
  semantics written out:
  - ordinal `Contains`, `Replace`, `Split(char)` and `Trim`;
  - `Take`;
  - decimal rendering of whole numbers.
- `Lists`: LINQ `Where`.
- `Nullable`: `Option` for `null` and `Result` for exceptions.

External effects become inputs or outputs:

- The catalog service's answers are a value per request (`Catalog.AirtableApi`).
  - `Fault` stands for an exception.
  - `NullList` stands for a `null` list.
- Airtable's answers are functions held by the service object.
- The language model is a function parameter.
- Culture-sensitive `ToLower` is a per-character map parameter.
- Messages to Messenger and Telegram are returned, or logged, in order.

## Model

| member | source | states |
|---|---|---|
| Messenger.VerifyWebhook | fabrics/Controllers/MessengerController.cs:26-45 | The challenge is echoed exactly when the mode is "subscribe" and the token is "my_messenger_token"; every other request is forbidden. |
| Messenger.ExcerptIsPrefix | fabrics/Controllers/MessengerController.cs:255 | The description excerpt on a product card is its first min(60, length) characters: a prefix of the description, at most 60 long, all of it when shorter, empty for a null description. |
| Messenger.ProductCardShape | fabrics/Controllers/MessengerController.cs:250-273 | A product card has exactly two buttons, `ORDER_{id}` then `BACK_TO_MAIN`, and its subtitle always ends with "...". |
| Messenger.MainListing | fabrics/Controllers/MessengerController.cs:98-138 | The main listing is exactly one message to the sender. It is a template exactly when the service answered with a non-empty list. The template holds min(10, n) cards, the i-th for the i-th category. An empty or null list gives the "no categories" text. |
| Messenger.SubListing | fabrics/Controllers/MessengerController.cs:174-232 | An empty or null sub-category list falls through to the products of the main category. Otherwise there is one template of min(10, n) sub-category cards in order, then exactly one back card as the last card, so at most 11 cards. |
| Messenger.ProductListing | fabrics/Controllers/MessengerController.cs:235-283 | An empty or null product list gives the "no products" text followed by the main listing. Otherwise there is one template of min(10, n) product cards, in the service's order. |
| Messenger.MainReplyDeliverable | fabrics/Controllers/MessengerController.cs:98-138 | The main listing sends at least one message, and every template sent has 1 to 11 cards with one or two buttons each. |
| Messenger.ProductsReplyDeliverable | fabrics/Controllers/MessengerController.cs:235-283 | The product listing sends one or two messages, each template with 1 to 11 cards of one or two buttons. |
| Messenger.SubReplyDeliverable | fabrics/Controllers/MessengerController.cs:174-232 | The sub-category listing sends one or two messages, each template with 1 to 11 cards of one or two buttons. |
| Messenger.PostbackAnswered | fabrics/Controllers/MessengerController.cs:142-171 | A postback gets no reply at all exactly when its payload matches none of the three branches. Otherwise it gets one or two well-formed messages. |
| Messenger.MainPayloadRoundTrip | fabrics/Controllers/MessengerController.cs:146-150 | For an id not containing "MAIN_CATEGORY_", the payload of its main-category button (line 124) is read back to exactly that id and leads to that category's sub-category listing. |
| Messenger.SubRemainder | fabrics/Controllers/MessengerController.cs:151-153 | When neither id holds '_', removing every "SUB_CATEGORY_" from a sub-category payload leaves `main + "_" + sub`. |
| Messenger.SubPayloadRoundTrip | fabrics/Controllers/MessengerController.cs:151-159 | For ids without '_', a sub-category button's payload (line 201) splits into exactly two parts and leads to the products of the sub-category. |
| Messenger.SubPayloadWithUnderscores | fabrics/Controllers/MessengerController.cs:151-160 | When either id carries its own '_' (and the ids do not spell "SUB_CATEGORY_"), the payload does not split into two parts and pressing the button sends nothing. |
| Messenger.BackShowsMain | fabrics/Controllers/MessengerController.cs:161-164 | "BACK_TO_MAIN" is answered with the main listing. |
| Messenger.OrderButtonIgnored | fabrics/Controllers/MessengerController.cs:146-164 | An `ORDER_{id}` payload (line 263) matches no branch, so pressing "order" sends nothing. |
| Messenger.SendMainCategories | fabrics/Controllers/MessengerController.cs:98-138 | The card-building loop sends exactly the main listing. |
| Messenger.SendProducts | fabrics/Controllers/MessengerController.cs:235-283 | The card-building loop sends exactly the product listing. |
| Messenger.SendSubCategories | fabrics/Controllers/MessengerController.cs:174-232 | The card-building loop sends exactly the sub-category listing, back card included. |
| Messenger.HandlePostback | fabrics/Controllers/MessengerController.cs:142-171 | Sends exactly the reply of the selected step; a null payload is answered with the error text. |
| Messenger.ProcessEventsStops | fabrics/Controllers/MessengerController.cs:51-94 | Once an event has thrown and the request has stopped, later events change nothing: neither the status nor the messages sent. |
| Messenger.ProcessEventsAnswersAll | fabrics/Controllers/MessengerController.cs:58-88 | When no event throws, the request ends with "EVENT_RECEIVED" and every event except the silently ignored ones is answered. |
| Messenger.MessageAnsweredWithMainListing | fabrics/Controllers/MessengerController.cs:65-84 | An event with a string or null sender id and a "message" object is answered with the main listing, to that id, whatever its string, null or missing text and whether or not it also carries "postback". |
| Messenger.EventThrows | fabrics/Controllers/MessengerController.cs:65-84 | Reading an event throws exactly when the event is not an object, its sender id is missing or not a string, its "message" is not an object or has a non-string "text", or, without "message", its "postback" payload is missing or not a string. |
| Messenger.HandleEvent | fabrics/Controllers/MessengerController.cs:65-84 | The body of the inner loop gives exactly the event's specified answer, or the throw. |
| Messenger.Receive | fabrics/Controllers/MessengerController.cs:49-95 | The nested loops over "entry" and "messaging" give exactly the specified receipt. A body without "entry" is a BadRequest. A body that is not an object, an "entry" or "messaging" that is not an array, or an event that throws ends the request with a 500. |
| Messenger.ProcessEventsStep | fabrics/Controllers/MessengerController.cs:58-88 | After events that were all answered, one more event either appends its answer or ends the request with a 500, keeping what was sent. |
| Messenger.ThrownStops | fabrics/Controllers/MessengerController.cs:90-94 | Returning at the first event that throws gives the same receipt as processing every event. |
| Messenger.EntryThrownStops | fabrics/Controllers/MessengerController.cs:58-61 | Returning at the first entry that cannot be read gives the same receipt as processing every entry. |
| Messenger.CategoryNameIsFirstMatch | fabrics/Controllers/MessengerController.cs:286-300 | The category name is that of the first category carrying the id, or "غير محدد" when that category has none. |
| Messenger.CategoryNameUnknown | fabrics/Controllers/MessengerController.cs:286-300 | "غير محدد" is returned in four cases: a null or empty id, a failed lookup, or an id no category carries. |
| Catalog.FirstIndex | fabrics/Controllers/AirtableController.cs:229 | `FirstOrDefault` by id: the first position whose element has the id, or the length when none does. Used for categories and for the first product of an id. |
| Catalog.ToText | fabrics/Controllers/CategoriesController.cs:23-26 | `?.ToString()` is null exactly for a null value and the text itself for a string. |
| Text.ContainsIff | fabrics/Controllers/AirtableController.cs:276 | `Contains` is a substring test: it holds exactly when the word occurs at some position. |
| Text.ReplaceAbsent | fabrics/Controllers/MessengerController.cs:148 | `Replace` leaves a text without the pattern unchanged. |
| Text.ReplaceCharIsSubstitute | fabrics/Services/FaqService.cs:25-29 | Replacing a one-letter pattern by a one-letter text substitutes that letter everywhere. |
| Text.JoinSplit | fabrics/Controllers/MessengerController.cs:153 | `Split('_')` loses nothing: joining the parts with '_' gives the text back. |
| Text.SplitJoin | fabrics/Controllers/MessengerController.cs:153 | Parts without '_' joined by '_' split back into exactly those parts. |
| Text.SplitCount | fabrics/Controllers/MessengerController.cs:153-154 | `Split` gives one more part than there are separators. |
| Text.TrimStart | fabrics/Services/FaqService.cs:24 | Removes exactly the leading white space. |
| Text.TrimEnd | fabrics/Services/FaqService.cs:24 | Removes exactly the trailing white space. |
| Text.TrimmedEnds | fabrics/Services/FaqService.cs:24 | A trimmed text neither starts nor ends with white space, and trimming again changes nothing. |
| Text.Take | fabrics/Controllers/MessengerController.cs:112 | `Take(10)` is the first min(10, n) elements. |
| Text.NatToTextValue | fabrics/Controllers/MessengerController.cs:255 | The price printed on a card is decimal digits denoting the price. |
| Lists.Filter | fabrics/Controllers/AirtableController.cs:261 | `Where` keeps exactly the elements satisfying the predicate and never lengthens the list. |
| Lists.FilterWith | fabrics/Controllers/AirtableController.cs:274-277 | `Where` with a key keeps exactly the elements related to the key. |
| Lists.FilterAppend | fabrics/Controllers/AirtableController.cs:261 | `Where` keeps relative order: it distributes over concatenation. |
| AirtableEndpoints.GetAllCategories | fabrics/Controllers/AirtableController.cs:24-46 | One service call; Ok with the service's list unless the call throws (500). |
| AirtableEndpoints.GetMainCategories | fabrics/Controllers/AirtableController.cs:50-72 | One service call; Ok with the service's list unless the call throws (500). |
| AirtableEndpoints.GetSubCategories | fabrics/Controllers/AirtableController.cs:76-107 | A null or empty id is a BadRequest exactly, and then no call is made. Otherwise there is one call for that id, and Ok unless it throws. |
| AirtableEndpoints.GetProductsByCategory | fabrics/Controllers/AirtableController.cs:111-142 | A null or empty id is a BadRequest exactly, and then no call is made. Otherwise there is one call for that id, and Ok unless it throws. |
| AirtableEndpoints.GetCategoryById | fabrics/Controllers/AirtableController.cs:215-256 | A null or empty id is a BadRequest with no call. The response is 500 exactly when the listing fails, and NotFound exactly when no category has the id. Ok returns the first category with that id. |
| AirtableEndpoints.GatherStops | fabrics/Controllers/AirtableController.cs:158-162 | Once a product call fails, the loop makes no further calls. |
| AirtableEndpoints.GatherSpec | fabrics/Controllers/AirtableController.cs:156-162 | One product call per category, in category order, up to and including the first that fails. Every call before the last answered with a list. When none fails, every category was queried and every answer was a list. |
| AirtableEndpoints.GatherProducts | fabrics/Controllers/AirtableController.cs:156-162 | When no call fails, a product is gathered exactly when it is in the list fetched for some category. |
| AirtableEndpoints.DistinctIds | fabrics/Controllers/AirtableController.cs:165 | `DistinctBy(Id)` keeps every id that occurs, and no other. |
| AirtableEndpoints.DistinctUnique | fabrics/Controllers/AirtableController.cs:165 | No two products kept share an id. |
| AirtableEndpoints.DistinctFirst | fabrics/Controllers/AirtableController.cs:165 | Each product kept is the first product with its id. |
| AirtableEndpoints.GetAllProducts | fabrics/Controllers/AirtableController.cs:147-183 | The loop with `AddRange` and the final `DistinctBy` give exactly the specified response and calls. |
| AirtableEndpoints.AllProductsCalls | fabrics/Controllers/AirtableController.cs:152-162 | A successful merge lists all categories, then queries exactly those with ProductsCount > 0, once each and in order. |
| AirtableEndpoints.AllProductsResult | fabrics/Controllers/AirtableController.cs:156-172 | A successful merge returns products with unique ids, covers every id fetched, keeps for each id its first product, and lists them in the order their ids first occur. |
| AirtableEndpoints.DistinctOrder | fabrics/Controllers/AirtableController.cs:165 | `DistinctBy` keeps the products in the order their ids first occur. |
| AirtableEndpoints.BuildCategoryTree | fabrics/Controllers/AirtableController.cs:259-293 | The nested loops build exactly the specified tree. |
| AirtableEndpoints.GetCategoryTree | fabrics/Controllers/AirtableController.cs:187-210 | One listing call; Ok with the tree of the listed categories, 500 when the call fails. |
| AirtableEndpoints.TreeRoots | fabrics/Controllers/AirtableController.cs:261-264 | There is one node per main category, in input order, and every node comes from a main category. |
| AirtableEndpoints.TreeChildren | fabrics/Controllers/AirtableController.cs:274-287 | A main node's children are exactly the categories whose ParentCategory contains its id as a substring, in input order. This includes every exact-match child. |
| AirtableEndpoints.TreeDepth | fabrics/Controllers/AirtableController.cs:281-286 | Child nodes have no children: the tree is at most two levels deep. |
| AirtableEndpoints.ChildUnderTwoRoots | fabrics/Controllers/AirtableController.cs:261-287 | A consequence of the substring test. When one root's id is a proper prefix of another's (say "rec1" and "rec12"), a child of the longer id appears under both roots. |
| CategoriesEndpoint.Required | fabrics/Controllers/CategoriesController.cs:23-24 | `d[key].ToString()` throws on a missing key and on a null value; otherwise it is the value's text. |
| CategoriesEndpoint.Optional | fabrics/Controllers/CategoriesController.cs:25-26 | A missing or null "Description"/"ParentCategory" becomes null; otherwise it is the value's text. |
| CategoriesEndpoint.ToCategory | fabrics/Controllers/CategoriesController.cs:21-27 | A record becomes a category exactly when "Id" and "Name" are present and non-null, with the fields carried over; otherwise it fails with the first fault. |
| CategoriesEndpoint.ToCategoryFromCategory | fabrics/Controllers/CategoriesController.cs:21-27 | Round trip: a category with a name, no children, not main and no products, written as a field record, is read back unchanged. |
| CategoriesEndpoint.ToCategories | fabrics/Controllers/CategoriesController.cs:21-27 | The `Select` succeeds exactly when every record converts. The result is then one category per record, in order. Otherwise the first failing record's fault is reported. |
| CategoriesEndpoint.GetAll | fabrics/Controllers/CategoriesController.cs:16-39 | The loop over the roots, which assigns each root's children, gives exactly the specified hierarchy. |
| CategoriesEndpoint.HierarchyRoots | fabrics/Controllers/CategoriesController.cs:30-38 | The result is exactly the parentless categories, in input order, each with its children attached. |
| CategoriesEndpoint.HierarchyChildren | fabrics/Controllers/CategoriesController.cs:31-36 | A root's children are exactly the categories whose ParentCategory equals its id, in input order. |
| CategoriesEndpoint.OrphanDropped | fabrics/Controllers/CategoriesController.cs:30-38 | A category whose parent is no root's id appears nowhere in the result. |
| CategoriesEndpoint.EmptyParentDropped | fabrics/Controllers/CategoriesController.cs:26-38 | A ParentCategory of "" is not treated as "no parent". Such a category appears nowhere in the result when no id is empty. |
| CategoriesEndpoint.RootsUnique | fabrics/Controllers/CategoriesController.cs:30 | Selecting the roots keeps ids unique. |
| CategoriesEndpoint.AtMostOneRoot | fabrics/Controllers/CategoriesController.cs:30-36 | With unique ids, a category sits under at most one root. |
| CategoriesEndpoint.ChildrenAreLeaves | fabrics/Controllers/CategoriesController.cs:33-35 | Every child's parent is its root's id, and children carry no children of their own. |
| Faq.Lower | fabrics/Services/FaqService.cs:24 | `ToLower` maps character by character and keeps the length. |
| Faq.FoldIsPerCharacter | fabrics/Services/FaqService.cs:25-29 | The chain of five `Replace` calls equals folding each character on its own. |
| Faq.NormalizedForm | fabrics/Services/FaqService.cs:24-29 | A normalised question holds none of أ, إ, آ, ة, ى. When lower-casing keeps white space apart, it also neither starts nor ends with white space. |
| Faq.TrimUntouched | fabrics/Services/FaqService.cs:24 | A text without white space at its ends is its own trim. |
| Faq.NormalizeIdempotent | fabrics/Services/FaqService.cs:24-29 | Normalising twice gives what normalising once gave, when the lower-case map is idempotent and keeps ا, ه, ي. |
| Faq.FoldKeepsOccurrence | fabrics/Services/FaqService.cs:24-29 | A word in the lower-cased question appears folded at the same place in the normalised question. |
| Faq.FirstMatch | fabrics/Services/FaqService.cs:34-93 | Rules are tried in order: the result is the first rule with a keyword in the question, or the table's length when none has one. |
| Faq.GetReply | fabrics/Services/FaqService.cs:22-97 | The language model is consulted exactly when no rule matches. It gets the normalised question, and its answer is returned unchanged. Otherwise the reply is the answer of a rule that matches, with no earlier rule matching. |
| Faq.FoldedKeywordNeverOccurs | fabrics/Services/FaqService.cs:24-29 | A keyword holding a letter that folding removes never occurs in a normalised question. |
| Faq.ReassuranceRuleNeverFires | fabrics/Services/FaqService.cs:88-89 | The rule at line 88 never answers: its keyword starts with أ, which normalisation removed. |
| Faq.InspectionKeywordNeverOccurs | fabrics/Services/FaqService.cs:68 | The keyword "معاينة" never occurs in a normalised question, since it holds ة. |
| Faq.HelpSpelling | fabrics/Services/FaqService.cs:59 | Folding turns "مساعدة" into the keyword "مساعده". |
| Faq.TaMarbutaMatchesHelp | fabrics/Services/FaqService.cs:59 | A question typed with "مساعدة" matches the help rule, whose keyword is spelled with ه. |
| Faq.TaMarbutaMatchesShipping | fabrics/Services/FaqService.cs:64 | A question typed with "محافظة" matches the shipping rule, whose keyword is spelled with ه. |
| Faq.ShadowedKeyword | fabrics/Services/FaqService.cs:59 | A question holding " اختيار القماش المناسب" is answered by the first rule (line 34), since it holds "مناسب". |
| Faq.EdgeSpaceKeyword | fabrics/Services/FaqService.cs:24 | A keyword starting (ending) with white space can only occur past the start (before the end) of a normalised question. |
| Faq.AlreadyNormal | fabrics/Services/FaqService.cs:24-29 | A question without folded letters and edge white space, on letters lower-casing keeps, is its own normal form. |
| Faq.NoRuleMatchesWhatsApp | fabrics/Services/FaqService.cs:84 | No rule has a keyword inside "واتساب": the contact keyword is " واتساب", with a leading space. |
| Faq.WhatsAppAloneReachesModel | fabrics/Services/FaqService.cs:84-96 | The question "واتساب" alone misses the contact rule. It is handed, unchanged, to the language model, and the model's answer is the reply. |
| Faq.HelpIsFirstMatch | fabrics/Services/FaqService.cs:34-60 | "مساعده" matches none of the first six rules and matches the seventh. |
| Faq.TaMarbutaHelp | fabrics/Services/FaqService.cs:24-60 | A question that, trimmed and lower-cased, folds letter by letter into "مساعده" gets the help answer. "مساعدة", typed with ة, is such a question. |
| AirtableStore.TextField | fabrics/Services/AirtableService.cs:44-45 | `GetField<string>` is the string's text, or null when the field is absent or not a string. |
| AirtableStore.FirstLinked | fabrics/Services/AirtableService.cs:47-48 | A linked-record field becomes its first element, or null when absent, null or empty. |
| AirtableStore.PriceField | fabrics/Services/AirtableService.cs:46 | The price is the field's value, or null when absent or null. |
| AirtableStore.ProductsListed | fabrics/Services/AirtableService.cs:39-51 | There is one product per record, in record order, with Id the record id and the two links reduced to their first element. |
| AirtableStore.CategoriesListed | fabrics/Services/AirtableService.cs:66-76 | There is one category per record, in record order, with Id the record id and ParentCategory the first linked id. |
| AirtableStore.ProductsOf | fabrics/Services/AirtableService.cs:31-55 | An unsuccessful listing gives no products; a successful one gives one per record. |
| AirtableStore.CategoriesOf | fabrics/Services/AirtableService.cs:58-80 | An unsuccessful listing gives no categories; a successful one gives one per record. |
| AirtableStore.ProductName | fabrics/Services/AirtableService.cs:83-94 | The Name field's text when the retrieval succeeded and Name is present and not null; "اسم غير معروف" otherwise. |
| AirtableStore.ReservationFields | fabrics/Services/AirtableService.cs:107-112 | The written record has exactly the five fields, the product as a one-element link. |
| AirtableStore.AirtableErrorMessage | fabrics/Services/AirtableService.cs:135-137 | The message is "Airtable error: ", then the API's error message, then ". Details: ", then its detailed message, and nothing else. A missing message becomes "Unknown error"; missing details become "No details". |
| AirtableStore.Reservation | fabrics/Services/AirtableService.cs:100-138 | Nothing happens and the "ProductRecordId is required" error is raised exactly when the product id is null or empty. When the create succeeds: the effects are create, then the name lookup, then one notice, and the new record's id is returned. When it fails: the error embeds the API messages and nothing is sent. |
| AirtableStore.ReservationNotices | fabrics/Services/AirtableService.cs:116-137 | Exactly one Telegram notice is sent when the reservation succeeds, none otherwise. |
| AirtableStore.ReservationNoticeLines | fabrics/Services/AirtableService.cs:122-127 | When no value holds a line break, the notice is six lines: the heading, then product name, quantity, name, phone and address, in that order. |
| AirtableStore.AirtableService.constructor | fabrics/Services/AirtableService.cs:20-26 | The service starts over the given Airtable answers with an empty effect log. |
| AirtableStore.AirtableService.GetProducts | fabrics/Services/AirtableService.cs:31-55 | The record loop gives exactly the products of the Products listing, and logs one listing call. |
| AirtableStore.AirtableService.GetCategories | fabrics/Services/AirtableService.cs:58-80 | The record loop gives exactly the categories of the Categories listing, and logs one listing call. |
| AirtableStore.AirtableService.GetProductNameById | fabrics/Services/AirtableService.cs:83-94 | Returns the product-name decision for one retrieval from Products, and logs that retrieval. |
| AirtableStore.AirtableService.CreateReservation | fabrics/Services/AirtableService.cs:100-138 | Returns exactly the specified outcome and appends exactly the specified effects to the log. |

## Left out

- Logging, async/await and the hosting set-up (dependency injection, CORS, Swagger, the Telegram polling loop) are not modelled.
- Other controllers and services are not part of this model:
  - `WebhookController` (the WhatsApp webhook);
  - `MessengerService` (its code is commented out);
  - `TelegramService`, which is only the notice effect in the log;
  - `TelegramController`;
  - the one-line `ReservationsController` and `productsController`.
- No implementation of `IAirtableService` is part of this model; its four answers are inputs.
- The HTTP call to the language model in `FaqService.GetAiReplyAsync` is a function parameter.
- The declaration of the reservation request type is not part of this model. Its five properties are modelled with the quantity carried as the text it renders to.
- Sends to Messenger and Telegram are assumed to succeed. A send that throws, including one inside a `catch`, is not modelled.
- The catalog service's answers are one snapshot per request: two calls with the same argument give the same answer.
- Exceptions are the `Failure`, `Fault` or `Threw` cases of a result. They are modelled where the code raises them itself, where reading the Messenger webhook's JSON raises them, and for the catalog service's failures.
- The Messenger webhook's JSON is modelled only as deep as the controller reads it. A body, entry or event is an object or not. "entry" and "messaging" are missing, an array, or something else. The sender id, "text" and the postback's payload are missing, null, a string, or another kind of value. A missing "sender" object or a non-object "sender" is folded into a missing id, as both throw.
- Messenger.EventReply: a null sender id is read as null and passed on to the listings, which address their messages to it (the `None` recipient); what the messenger service then does with it is not modelled.
- An Airtable client that throws instead of returning an unsuccessful response is not modelled.
- `GetField<T>` on a value of another type throws a conversion error. `AirtableStore.TextField` and `AirtableStore.FirstLinked` read such a value as null instead.
- AirtableStore.PriceField: passes any non-null value through as the price. In the source a non-numeric "PricePerMeter" makes `GetField<double?>` throw, which the model does not represent.
- `ToString()` of a field value other than a string or a string list is kept abstract: the rendered text it carries. A string list renders as "System.String[]", as .NET's default `ToString()` of an array does.
- Strings are sequences of Unicode scalar values; .NET counts UTF-16 code units. `Substring(0, 60)` on a description with characters outside the Basic Multilingual Plane may cut a different number of characters, or split a surrogate pair.
- `StartsWith` with a string argument is culture-sensitive in .NET. The model uses an ordinal prefix test, which differs only for payloads holding characters the culture ignores.
- `ToLower` is culture-sensitive. It is a per-character map parameter, with no assumption about which culture is active.
- Prices are only displayed. The `int` price of `Product` is printed in decimal; the `double?` price of the Airtable `product` is kept as the raw field value, with no floating-point reasoning.
- `Category.Products` is never read by the modelled code.
- The category model declares neither `IsMainCategory` nor `ProductsCount`, and `CategoryTreeDto` declares no `ProductsCount`. They are plain fields of the modelled records.
- `CategoriesController.GetAll` indexes categories as field dictionaries. The model follows that reading.
- An exception in `CategoriesController.GetAll` becomes a `Failure` result. Its mapping to an HTTP status by the framework is not modelled.
- A null question makes `question.Trim()` throw in `FaqService.GetReplyAsync`. The question is a `string` here, so it is never null.
- A canned FAQ reply is given as the position of its rule. Its text is `RuleAnswers` at that position.
- Messenger.ProcessEventsAnswersAll: states a lower bound on the messages sent, not the exact list. The exact list is `ProcessEvents` itself, which `Messenger.Receive` is proved against.
