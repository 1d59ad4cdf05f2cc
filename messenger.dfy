/**
 * The Facebook Messenger conversation (fabrics/Controllers/MessengerController.cs).
 *
 * The conversation keeps no state between requests: every button carries a
 * payload string that says what was chosen, and each inbound event is
 * answered from that payload and the catalog service's answers alone.
 * What the controller hands to the messenger service is returned as a list
 * of `Outbound` messages, in the order they are sent.
 */
module Messenger {
  import opened Nullable
  import opened Text
  import opened Catalog
  import opened Lists

  // ---------------------------------------------------------------------
  // Webhook verification (GET)
  // ---------------------------------------------------------------------

  const VerifyToken: string := "my_messenger_token"

  /** `Ok(challenge)` or `Forbid()`. */
  datatype Verification = Challenge(challenge: Option<string>) | Forbidden

  /** The subscription handshake: the challenge is echoed only to a subscriber that knows the token. */
  function VerifyWebhook(mode: Option<string>, verifyToken: Option<string>, challenge: Option<string>): (r: Verification)
    ensures r.Challenge? <==> mode == Some("subscribe") && verifyToken == Some(VerifyToken)
    ensures r.Challenge? ==> r.challenge == challenge
  {
    if mode == Some("subscribe") && verifyToken == Some(VerifyToken) then Challenge(challenge) else Forbidden
  }

  // ---------------------------------------------------------------------
  // What is sent
  // ---------------------------------------------------------------------

  datatype Button = Button(kind: string, title: string, payload: string)

  /** One card of a generic template (no image is set: the image lines are commented out). */
  datatype Element = Element(title: string, subtitle: Option<string>, buttons: seq<Button>)

  /** `SendTextAsync` or `SendGenericTemplateAsync`, with the recipient id (`None` for a null id). */
  datatype Outbound = SendText(recipient: Option<string>, text: string) | SendTemplate(recipient: Option<string>, elements: seq<Element>)

  /** The `Take(10)` applied to every listing. */
  const MaxElements: nat := 10
  /** The length of the description excerpt on a product card. */
  const ExcerptLength: nat := 60

  const MainPrefix: string := "MAIN_CATEGORY_"
  const SubPrefix: string := "SUB_CATEGORY_"
  const OrderPrefix: string := "ORDER_"
  const BackToMain: string := "BACK_TO_MAIN"

  function MainPayload(mainId: string): string {
    MainPrefix + mainId
  }

  function SubPayload(mainId: string, subId: string): string {
    SubPrefix + mainId + "_" + subId
  }

  function OrderPayload(productId: string): string {
    OrderPrefix + productId
  }

  const NoCategoriesText: string := "❌ لا توجد تصنيفات متاحة حالياً."
  const CategoriesErrorText: string := "❌ حدث خطأ في جلب التصنيفات."
  const PostbackErrorText: string := "❌ حدث خطأ. حاول مرة أخرى."
  const SubCategoriesErrorText: string := "❌ حدث خطأ في جلب التصنيفات الفرعية."
  const NoProductsText: string := "❌ لا توجد منتجات في هذا التصنيف."
  const ProductsErrorText: string := "❌ حدث خطأ في جلب المنتجات."
  const UnnamedCategory: string := "بدون اسم"
  const UnnamedProduct: string := "منتج بدون اسم"
  const UnknownCategory: string := "غير محدد"

  function MainCard(c: Category): Element {
    Element(c.name.GetOr(UnnamedCategory), None, [Button("postback", "📂 اختر التصنيف", MainPayload(c.id))])
  }

  function SubCard(mainId: string, c: Category): Element {
    Element(c.name.GetOr(UnnamedCategory), None, [Button("postback", "🛍️ عرض المنتجات", SubPayload(mainId, c.id))])
  }

  /** The card appended after the subcategories. */
  const BackCard: Element :=
    Element("العودة للرئيسية", Some("العودة لقائمة التصنيفات الرئيسية"), [Button("postback", "🔙 العودة", BackToMain)])

  /** `Description?.Substring(0, Math.Min(60, Description.Length))`, with `null` interpolated as nothing. */
  function Excerpt(description: Option<string>): string {
    match description
    case None => ""
    case Some(d) => d[..if |d| < ExcerptLength then |d| else ExcerptLength]
  }

  /** The excerpt is the start of the description, at most 60 characters long, and all of it when it is shorter. */
  lemma ExcerptIsPrefix(description: Option<string>)
    ensures |Excerpt(description)| <= ExcerptLength
    ensures description.Some? ==> IsPrefix(Excerpt(description), description.value)
    ensures description.Some? && |description.value| <= ExcerptLength ==> Excerpt(description) == description.value
    ensures description.None? ==> Excerpt(description) == ""
  {
  }

  function ProductSubtitle(p: Product): string {
    "💰 " + IntToText(p.pricePerMeter) + " جنيه | " + Excerpt(p.description) + "..."
  }

  function ProductCard(p: Product): Element {
    Element(p.name.GetOr(UnnamedProduct), Some(ProductSubtitle(p)),
      [Button("postback", "🛒 طلب المنتج", OrderPayload(p.id)), Button("postback", "🔙 العودة", BackToMain)])
  }

  /** A product card has exactly the two buttons "order" then "back", and its subtitle always ends with "...". */
  lemma ProductCardShape(p: Product)
    ensures var e := ProductCard(p);
      && |e.buttons| == 2
      && e.buttons[0].payload == OrderPayload(p.id)
      && e.buttons[1].payload == BackToMain
      && e.subtitle.Some?
      && |e.subtitle.value| >= 3
      && e.subtitle.value[|e.subtitle.value| - 3..] == "..."
  {
  }

  function MainCards(cs: seq<Category>): seq<Element> {
    var shown := Take(cs, MaxElements);
    seq(|shown|, i requires 0 <= i < |shown| => MainCard(shown[i]))
  }

  function SubCards(mainId: string, cs: seq<Category>): seq<Element> {
    var shown := Take(cs, MaxElements);
    seq(|shown|, i requires 0 <= i < |shown| => SubCard(mainId, shown[i]))
  }

  function ProductCards(ps: seq<Product>): seq<Element> {
    var shown := Take(ps, MaxElements);
    seq(|shown|, i requires 0 <= i < |shown| => ProductCard(shown[i]))
  }

  // ---------------------------------------------------------------------
  // The replies, as functions of the service's answers
  // ---------------------------------------------------------------------

  /** What `SendMainCategories` sends. */
  function MainReply(api: AirtableApi, sender: Option<string>): seq<Outbound> {
    var fetched := api.mainCategories;
    if fetched.Fault? then [SendText(sender, CategoriesErrorText)]
    else if |fetched.Listed()| == 0 then [SendText(sender, NoCategoriesText)]
    else [SendTemplate(sender, MainCards(fetched.Listed()))]
  }

  /** What `SendProducts` sends for a category. */
  function ProductsReply(api: AirtableApi, sender: Option<string>, categoryId: string): seq<Outbound> {
    var fetched := api.productsOf(categoryId);
    if fetched.Fault? then [SendText(sender, ProductsErrorText)]
    else if |fetched.Listed()| == 0 then [SendText(sender, NoProductsText)] + MainReply(api, sender)
    else [SendTemplate(sender, ProductCards(fetched.Listed()))]
  }

  /** What `SendSubCategories` sends for a main category. */
  function SubReply(api: AirtableApi, sender: Option<string>, mainId: string): seq<Outbound> {
    var fetched := api.subCategoriesOf(mainId);
    if fetched.Fault? then [SendText(sender, SubCategoriesErrorText)]
    else if |fetched.Listed()| == 0 then ProductsReply(api, sender, mainId)
    else [SendTemplate(sender, SubCards(mainId, fetched.Listed()) + [BackCard])]
  }

  /** The step a postback payload selects. */
  datatype Step = ShowSubCategories(mainId: string) | ShowProducts(categoryId: string) | ShowMain | Ignore

  /** The prefix dispatch of `HandlePostback`. */
  function Dispatch(payload: string): Step {
    if IsPrefix(MainPrefix, payload) then ShowSubCategories(ReplaceAll(payload, MainPrefix, ""))
    else if IsPrefix(SubPrefix, payload) then
      var parts := Split(ReplaceAll(payload, SubPrefix, ""), '_');
      if |parts| == 2 then ShowProducts(parts[1]) else Ignore
    else if payload == BackToMain then ShowMain
    else Ignore
  }

  /** What `HandlePostback` sends; a `null` payload throws inside its `try` and is answered with an error text. */
  function PostbackReply(api: AirtableApi, sender: Option<string>, payload: Option<string>): seq<Outbound> {
    match payload
    case None => [SendText(sender, PostbackErrorText)]
    case Some(p) =>
      match Dispatch(p)
      case ShowSubCategories(mainId) => SubReply(api, sender, mainId)
      case ShowProducts(categoryId) => ProductsReply(api, sender, categoryId)
      case ShowMain => MainReply(api, sender)
      case Ignore => []
  }

  // ---------------------------------------------------------------------
  // Properties of the listings
  // ---------------------------------------------------------------------

  /**
   * The main listing is one message: one text when the service failed or
   * has no main categories, otherwise one template holding the first
   * min(10, n) categories in the service's order.
   */
  lemma MainListing(api: AirtableApi, sender: Option<string>)
    ensures |MainReply(api, sender)| == 1
    ensures var cs := api.mainCategories.Listed(); var out := MainReply(api, sender)[0];
      && out.recipient == sender
      && (out.SendTemplate? <==> !api.mainCategories.Fault? && |cs| > 0)
      && (out.SendTemplate? ==>
            && |out.elements| == (if |cs| < MaxElements then |cs| else MaxElements)
            && forall i :: 0 <= i < |out.elements| ==> out.elements[i] == MainCard(cs[i]))
      && (out.SendText? && !api.mainCategories.Fault? ==> out.text == NoCategoriesText)
  {
  }

  /**
   * A non-empty subcategory list is one template: min(10, n) subcategory
   * cards in order, then exactly one back card, last; so at most 11 cards.
   * An empty or `null` list falls through to the products of the main
   * category itself.
   */
  lemma SubListing(api: AirtableApi, sender: Option<string>, mainId: string)
    ensures var fetched := api.subCategoriesOf(mainId); var cs := fetched.Listed();
      && (!fetched.Fault? && |cs| == 0 ==> SubReply(api, sender, mainId) == ProductsReply(api, sender, mainId))
      && (!fetched.Fault? && |cs| > 0 ==>
            && |SubReply(api, sender, mainId)| == 1
            && var out := SubReply(api, sender, mainId)[0];
            && out.SendTemplate?
            && |out.elements| == (if |cs| < MaxElements then |cs| else MaxElements) + 1
            && |out.elements| <= MaxElements + 1
            && out.elements[|out.elements| - 1] == BackCard
            && forall i :: 0 <= i < |out.elements| - 1 ==> out.elements[i] == SubCard(mainId, cs[i]))
  {
  }

  /**
   * A non-empty product list is one template of min(10, n) product cards in
   * order; an empty or `null` one is the "no products" text followed by
   * the main listing.
   */
  lemma ProductListing(api: AirtableApi, sender: Option<string>, categoryId: string)
    ensures var fetched := api.productsOf(categoryId); var ps := fetched.Listed();
      && (!fetched.Fault? && |ps| == 0 ==>
            ProductsReply(api, sender, categoryId) == [SendText(sender, NoProductsText)] + MainReply(api, sender))
      && (!fetched.Fault? && |ps| > 0 ==>
            && |ProductsReply(api, sender, categoryId)| == 1
            && var out := ProductsReply(api, sender, categoryId)[0];
            && out.SendTemplate?
            && |out.elements| == (if |ps| < MaxElements then |ps| else MaxElements)
            && forall i :: 0 <= i < |out.elements| ==> out.elements[i] == ProductCard(ps[i]))
  {
  }

  /** Every template the bot sends has between one and eleven cards, each with one or two buttons. */
  predicate Deliverable(out: seq<Outbound>) {
    forall k :: 0 <= k < |out| && out[k].SendTemplate? ==>
      && 1 <= |out[k].elements| <= MaxElements + 1
      && forall e :: e in out[k].elements ==> 1 <= |e.buttons| <= 2
  }

  lemma MainReplyDeliverable(api: AirtableApi, sender: Option<string>)
    ensures 1 <= |MainReply(api, sender)| && Deliverable(MainReply(api, sender))
  {
    var out := MainReply(api, sender);
    if out[0].SendTemplate? {
      forall e | e in out[0].elements
        ensures 1 <= |e.buttons| <= 2
      {
        var i :| 0 <= i < |out[0].elements| && out[0].elements[i] == e;
      }
    }
  }

  lemma ProductsReplyDeliverable(api: AirtableApi, sender: Option<string>, categoryId: string)
    ensures 1 <= |ProductsReply(api, sender, categoryId)| <= 2 && Deliverable(ProductsReply(api, sender, categoryId))
  {
    var fetched := api.productsOf(categoryId);
    MainReplyDeliverable(api, sender);
    if !fetched.Fault? && |fetched.Listed()| > 0 {
      var out := ProductsReply(api, sender, categoryId);
      forall e | e in out[0].elements
        ensures 1 <= |e.buttons| <= 2
      {
        var i :| 0 <= i < |out[0].elements| && out[0].elements[i] == e;
      }
    }
  }

  lemma SubReplyDeliverable(api: AirtableApi, sender: Option<string>, mainId: string)
    ensures 1 <= |SubReply(api, sender, mainId)| <= 2 && Deliverable(SubReply(api, sender, mainId))
  {
    var fetched := api.subCategoriesOf(mainId);
    ProductsReplyDeliverable(api, sender, mainId);
    if !fetched.Fault? && |fetched.Listed()| > 0 {
      var out := SubReply(api, sender, mainId);
      forall e | e in out[0].elements
        ensures 1 <= |e.buttons| <= 2
      {
        var i :| 0 <= i < |out[0].elements| && out[0].elements[i] == e;
        if i < |out[0].elements| - 1 {
          assert e == SubCard(mainId, fetched.Listed()[i]);
        }
      }
    }
  }

  /**
   * A postback is answered with one or two well-formed messages exactly
   * when its payload selects a step; an unrecognised payload is answered
   * with nothing at all.
   */
  lemma {:induction false} PostbackAnswered(api: AirtableApi, sender: Option<string>, payload: string)
    ensures PostbackReply(api, sender, Some(payload)) == [] <==> Dispatch(payload) == Ignore
    ensures Dispatch(payload) != Ignore ==>
      && 1 <= |PostbackReply(api, sender, Some(payload))| <= 2
      && Deliverable(PostbackReply(api, sender, Some(payload)))
  {
    match Dispatch(payload)
    case ShowSubCategories(mainId) => SubReplyDeliverable(api, sender, mainId);
    case ShowProducts(categoryId) => ProductsReplyDeliverable(api, sender, categoryId);
    case ShowMain => MainReplyDeliverable(api, sender);
    case Ignore =>
  }

  // ---------------------------------------------------------------------
  // Payload round trips
  // ---------------------------------------------------------------------

  /** Round trip: a main-category button leads to the subcategories of that very category. */
  lemma MainPayloadRoundTrip(api: AirtableApi, sender: Option<string>, mainId: string)
    requires !Contains(mainId, MainPrefix)
    ensures Dispatch(MainPayload(mainId)) == ShowSubCategories(mainId)
    ensures PostbackReply(api, sender, Some(MainPayload(mainId))) == SubReply(api, sender, mainId)
  {
    var p := MainPayload(mainId);
    assert p[..|MainPrefix|] == MainPrefix;
    assert p[|MainPrefix|..] == mainId;
    ReplaceAbsent(mainId, MainPrefix, "");
    assert ReplaceAll(p, MainPrefix, "") == "" + ReplaceAll(mainId, MainPrefix, "");
  }

  /** A text containing a word has at least as many copies of each character as the word. */
  lemma ContainedOccurrences(s: string, w: string, c: char)
    requires Contains(s, w)
    ensures Occurrences(s, c) >= Occurrences(w, c)
  {
    ContainsIff(s, w);
    var i :| OccursAt(s, w, i);
    assert s == s[..i] + w + s[i + |w|..];
    OccurrencesAppend(s[..i] + w, s[i + |w|..], c);
    OccurrencesAppend(s[..i], w, c);
  }

  /** The subcategory prefix holds two underscores. */
  lemma SubPrefixUnderscores()
    ensures Occurrences(SubPrefix, '_') == 2
  {
    assert SubPrefix == "SUB" + "_" + "CATEGORY" + "_";
    TwoSeparators("SUB", "CATEGORY", '_');
  }

  /** Two words without `c`, each followed by `c`, hold `c` twice. */
  lemma TwoSeparators(a: string, b: string, c: char)
    requires c !in a && c !in b
    ensures Occurrences(a + [c] + b + [c], c) == 2
  {
    OccurrencesAppend(a + [c] + b, [c], c);
    OccurrencesAppend(a + [c], b, c);
    OccurrencesAppend(a, [c], c);
    OccurrencesZero(a, c);
    OccurrencesZero(b, c);
  }

  /** A subcategory payload starts with the subcategory prefix, not with the main one. */
  lemma SubPayloadPrefix(mainId: string, subId: string)
    ensures IsPrefix(SubPrefix, SubPayload(mainId, subId)) && !IsPrefix(MainPrefix, SubPayload(mainId, subId))
    ensures SubPayload(mainId, subId)[|SubPrefix|..] == mainId + "_" + subId
  {
    var p := SubPayload(mainId, subId);
    assert p[..|SubPrefix|] == SubPrefix;
    assert p[0] == 'S' && MainPrefix[0] == 'M';
  }

  /** Removing the prefix from a subcategory payload whose ids hold no second underscore leaves `mainId + "_" + subId`. */
  lemma SubRemainder(mainId: string, subId: string)
    requires Occurrences(mainId + "_" + subId, '_') < 2
    ensures IsPrefix(SubPrefix, SubPayload(mainId, subId)) && !IsPrefix(MainPrefix, SubPayload(mainId, subId))
    ensures ReplaceAll(SubPayload(mainId, subId), SubPrefix, "") == mainId + "_" + subId
  {
    var rest := mainId + "_" + subId;
    SubPayloadPrefix(mainId, subId);
    SubPrefixUnderscores();
    if Contains(rest, SubPrefix) {
      ContainedOccurrences(rest, SubPrefix, '_');
    }
    ReplaceAbsent(rest, SubPrefix, "");
    assert ReplaceAll(SubPayload(mainId, subId), SubPrefix, "") == "" + ReplaceAll(rest, SubPrefix, "");
  }

  /** Underscores in `mainId + "_" + subId`. */
  lemma RemainderUnderscores(mainId: string, subId: string)
    ensures Occurrences(mainId + "_" + subId, '_') == Occurrences(mainId, '_') + 1 + Occurrences(subId, '_')
  {
    OccurrencesAppend(mainId + "_", subId, '_');
    OccurrencesAppend(mainId, "_", '_');
  }

  /** Round trip: for ids without '_', a subcategory button leads to the products of that subcategory. */
  lemma SubPayloadRoundTrip(api: AirtableApi, sender: Option<string>, mainId: string, subId: string)
    requires '_' !in mainId && '_' !in subId
    ensures Dispatch(SubPayload(mainId, subId)) == ShowProducts(subId)
    ensures PostbackReply(api, sender, Some(SubPayload(mainId, subId))) == ProductsReply(api, sender, subId)
  {
    OccurrencesZero(mainId, '_');
    OccurrencesZero(subId, '_');
    RemainderUnderscores(mainId, subId);
    SubRemainder(mainId, subId);
    SplitAtSeparator(mainId, '_', subId);
    SplitWithoutSeparator(subId, '_');
  }

  /**
   * A subcategory payload whose ids carry underscores of their own does not
   * split into two parts, and pressing that button sends nothing.
   */
  lemma SubPayloadWithUnderscores(api: AirtableApi, sender: Option<string>, mainId: string, subId: string)
    requires '_' in mainId || '_' in subId
    requires !Contains(mainId + "_" + subId, SubPrefix)
    ensures Dispatch(SubPayload(mainId, subId)) == Ignore
    ensures PostbackReply(api, sender, Some(SubPayload(mainId, subId))) == []
  {
    var rest := mainId + "_" + subId;
    SubDispatch(mainId, subId);
    OccurrencesZero(mainId, '_');
    OccurrencesZero(subId, '_');
    RemainderUnderscores(mainId, subId);
    SplitCount(rest, '_');
  }

  /** A subcategory payload whose ids do not spell the prefix is dispatched on the split of `mainId + "_" + subId`. */
  lemma SubDispatch(mainId: string, subId: string)
    requires !Contains(mainId + "_" + subId, SubPrefix)
    ensures var parts := Split(mainId + "_" + subId, '_');
      Dispatch(SubPayload(mainId, subId)) == if |parts| == 2 then ShowProducts(parts[1]) else Ignore
  {
    var rest := mainId + "_" + subId;
    SubPayloadPrefix(mainId, subId);
    ReplaceAbsent(rest, SubPrefix, "");
    assert ReplaceAll(SubPayload(mainId, subId), SubPrefix, "") == "" + ReplaceAll(rest, SubPrefix, "");
    assert "" + rest == rest;
  }

  /** "BACK_TO_MAIN" shows the main listing again. */
  lemma BackShowsMain(api: AirtableApi, sender: Option<string>)
    ensures PostbackReply(api, sender, Some(BackToMain)) == MainReply(api, sender)
  {
    assert BackToMain[0] != MainPrefix[0] && BackToMain[0] != SubPrefix[0];
  }

  /** Pressing a product's order button sends nothing: no branch handles "ORDER_" payloads. */
  lemma OrderButtonIgnored(api: AirtableApi, sender: Option<string>, productId: string)
    ensures Dispatch(OrderPayload(productId)) == Ignore
    ensures PostbackReply(api, sender, Some(OrderPayload(productId))) == []
  {
    var p := OrderPayload(productId);
    assert p[0] == 'O';
    assert p != BackToMain by { assert BackToMain[0] == 'B'; }
  }

  // ---------------------------------------------------------------------
  // The senders, building their card lists element by element
  // ---------------------------------------------------------------------

  method SendMainCategories(api: AirtableApi, sender: Option<string>) returns (sent: seq<Outbound>)
    ensures sent == MainReply(api, sender)
  {
    var fetched := api.mainCategories;
    if fetched.Fault? {
      return [SendText(sender, CategoriesErrorText)];
    }
    var categories := fetched.Listed();
    if |categories| == 0 {
      return [SendText(sender, NoCategoriesText)];
    }
    var shown := Take(categories, MaxElements);
    var elements: seq<Element> := [];
    for i := 0 to |shown|
      invariant |elements| == i
      invariant forall k :: 0 <= k < i ==> elements[k] == MainCard(shown[k])
    {
      elements := elements + [MainCard(shown[i])];
    }
    assert elements == MainCards(categories);
    sent := [SendTemplate(sender, elements)];
  }

  method SendProducts(api: AirtableApi, sender: Option<string>, categoryId: string) returns (sent: seq<Outbound>)
    ensures sent == ProductsReply(api, sender, categoryId)
  {
    var fetched := api.productsOf(categoryId);
    if fetched.Fault? {
      return [SendText(sender, ProductsErrorText)];
    }
    var products := fetched.Listed();
    if |products| == 0 {
      var main := SendMainCategories(api, sender);
      return [SendText(sender, NoProductsText)] + main;
    }
    var shown := Take(products, MaxElements);
    var elements: seq<Element> := [];
    for i := 0 to |shown|
      invariant |elements| == i
      invariant forall k :: 0 <= k < i ==> elements[k] == ProductCard(shown[k])
    {
      elements := elements + [ProductCard(shown[i])];
    }
    assert elements == ProductCards(products);
    sent := [SendTemplate(sender, elements)];
  }

  method SendSubCategories(api: AirtableApi, sender: Option<string>, mainId: string) returns (sent: seq<Outbound>)
    ensures sent == SubReply(api, sender, mainId)
  {
    var fetched := api.subCategoriesOf(mainId);
    if fetched.Fault? {
      return [SendText(sender, SubCategoriesErrorText)];
    }
    var subCategories := fetched.Listed();
    if |subCategories| == 0 {
      sent := SendProducts(api, sender, mainId);
      return;
    }
    var shown := Take(subCategories, MaxElements);
    var elements: seq<Element> := [];
    for i := 0 to |shown|
      invariant |elements| == i
      invariant forall k :: 0 <= k < i ==> elements[k] == SubCard(mainId, shown[k])
    {
      elements := elements + [SubCard(mainId, shown[i])];
    }
    assert elements == SubCards(mainId, subCategories);
    elements := elements + [BackCard];
    sent := [SendTemplate(sender, elements)];
  }

  method HandlePostback(api: AirtableApi, sender: Option<string>, payload: Option<string>) returns (sent: seq<Outbound>)
    ensures sent == PostbackReply(api, sender, payload)
  {
    if payload.None? {
      return [SendText(sender, PostbackErrorText)];
    }
    match Dispatch(payload.value)
    case ShowSubCategories(mainId) => sent := SendSubCategories(api, sender, mainId);
    case ShowProducts(categoryId) => sent := SendProducts(api, sender, categoryId);
    case ShowMain => sent := SendMainCategories(api, sender);
    case Ignore => sent := [];
  }

  // ---------------------------------------------------------------------
  // The webhook (POST)
  // ---------------------------------------------------------------------

  /**
   * A JSON value read with `GetString()`: `Absent` when the property path
   * cannot be followed (a property is missing, or a value on the way is not
   * an object), JSON null, a string, or `NonString` (a number, boolean,
   * object or array, on which `GetString()` throws).
   */
  datatype JsonText = Absent | JsonNull | Str(value: string) | NonString

  /** `GetString()` succeeds on JSON null and on a string. */
  predicate Readable(t: JsonText) {
    t.JsonNull? || t.Str?
  }

  /** What `GetString()` returns on a readable value: `None` for JSON null. */
  function StringOf(t: JsonText): (r: Option<string>)
    requires Readable(t)
    ensures r.None? <==> t.JsonNull?
    ensures t.Str? ==> r == Some(t.value)
  {
    if t.JsonNull? then None else Some(t.value)
  }

  /** The "message" property: not an object (so `TryGetProperty("text", ..)` throws), or an object with its "text". */
  datatype JsonMessage = NonObjectMessage | MessageObject(text: JsonText)

  /**
   * One element of a "messaging" array: its "sender.id", its "message" if
   * any, and its "postback.payload" (`None` when there is no "postback").
   * `Unreadable` is a value where an object was expected, so reading it
   * throws: a "messaging" element that is not an object and, in the
   * flattened list of `Events`, an entry that cannot be enumerated.
   */
  datatype Event = Event(senderId: JsonText, message: Option<JsonMessage>, postback: Option<JsonText>) | Unreadable

  /** A property expected to hold an array: missing, not an array (`EnumerateArray()` throws), or its elements. */
  datatype JsonArray<T> = Missing | NonArray | Array(items: seq<T>)

  /** One element of "entry", or a value that is not an object (`TryGetProperty` throws). */
  datatype Entry = Entry(messaging: JsonArray<Event>) | NonObjectEntry

  /** The request body, or a value that is not an object (`TryGetProperty` throws). */
  datatype Body = Body(entry: JsonArray<Entry>) | NonObjectBody

  /** `Ok("EVENT_RECEIVED")`, `BadRequest("Missing 'entry'")` or status 500. */
  datatype Status = EventReceived | MissingEntry | ServerError

  /** The response status and every message sent before it was returned. */
  datatype Receipt = Receipt(status: Status, sent: seq<Outbound>)

  /** The reads one entry contributes: its events, none without "messaging", or one that throws when it cannot be enumerated. */
  function EntryEvents(entry: Entry): seq<Event> {
    match entry
    case NonObjectEntry => [Unreadable]
    case Entry(Missing) => []
    case Entry(NonArray) => [Unreadable]
    case Entry(Array(events)) => events
  }

  /** The events of all entries, in order. */
  function Events(entries: seq<Entry>): seq<Event>
    decreases |entries|
  {
    if |entries| == 0 then []
    else Events(entries[..|entries| - 1]) + EntryEvents(entries[|entries| - 1])
  }

  /** One more entry adds its events. */
  lemma EventsStep(entries: seq<Entry>, i: nat)
    requires i < |entries|
    ensures Events(entries[..i + 1]) == Events(entries[..i]) + EntryEvents(entries[i])
  {
    assert entries[..i + 1][..i] == entries[..i];
  }

  lemma {:induction false} EventsAppend(entries: seq<Entry>, more: seq<Entry>)
    ensures Events(entries + more) == Events(entries) + Events(more)
    decreases |more|
  {
    if |more| == 0 {
      assert entries + more == entries;
    } else {
      var all := entries + more;
      var init := more[..|more| - 1];
      var last := EntryEvents(more[|more| - 1]);
      assert Events(all) == Events(entries + init) + last by {
        assert all[..|all| - 1] == entries + init;
        assert all[|all| - 1] == more[|more| - 1];
      }
      EventsAppend(entries, init);
      assert Events(more) == Events(init) + last;
    }
  }

  /** The answer to one event, or `Threw` when reading it throws out of the request. */
  datatype EventOutcome = Answered(sent: seq<Outbound>) | Threw

  /**
   * A "message" is answered with the main listing, whatever its text and
   * whether or not a "postback" is present too, provided its text can be
   * read; a null sender id is passed on as it is.
   */
  function EventReply(api: AirtableApi, ev: Event): EventOutcome {
    if ev.Unreadable? || !Readable(ev.senderId) then Threw
    else
      var sender := StringOf(ev.senderId);
      match ev.message
      case Some(NonObjectMessage) => Threw
      case Some(MessageObject(text)) => if text.NonString? then Threw else Answered(MainReply(api, sender))
      case None =>
        match ev.postback
        case None => Answered([])
        case Some(payload) =>
          if !Readable(payload) then Threw else Answered(PostbackReply(api, sender, StringOf(payload)))
  }

  /**
   * Reading an event throws exactly when it is not an object, its sender id
   * is missing or not a string, its "message" is not an object or has a
   * non-string "text", or, without a "message", its "postback" has a
   * payload that is missing or not a string.
   */
  lemma EventThrows(api: AirtableApi, ev: Event)
    ensures EventReply(api, ev).Threw? <==>
      || ev.Unreadable?
      || ev.senderId.Absent? || ev.senderId.NonString?
      || (ev.message.Some? && (ev.message.value.NonObjectMessage? || ev.message.value.text.NonString?))
      || (ev.message.None? && ev.postback.Some? && (ev.postback.value.Absent? || ev.postback.value.NonString?))
  {
  }

  /** Events are answered in order until one throws; what was sent before stays sent. */
  function ProcessEvents(api: AirtableApi, events: seq<Event>): Receipt
    decreases |events|
  {
    if |events| == 0 then Receipt(EventReceived, [])
    else
      var before := ProcessEvents(api, events[..|events| - 1]);
      if before.status != EventReceived then before
      else
        match EventReply(api, events[|events| - 1])
        case Threw => Receipt(ServerError, before.sent)
        case Answered(out) => Receipt(EventReceived, before.sent + out)
  }

  /** Processing one more event after a successful prefix appends its answer, or fails with what was sent so far. */
  lemma ProcessEventsStep(api: AirtableApi, events: seq<Event>, ev: Event)
    requires ProcessEvents(api, events).status == EventReceived
    ensures var sent := ProcessEvents(api, events).sent;
      ProcessEvents(api, events + [ev]) == match EventReply(api, ev)
        case Threw => Receipt(ServerError, sent)
        case Answered(out) => Receipt(EventReceived, sent + out)
  {
    assert (events + [ev])[..|events|] == events;
  }

  /** The outcome of `Receive` for a request body. */
  function ReceiveReply(api: AirtableApi, body: Body): Receipt {
    match body
    case NonObjectBody => Receipt(ServerError, [])
    case Body(Missing) => Receipt(MissingEntry, [])
    case Body(NonArray) => Receipt(ServerError, [])
    case Body(Array(entries)) => ProcessEvents(api, Events(entries))
  }

  /** Once an event has thrown, later events change nothing. */
  lemma {:induction false} ProcessEventsStops(api: AirtableApi, events: seq<Event>, later: seq<Event>)
    requires ProcessEvents(api, events).status != EventReceived
    ensures ProcessEvents(api, events + later) == ProcessEvents(api, events)
    decreases |later|
  {
    if |later| > 0 {
      var all := events + later;
      assert all[..|all| - 1] == events + later[..|later| - 1];
      ProcessEventsStops(api, events, later[..|later| - 1]);
    } else {
      assert events + later == events;
    }
  }

  /** Every event of the request is answered, in order, when none throws; the request then succeeds. */
  lemma {:induction false} ProcessEventsAnswersAll(api: AirtableApi, events: seq<Event>)
    requires forall k :: 0 <= k < |events| ==> EventReply(api, events[k]).Answered?
    ensures ProcessEvents(api, events).status == EventReceived
    ensures |ProcessEvents(api, events).sent| >= |events| - CountSilent(api, events)
    decreases |events|
  {
    if |events| > 0 {
      var init := events[..|events| - 1];
      ProcessEventsAnswersAll(api, init);
      assert CountSilent(api, events) == CountSilent(api, init) + (if EventReply(api, events[|events| - 1]).sent == [] then 1 else 0);
    }
  }

  /** The number of events answered with no message at all. */
  function CountSilent(api: AirtableApi, events: seq<Event>): nat
    decreases |events|
  {
    if |events| == 0 then 0
    else
      CountSilent(api, events[..|events| - 1])
      + (if EventReply(api, events[|events| - 1]).Answered? && EventReply(api, events[|events| - 1]).sent == [] then 1 else 0)
  }

  /** A lone text message with a readable sender id and text is acknowledged and answered with the main listing, even if it also carries a postback. */
  lemma MessageAnsweredWithMainListing(api: AirtableApi, senderId: JsonText, text: JsonText, postback: Option<JsonText>)
    requires Readable(senderId) && !text.NonString?
    ensures ReceiveReply(api, Body(Array([Entry(Array([Event(senderId, Some(MessageObject(text)), postback)]))])))
      == Receipt(EventReceived, MainReply(api, StringOf(senderId)))
  {
    var ev := Event(senderId, Some(MessageObject(text)), postback);
    var entries := [Entry(Array([ev]))];
    assert entries[..0] == [];
    assert Events(entries) == [] + [ev];
    assert [ev][..0] == [];
    assert ProcessEvents(api, [ev]) == Receipt(EventReceived, [] + MainReply(api, StringOf(senderId)));
    assert [] + MainReply(api, StringOf(senderId)) == MainReply(api, StringOf(senderId));
  }

  method Receive(api: AirtableApi, body: Body) returns (receipt: Receipt)
    ensures receipt == ReceiveReply(api, body)
  {
    if body.NonObjectBody? || body.entry.NonArray? {
      return Receipt(ServerError, []);
    }
    if body.entry.Missing? {
      return Receipt(MissingEntry, []);
    }
    var entries := body.entry.items;
    var sent: seq<Outbound> := [];
    for i := 0 to |entries|
      invariant ProcessEvents(api, Events(entries[..i])) == Receipt(EventReceived, sent)
    {
      EventsStep(entries, i);
      var entry := entries[i];
      if entry.NonObjectEntry? || entry.messaging.NonArray? {
        ProcessEventsStep(api, Events(entries[..i]), Unreadable);
        receipt := Receipt(ServerError, sent);
        EntryThrownStops(api, entries, i);
        return;
      }
      if entry.messaging.Missing? {
        assert Events(entries[..i]) + [] == Events(entries[..i]);
        continue;
      }
      var messaging := entry.messaging.items;
      ghost var done := Events(entries[..i]);
      assert done + messaging[..0] == done;
      for j := 0 to |messaging|
        invariant ProcessEvents(api, done + messaging[..j]) == Receipt(EventReceived, sent)
      {
        var ev := messaging[j];
        PrefixStep(done, messaging, j);
        ProcessEventsStep(api, done + messaging[..j], ev);
        var outcome := HandleEvent(api, ev);
        if outcome.Threw? {
          receipt := Receipt(ServerError, sent);
          ThrownStops(api, entries, i, j);
          return;
        }
        sent := sent + outcome.sent;
      }
      assert messaging[..|messaging|] == messaging;
    }
    assert entries[..|entries|] == entries;
    receipt := Receipt(EventReceived, sent);
  }

  /**
   * The body of the inner loop: reads the sender id, then answers a
   * "message" with the main categories or a "postback" through its payload.
   */
  method HandleEvent(api: AirtableApi, ev: Event) returns (outcome: EventOutcome)
    ensures outcome == EventReply(api, ev)
  {
    if ev.Unreadable? || !Readable(ev.senderId) {
      return Threw;
    }
    var sender := StringOf(ev.senderId);
    if ev.message.Some? {
      if ev.message.value.NonObjectMessage? || ev.message.value.text.NonString? {
        return Threw;
      }
      var out := SendMainCategories(api, sender);
      outcome := Answered(out);
    } else if ev.postback.Some? {
      if !Readable(ev.postback.value) {
        return Threw;
      }
      var out := HandlePostback(api, sender, StringOf(ev.postback.value));
      outcome := Answered(out);
    } else {
      outcome := Answered([]);
    }
  }

  /** When the j-th event of the i-th entry throws, the outcome of the whole request is already decided. */
  lemma ThrownStops(api: AirtableApi, entries: seq<Entry>, i: nat, j: nat)
    requires i < |entries| && entries[i].Entry? && entries[i].messaging.Array? && j < |entries[i].messaging.items|
    requires ProcessEvents(api, Events(entries[..i]) + entries[i].messaging.items[..j + 1]).status != EventReceived
    ensures ProcessEvents(api, Events(entries)) == ProcessEvents(api, Events(entries[..i]) + entries[i].messaging.items[..j + 1])
  {
    var messaging := entries[i].messaging.items;
    var head := Events(entries[..i]) + messaging[..j + 1];
    assert Events(entries[..i + 1]) == head + messaging[j + 1..] by {
      EventsStep(entries, i);
      assert messaging == messaging[..j + 1] + messaging[j + 1..];
    }
    ProcessEventsStops(api, head, messaging[j + 1..]);
    EntryThrownStops(api, entries, i);
  }

  /** When reading the i-th entry throws, the outcome of the whole request is already decided. */
  lemma EntryThrownStops(api: AirtableApi, entries: seq<Entry>, i: nat)
    requires i < |entries| && ProcessEvents(api, Events(entries[..i + 1])).status != EventReceived
    ensures ProcessEvents(api, Events(entries)) == ProcessEvents(api, Events(entries[..i + 1]))
  {
    assert entries == entries[..i + 1] + entries[i + 1..];
    EventsAppend(entries[..i + 1], entries[i + 1..]);
    ProcessEventsStops(api, Events(entries[..i + 1]), Events(entries[i + 1..]));
  }

  // ---------------------------------------------------------------------
  // GetCategoryName
  // ---------------------------------------------------------------------

  /** The display name of a category id, looked up among all categories; any failure gives "غير محدد". */
  function GetCategoryName(api: AirtableApi, categoryId: Option<string>): string {
    match categoryId
    case None => UnknownCategory
    case Some(id) =>
      if id == "" || !api.allCategories.Items? then UnknownCategory
      else
        var cs := api.allCategories.items;
        var k := FirstIndex(cs, CategoryId, id);
        if k == |cs| then UnknownCategory else cs[k].name.GetOr(UnknownCategory)
  }

  /**
   * The name is that of the first category carrying the id, when it has
   * one; an id that no category carries, an empty id, or a failed lookup
   * gives "غير محدد".
   */
  lemma CategoryNameIsFirstMatch(api: AirtableApi, id: string, k: nat)
    requires api.allCategories.Items? && k < |api.allCategories.items|
    requires api.allCategories.items[k].id == id && id != ""
    requires forall j :: 0 <= j < k ==> api.allCategories.items[j].id != id
    ensures GetCategoryName(api, Some(id)) == api.allCategories.items[k].name.GetOr(UnknownCategory)
  {
    var cs := api.allCategories.items;
    var m := FirstIndex(cs, CategoryId, id);
    assert m == k;
  }

  lemma CategoryNameUnknown(api: AirtableApi, categoryId: Option<string>)
    requires || categoryId.None?
             || categoryId == Some("")
             || !api.allCategories.Items?
             || forall k :: 0 <= k < |api.allCategories.items| ==> Some(api.allCategories.items[k].id) != categoryId
    ensures GetCategoryName(api, categoryId) == UnknownCategory
  {
  }
}
