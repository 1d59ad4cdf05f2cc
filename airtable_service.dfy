/**
 * The Airtable-backed store of fabrics/Services/AirtableService.cs: listing
 * the Products and Categories tables, looking up a product's name, and
 * creating a reservation, which is followed by a Telegram notice.
 *
 * Airtable's answers are inputs of the service object (one function per
 * client call); the Telegram send is an effect recorded, with the Airtable
 * calls, in a ghost log, in the order the service makes them.
 */
module AirtableStore {
  import opened Nullable
  import opened Text
  import opened Catalog

  // ---------------------------------------------------------------------
  // Airtable's records and responses
  // ---------------------------------------------------------------------

  /** A field bag: field name to value. */
  type Fields = map<string, FieldValue>

  /** A record of a table: its id and its fields. */
  datatype AirtableRecord = AirtableRecord(id: string, fields: Fields)

  /** The answer to `ListRecords(table)`. */
  datatype ListResponse = ListResponse(success: bool, records: seq<AirtableRecord>)

  /** The answer to `RetrieveRecord(table, id)`. */
  datatype RetrieveResponse = RetrieveResponse(success: bool, record: AirtableRecord)

  /** The error Airtable attaches to a failed write; each message may be null. */
  datatype ApiError = ApiError(errorMessage: Option<string>, detailedErrorMessage: Option<string>)

  /** The answer to `CreateRecord(table, fields)`. */
  datatype CreateResponse = CreateResponse(success: bool, record: AirtableRecord, apiError: Option<ApiError>)

  /** One effect of the service, in the order it happens. */
  datatype Call =
    | ListRecords(table: string)
    | RetrieveRecord(table: string, recordId: string)
    | CreateRecord(table: string, fields: Fields)
    | SendTelegram(text: string)

  // ---------------------------------------------------------------------
  // Reading fields
  // ---------------------------------------------------------------------

  /** `record.GetField<string>(key)`: the text of a string field, null when the field is absent or null. */
  function TextField(fields: Fields, key: string): (r: Option<string>)
    ensures r.Some? <==> key in fields && fields[key].Text?
    ensures r.Some? ==> r.value == fields[key].value
  {
    if key in fields && fields[key].Text? then Some(fields[key].value) else None
  }

  /**
   * `record.GetField<string[]>(key)?.FirstOrDefault()`: a linked-record field
   * becomes the first id it links to, or null when the field is absent,
   * null or empty.
   */
  function FirstLinked(fields: Fields, key: string): (r: Option<string>)
    ensures r.Some? <==> key in fields && fields[key].TextList? && |fields[key].items| > 0
    ensures r.Some? ==> r.value == fields[key].items[0]
  {
    if key in fields && fields[key].TextList? && |fields[key].items| > 0 then Some(fields[key].items[0]) else None
  }

  /** `record.GetField<double?>(key)`: the price is kept as the raw field value, null when absent or null. */
  function PriceField(fields: Fields, key: string): (r: Option<FieldValue>)
    ensures r.Some? <==> key in fields && !fields[key].Null?
    ensures r.Some? ==> r.value == fields[key]
  {
    if key in fields && !fields[key].Null? then Some(fields[key]) else None
  }

  // ---------------------------------------------------------------------
  // Listing the tables
  // ---------------------------------------------------------------------

  /** A product as `GetProductsAsync` builds it (the `product` model class). */
  datatype AirtableProduct = AirtableProduct(
    id: string,
    name: Option<string>,
    description: Option<string>,
    pricePerMeter: Option<FieldValue>,
    subCategory: Option<string>,
    mainCategory: Option<string>)

  /** The product made from one record of the Products table. */
  function ToProduct(r: AirtableRecord): AirtableProduct {
    AirtableProduct(
      r.id,
      TextField(r.fields, "Name"),
      TextField(r.fields, "Description"),
      PriceField(r.fields, "PricePerMeter"),
      FirstLinked(r.fields, "Sub Category"),
      FirstLinked(r.fields, "Main Category"))
  }

  /**
   * The category made from one record of the Categories table. The model
   * class declares neither `IsMainCategory` nor `ProductsCount`, so a fresh
   * category holds their defaults, and its list of sub-categories is empty.
   */
  function ToStoredCategory(r: AirtableRecord): Category {
    Category(
      r.id,
      TextField(r.fields, "Name"),
      FirstLinked(r.fields, "ParentCategory"),
      TextField(r.fields, "Description"),
      false,
      0,
      [])
  }

  /** The products of a listing: one per record, in record order, each carrying its record's id and links. */
  function ProductsListed(records: seq<AirtableRecord>): (ps: seq<AirtableProduct>)
    ensures |ps| == |records|
    ensures forall i :: 0 <= i < |ps| ==> ps[i] == ToProduct(records[i])
    ensures forall i :: 0 <= i < |ps| ==> ps[i].id == records[i].id
    ensures forall i :: 0 <= i < |ps| ==> ps[i].subCategory == FirstLinked(records[i].fields, "Sub Category")
    ensures forall i :: 0 <= i < |ps| ==> ps[i].mainCategory == FirstLinked(records[i].fields, "Main Category")
    decreases |records|
  {
    if |records| == 0 then []
    else ProductsListed(records[..|records| - 1]) + [ToProduct(records[|records| - 1])]
  }

  /** The categories of a listing: one per record, in record order, each carrying its record's id and parent link. */
  function CategoriesListed(records: seq<AirtableRecord>): (cs: seq<Category>)
    ensures |cs| == |records|
    ensures forall i :: 0 <= i < |cs| ==> cs[i] == ToStoredCategory(records[i])
    ensures forall i :: 0 <= i < |cs| ==> cs[i].id == records[i].id
    ensures forall i :: 0 <= i < |cs| ==> cs[i].parentCategory == FirstLinked(records[i].fields, "ParentCategory")
    decreases |records|
  {
    if |records| == 0 then []
    else CategoriesListed(records[..|records| - 1]) + [ToStoredCategory(records[|records| - 1])]
  }

  /** What `GetProductsAsync` returns for a response: nothing when it failed. */
  function ProductsOf(response: ListResponse): (ps: seq<AirtableProduct>)
    ensures !response.success ==> ps == []
    ensures response.success ==> |ps| == |response.records|
  {
    if response.success then ProductsListed(response.records) else []
  }

  /** What `GetCategoriesAsync` returns for a response: nothing when it failed. */
  function CategoriesOf(response: ListResponse): (cs: seq<Category>)
    ensures !response.success ==> cs == []
    ensures response.success ==> |cs| == |response.records|
  {
    if response.success then CategoriesListed(response.records) else []
  }

  // ---------------------------------------------------------------------
  // The product's name
  // ---------------------------------------------------------------------

  /** The name given to a product whose record cannot be read. */
  const UnknownName := "اسم غير معروف"

  /**
   * What `GetProductNameByIdAsync` returns for a retrieval: the text of the
   * Name field when the retrieval succeeded and the field is there and not
   * null, and the unknown-name text otherwise.
   */
  function ProductName(response: RetrieveResponse): (name: string)
    ensures response.success && "Name" in response.record.fields && !response.record.fields["Name"].Null?
      ==> Some(name) == ToText(response.record.fields["Name"])
    ensures !response.success || "Name" !in response.record.fields || response.record.fields["Name"].Null?
      ==> name == UnknownName
  {
    if response.success && "Name" in response.record.fields then
      ToText(response.record.fields["Name"]).GetOr(UnknownName)
    else UnknownName
  }

  // ---------------------------------------------------------------------
  // Reservations
  // ---------------------------------------------------------------------

  /**
   * The reservation request. Its type is declared in a file that is not
   * part of this model; the quantity is carried as the text it renders to.
   */
  datatype ReservationRequest = ReservationRequest(
    productRecordId: Option<string>,
    quantityMeters: string,
    customerName: string,
    customerPhone: string,
    customerAddress: string)

  /** The message of the exception thrown when no product is named. */
  const MissingProductMessage := "ProductRecordId is required and must be a valid Airtable record ID."

  /** `string.IsNullOrEmpty(dto.ProductRecordId)`. */
  predicate MissingProduct(dto: ReservationRequest) {
    dto.productRecordId.None? || dto.productRecordId.value == ""
  }

  /** The field bag written to the Reservations table, the product as a one-element link. */
  function ReservationFields(dto: ReservationRequest, productId: string): (f: Fields)
    ensures f.Keys == {"Product", "Quantity Meters", "Customer Name", "Customer Phone", "Customer Address"}
    ensures f["Product"] == TextList([productId])
  {
    map[
      "Product" := TextList([productId]),
      "Quantity Meters" := Other(dto.quantityMeters),
      "Customer Name" := Text(dto.customerName),
      "Customer Phone" := Text(dto.customerPhone),
      "Customer Address" := Text(dto.customerAddress)]
  }

  // The fixed parts of the Telegram notice.
  const NoticeHeading := "🧾 حجز جديد!"
  const ProductLabel := "📦 المنتج: "
  const QuantityLabel := "📏 الكمية: "
  const MetreUnit := " متر"
  const NameLabel := "👤 الاسم: "
  const PhoneLabel := "📞 الموبايل: "
  const AddressLabel := "📍 العنوان: "

  /** The Telegram notice of a new reservation, line by line as the source lays it out. */
  function ReservationNotice(productName: string, dto: ReservationRequest): string {
    NoticeHeading + "\n" +
    ProductLabel + productName + "\n" +
    QuantityLabel + dto.quantityMeters + MetreUnit + "\n" +
    NameLabel + dto.customerName + "\n" +
    PhoneLabel + dto.customerPhone + "\n" +
    AddressLabel + dto.customerAddress
  }

  // The parts of the exception message thrown when Airtable refuses the write.
  const ErrorPrefix := "Airtable error: "
  const DetailsSeparator := ". Details: "
  const UnknownError := "Unknown error"
  const NoDetails := "No details"

  /**
   * The message of the exception thrown when Airtable refuses the write:
   * the prefix, the API's error message, the separator and its detailed
   * message, each defaulted when missing.
   */
  function AirtableErrorMessage(error: Option<ApiError>): (m: string)
    ensures var e := if error.Some? then error.value.errorMessage.GetOr(UnknownError) else UnknownError;
      var d := if error.Some? then error.value.detailedErrorMessage.GetOr(NoDetails) else NoDetails;
      && IsPrefix(ErrorPrefix, m)
      && OccursAt(m, e, |ErrorPrefix|)
      && OccursAt(m, DetailsSeparator, |ErrorPrefix| + |e|)
      && OccursAt(m, d, |m| - |d|)
      && |m| == |ErrorPrefix| + |e| + |DetailsSeparator| + |d|
  {
    var errorMsg := if error.Some? then error.value.errorMessage.GetOr(UnknownError) else UnknownError;
    var detailedMsg := if error.Some? then error.value.detailedErrorMessage.GetOr(NoDetails) else NoDetails;
    ErrorPrefix + errorMsg + DetailsSeparator + detailedMsg
  }

  /** The outcome of a reservation (the new record's id, or the exception's message) and the effects, in order. */
  datatype ReservationRun = ReservationRun(outcome: Result<string, string>, calls: seq<Call>)

  /**
   * `CreateReservationAsync` against the given Airtable answers.
   * Validation comes before any effect; on success the service looks the
   * product's name up, then sends exactly one notice, as its last effect,
   * and returns the new record's id; on failure nothing is sent.
   */
  function Reservation(dto: ReservationRequest, create: (string, Fields) -> CreateResponse,
                       retrieve: (string, string) -> RetrieveResponse): (run: ReservationRun)
    ensures run.calls == [] <==> MissingProduct(dto)
    ensures MissingProduct(dto) ==> run.outcome == Failure(MissingProductMessage)
    ensures !MissingProduct(dto) ==>
      var id := dto.productRecordId.value;
      var fields := ReservationFields(dto, id);
      var response := create("Reservations", fields);
      && run.calls[0] == CreateRecord("Reservations", fields)
      && (run.outcome.Success? <==> response.success)
      && (response.success ==> run.outcome.value == response.record.id
                               && run.calls == [CreateRecord("Reservations", fields), RetrieveRecord("Products", id),
                                                SendTelegram(ReservationNotice(ProductName(retrieve("Products", id)), dto))])
      && (!response.success ==> run.outcome.error == AirtableErrorMessage(response.apiError)
                                && forall i :: 0 <= i < |run.calls| ==> !run.calls[i].SendTelegram?)
  {
    if MissingProduct(dto) then ReservationRun(Failure(MissingProductMessage), [])
    else
      var id := dto.productRecordId.value;
      var fields := ReservationFields(dto, id);
      var response := create("Reservations", fields);
      if response.success then
        var name := ProductName(retrieve("Products", id));
        ReservationRun(Success(response.record.id),
          [CreateRecord("Reservations", fields), RetrieveRecord("Products", id), SendTelegram(ReservationNotice(name, dto))])
      else
        ReservationRun(Failure(AirtableErrorMessage(response.apiError)), [CreateRecord("Reservations", fields)])
  }

  /** The number of Telegram notices among the effects. */
  function Notices(calls: seq<Call>): nat
    decreases |calls|
  {
    if |calls| == 0 then 0 else (if calls[0].SendTelegram? then 1 else 0) + Notices(calls[1..])
  }

  /** A reservation sends one notice when it succeeds and none otherwise. */
  lemma ReservationNotices(dto: ReservationRequest, create: (string, Fields) -> CreateResponse,
                           retrieve: (string, string) -> RetrieveResponse)
    ensures var run := Reservation(dto, create, retrieve);
      Notices(run.calls) == if run.outcome.Success? then 1 else 0
  {
    var run := Reservation(dto, create, retrieve);
    if !MissingProduct(dto) {
      var calls := run.calls;
      assert Notices(calls) == (if calls[0].SendTelegram? then 1 else 0) + Notices(calls[1..]);
      if run.outcome.Success? {
        assert Notices(calls[1..]) == Notices(calls[2..]);
        assert Notices(calls[2..]) == 1 + Notices(calls[3..]);
      }
    }
  }

  /** The six lines of the notice, in the order the source writes them. */
  function NoticeLines(productName: string, dto: ReservationRequest): seq<string> {
    [NoticeHeading,
     ProductLabel + productName,
     QuantityLabel + dto.quantityMeters + MetreUnit,
     NameLabel + dto.customerName,
     PhoneLabel + dto.customerPhone,
     AddressLabel + dto.customerAddress]
  }

  /** No fixed part of the notice holds a line break. */
  lemma LabelsSingleLine()
    ensures '\n' !in NoticeHeading && '\n' !in ProductLabel && '\n' !in QuantityLabel && '\n' !in MetreUnit
    ensures '\n' !in NameLabel && '\n' !in PhoneLabel && '\n' !in AddressLabel
  {
  }

  /** Six line-break-free lines joined by line breaks split back into those lines. */
  lemma SixLines(l0: string, l1: string, l2: string, l3: string, l4: string, l5: string)
    requires '\n' !in l0 && '\n' !in l1 && '\n' !in l2 && '\n' !in l3 && '\n' !in l4 && '\n' !in l5
    ensures Split(l0 + "\n" + l1 + "\n" + l2 + "\n" + l3 + "\n" + l4 + "\n" + l5, '\n') == [l0, l1, l2, l3, l4, l5]
  {
    var nl := ['\n'];
    assert "\n" == nl;
    var t4 := l4 + nl + l5;
    var t3 := l3 + nl + t4;
    var t2 := l2 + nl + t3;
    var t1 := l1 + nl + t2;
    var t0 := l0 + nl + t1;
    assert l0 + nl + l1 + nl + l2 + nl + l3 + nl + l4 + nl + l5 == t0;
    SplitWithoutSeparator(l5, '\n');
    SplitAtSeparator(l4, '\n', l5);
    SplitAtSeparator(l3, '\n', t4);
    SplitAtSeparator(l2, '\n', t3);
    SplitAtSeparator(l1, '\n', t2);
    SplitAtSeparator(l0, '\n', t1);
  }

  /** A label followed by a value (and a suffix) is line-break free when its parts are. */
  lemma ConcatSingleLine(a: string, b: string)
    requires '\n' !in a && '\n' !in b
    ensures '\n' !in a + b
  {
  }

  /**
   * When none of the values holds a line break, the notice is exactly six
   * lines: the heading, then product name, quantity, customer name, phone
   * and address, in that order.
   */
  lemma ReservationNoticeLines(productName: string, dto: ReservationRequest)
    requires '\n' !in productName && '\n' !in dto.quantityMeters && '\n' !in dto.customerName
    requires '\n' !in dto.customerPhone && '\n' !in dto.customerAddress
    ensures Split(ReservationNotice(productName, dto), '\n') == NoticeLines(productName, dto)
  {
    LabelsSingleLine();
    ConcatSingleLine(ProductLabel, productName);
    ConcatSingleLine(QuantityLabel, dto.quantityMeters);
    ConcatSingleLine(QuantityLabel + dto.quantityMeters, MetreUnit);
    ConcatSingleLine(NameLabel, dto.customerName);
    ConcatSingleLine(PhoneLabel, dto.customerPhone);
    ConcatSingleLine(AddressLabel, dto.customerAddress);
    var lines := NoticeLines(productName, dto);
    assert ReservationNotice(productName, dto)
        == lines[0] + "\n" + lines[1] + "\n" + lines[2] + "\n" + lines[3] + "\n" + lines[4] + "\n" + lines[5];
    SixLines(lines[0], lines[1], lines[2], lines[3], lines[4], lines[5]);
  }

  // ---------------------------------------------------------------------
  // The service
  // ---------------------------------------------------------------------

  /** `AirtableService`, over fixed Airtable answers; `log` records its effects. */
  class AirtableService {
    const listRecords: string -> ListResponse
    const retrieveRecord: (string, string) -> RetrieveResponse
    const createRecord: (string, Fields) -> CreateResponse
    ghost var log: seq<Call>

    constructor(listRecords: string -> ListResponse, retrieveRecord: (string, string) -> RetrieveResponse,
                createRecord: (string, Fields) -> CreateResponse)
      ensures this.listRecords == listRecords && this.retrieveRecord == retrieveRecord
      ensures this.createRecord == createRecord && log == []
    {
      this.listRecords := listRecords;
      this.retrieveRecord := retrieveRecord;
      this.createRecord := createRecord;
      log := [];
    }

    /** `GetProductsAsync`: one listing of Products, mapped record by record. */
    method GetProducts() returns (products: seq<AirtableProduct>)
      modifies this
      ensures products == ProductsOf(listRecords("Products"))
      ensures log == old(log) + [ListRecords("Products")]
    {
      products := [];
      var response := listRecords("Products");
      log := log + [ListRecords("Products")];
      if response.success {
        for i := 0 to |response.records|
          invariant products == ProductsListed(response.records[..i])
        {
          assert response.records[..i + 1][..i] == response.records[..i];
          products := products + [ToProduct(response.records[i])];
        }
        assert response.records[..|response.records|] == response.records;
      }
    }

    /** `GetCategoriesAsync`: one listing of Categories, mapped record by record. */
    method GetCategories() returns (categories: seq<Category>)
      modifies this
      ensures categories == CategoriesOf(listRecords("Categories"))
      ensures log == old(log) + [ListRecords("Categories")]
    {
      categories := [];
      var response := listRecords("Categories");
      log := log + [ListRecords("Categories")];
      if response.success {
        for i := 0 to |response.records|
          invariant categories == CategoriesListed(response.records[..i])
        {
          assert response.records[..i + 1][..i] == response.records[..i];
          categories := categories + [ToStoredCategory(response.records[i])];
        }
        assert response.records[..|response.records|] == response.records;
      }
    }

    /** `GetProductNameByIdAsync`: one retrieval from Products. */
    method GetProductNameById(recordId: string) returns (name: string)
      modifies this
      ensures name == ProductName(retrieveRecord("Products", recordId))
      ensures log == old(log) + [RetrieveRecord("Products", recordId)]
    {
      var response := retrieveRecord("Products", recordId);
      log := log + [RetrieveRecord("Products", recordId)];
      if response.success && "Name" in response.record.fields {
        var text := ToText(response.record.fields["Name"]);
        name := if text.Some? then text.value else UnknownName;
      } else {
        name := UnknownName;
      }
    }

    /**
     * `CreateReservationAsync`: the thrown exception is the `Failure` outcome
     * with its message.
     */
    method CreateReservation(dto: ReservationRequest) returns (result: Result<string, string>)
      modifies this
      ensures result == Reservation(dto, createRecord, retrieveRecord).outcome
      ensures log == old(log) + Reservation(dto, createRecord, retrieveRecord).calls
    {
      if dto.productRecordId.None? || dto.productRecordId.value == "" {
        return Failure(MissingProductMessage);
      }
      var id := dto.productRecordId.value;
      var fields: Fields := map[];
      fields := fields["Product" := TextList([id])];
      fields := fields["Quantity Meters" := Other(dto.quantityMeters)];
      fields := fields["Customer Name" := Text(dto.customerName)];
      fields := fields["Customer Phone" := Text(dto.customerPhone)];
      fields := fields["Customer Address" := Text(dto.customerAddress)];
      assert fields == ReservationFields(dto, id);

      var response := createRecord("Reservations", fields);
      log := log + [CreateRecord("Reservations", fields)];
      if response.success {
        var productName := GetProductNameById(id);
        var msg := ReservationNotice(productName, dto);
        log := log + [SendTelegram(msg)];
        return Success(response.record.id);
      }

      var errorMsg := if response.apiError.Some? then response.apiError.value.errorMessage.GetOr(UnknownError) else UnknownError;
      var detailedMsg := if response.apiError.Some? then response.apiError.value.detailedErrorMessage.GetOr(NoDetails) else NoDetails;
      result := Failure(ErrorPrefix + errorMsg + DetailsSeparator + detailedMsg);
    }
  }
}
