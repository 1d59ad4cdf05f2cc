/**
 * The catalog's data shapes (fabrics/Models, fabrics/Dtos) and the answers of
 * the catalog service `IAirtableService`, which the controllers only consume.
 * No implementation of that interface is part of this model: its four
 * results are given as inputs.
 */
module Catalog {
  import opened Nullable

  /**
   * A category record. `parentCategory` holds the parent's id as a string.
   * `isMainCategory` and `productsCount` are read by the controllers but are
   * not declared on the model class; here they are plain fields of the record.
   */
  datatype Category = Category(
    id: string,
    name: Option<string>,
    parentCategory: Option<string>,
    description: Option<string>,
    isMainCategory: bool,
    productsCount: int,
    subCategories: seq<Category>)

  /** A product as the catalog service returns it; the price is a whole number. */
  datatype Product = Product(
    id: string,
    name: Option<string>,
    description: Option<string>,
    pricePerMeter: int,
    category: Option<string>)

  /**
   * What awaiting one service call gives: a list, a `null` list, or an
   * exception (`Fault`).
   */
  datatype Fetch<T> = Items(items: seq<T>) | NullList | Fault {
    /** The elements, with `null` read as no elements (`list == null || !list.Any()`). */
    function Listed(): seq<T> {
      if Items? then items else []
    }
  }

  /** The answers of the four `IAirtableService` operations. */
  datatype AirtableApi = AirtableApi(
    allCategories: Fetch<Category>,
    mainCategories: Fetch<Category>,
    subCategoriesOf: string -> Fetch<Category>,
    productsOf: string -> Fetch<Product>)

  /** One call made on `IAirtableService`, for the call logs of the controllers. */
  datatype ServiceCall =
    | GetAllCategories
    | GetMainCategories
    | GetSubCategories(parentCategoryId: string)
    | GetProductsByCategory(categoryId: string)

  /** The id of a category, as a key for `FirstIndex`. */
  function CategoryId(c: Category): string { c.id }

  /** The id of a product, as a key for `FirstIndex`. */
  function ProductId(p: Product): string { p.id }

  /**
   * The first position holding an element whose key is `id`, or `|s|` when
   * none does (`FirstOrDefault(x => x.Id == id)` and the first-wins choice of
   * `DistinctBy`).
   */
  function FirstIndex<T>(s: seq<T>, key: T -> string, id: string): (k: nat)
    ensures k <= |s|
    ensures k < |s| ==> key(s[k]) == id
    ensures forall j :: 0 <= j < k ==> key(s[j]) != id
    decreases |s|
  {
    if |s| == 0 then 0
    else if key(s[0]) == id then 0
    else 1 + FirstIndex(s[1..], key, id)
  }

  /**
   * A value of a loosely typed record field. `Other` is any non-string value,
   * carried with what its `ToString()` gives; `Null` is a JSON null.
   */
  datatype FieldValue = Text(value: string) | TextList(items: seq<string>) | Other(rendered: string) | Null

  /** `value?.ToString()`. */
  function ToText(v: FieldValue): (r: Option<string>)
    ensures r.None? <==> v.Null?
    ensures v.Text? ==> r == Some(v.value)
  {
    match v
    case Text(s) => Some(s)
    case TextList(_) => Some("System.String[]")
    case Other(s) => Some(s)
    case Null => None
  }
}
