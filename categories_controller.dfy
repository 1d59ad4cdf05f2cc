/**
 * `GET api/categories` (fabrics/Controllers/CategoriesController.cs): each
 * record, read as a dictionary of field values, becomes a `Category`; the
 * categories without a parent become the roots, and each root receives as
 * sub-categories the categories whose parent is exactly its id.
 */
module CategoriesEndpoint {
  import opened Nullable
  import opened Lists
  import opened Catalog

  /** One record as a field dictionary (`Dictionary<string, object>`). */
  type Record = map<string, FieldValue>

  /** Why converting a record throws: `KeyNotFoundException`, or `ToString()` called on `null`. */
  datatype RecordFault = MissingKey(key: string) | NullValue(key: string)

  /** `d[key].ToString()`. */
  function Required(d: Record, key: string): (r: Result<string, RecordFault>)
    ensures r.Success? <==> key in d && !d[key].Null?
    ensures r.Success? ==> Some(r.value) == ToText(d[key])
    ensures key !in d ==> r == Failure(MissingKey(key))
    ensures key in d && d[key].Null? ==> r == Failure(NullValue(key))
  {
    if key !in d then Failure(MissingKey(key))
    else match ToText(d[key])
      case None => Failure(NullValue(key))
      case Some(s) => Success(s)
  }

  /** `d.ContainsKey(key) ? d[key]?.ToString() : null`: a missing key and a `null` value both give `null`. */
  function Optional(d: Record, key: string): (r: Option<string>)
    ensures r.None? <==> key !in d || d[key].Null?
    ensures r.Some? ==> Some(r.value) == ToText(d[key])
  {
    if key in d then ToText(d[key]) else None
  }

  /**
   * The `Select` projection. "Id" and "Name" are read unconditionally;
   * everything else keeps the class defaults (no sub-categories).
   */
  function ToCategory(d: Record): (r: Result<Category, RecordFault>)
    ensures r.Success? <==> Required(d, "Id").Success? && Required(d, "Name").Success?
    ensures r.Success? ==>
      && Some(r.value.id) == ToText(d["Id"])
      && r.value.name == ToText(d["Name"])
      && r.value.description == Optional(d, "Description")
      && r.value.parentCategory == Optional(d, "ParentCategory")
      && r.value.subCategories == []
    ensures r.Failure? ==> r.error == (if Required(d, "Id").Failure? then Required(d, "Id").error else Required(d, "Name").error)
  {
    match Required(d, "Id")
    case Failure(e) => Failure(e)
    case Success(id) =>
      match Required(d, "Name")
      case Failure(e) => Failure(e)
      case Success(name) =>
        Success(Category(id, Some(name), Optional(d, "ParentCategory"), Optional(d, "Description"), false, 0, []))
  }

  /** The record a category is read from. */
  function FromCategory(c: Category): Record {
    var base := map["Id" := Text(c.id), "Name" := Text(c.name.GetOr(""))];
    var withDescription := if c.description.Some? then base["Description" := Text(c.description.value)] else base;
    if c.parentCategory.Some? then withDescription["ParentCategory" := Text(c.parentCategory.value)] else withDescription
  }

  /** Round trip: a category with a name and the default remaining fields is read back from its record unchanged. */
  lemma ToCategoryFromCategory(c: Category)
    requires c.name.Some? && !c.isMainCategory && c.productsCount == 0 && c.subCategories == []
    ensures ToCategory(FromCategory(c)) == Success(c)
  {
    var d := FromCategory(c);
    assert d["Id"] == Text(c.id);
    assert d["Name"] == Text(c.name.value);
    assert Optional(d, "Description") == c.description;
    assert Optional(d, "ParentCategory") == c.parentCategory;
  }

  /** `Select(...).ToList()`: the records converted in order; the first that throws ends the request. */
  function ToCategories(ds: seq<Record>): (r: Result<seq<Category>, RecordFault>)
    ensures r.Success? ==> |r.value| == |ds| && forall i :: 0 <= i < |ds| ==> ToCategory(ds[i]) == Success(r.value[i])
    ensures r.Failure? ==> exists i :: 0 <= i < |ds| && ToCategory(ds[i]) == Failure(r.error) && forall j :: 0 <= j < i ==> ToCategory(ds[j]).Success?
    ensures r.Success? <==> forall i :: 0 <= i < |ds| ==> ToCategory(ds[i]).Success?
    decreases |ds|
  {
    if |ds| == 0 then Success([])
    else
      match ToCategory(ds[0])
      case Failure(e) => Failure(e)
      case Success(c) =>
        match ToCategories(ds[1..])
        case Failure(e) =>
          assert forall j :: 0 <= j < |ds| - 1 ==> ds[1..][j] == ds[j + 1];
          Failure(e)
        case Success(cs) => Success([c] + cs)
  }

  /** `c.ParentCategory == null`. */
  predicate IsRoot(c: Category) {
    c.parentCategory.None?
  }

  /** `c.ParentCategory == id`: exact string equality. */
  predicate HasParent(c: Category, id: string) {
    c.parentCategory == Some(id)
  }

  /** The categories whose parent is exactly `id`, in input order. */
  function ChildrenOf(categories: seq<Category>, id: string): seq<Category> {
    FilterWith(categories, HasParent, id)
  }

  /** A root with its sub-categories assigned. */
  function WithChildren(categories: seq<Category>, root: Category): Category {
    root.(subCategories := ChildrenOf(categories, root.id))
  }

  /** The list `GetAll` answers with. */
  function Hierarchy(categories: seq<Category>): seq<Category> {
    var roots := Filter(categories, IsRoot);
    seq(|roots|, i requires 0 <= i < |roots| => WithChildren(categories, roots[i]))
  }

  /** The outcome of `GetAll` for the records the store returned. */
  function GetAllReply(records: seq<Record>): Result<seq<Category>, RecordFault> {
    match ToCategories(records)
    case Failure(e) => Failure(e)
    case Success(categories) => Success(Hierarchy(categories))
  }

  /**
   * The roots are updated one by one. Each root is a distinct object and no
   * root is anyone's child (a root has no parent), so assigning the lists
   * in place has the same effect as this update of values.
   */
  method GetAll(records: seq<Record>) returns (r: Result<seq<Category>, RecordFault>)
    ensures r == GetAllReply(records)
  {
    var converted := ToCategories(records);
    if converted.Failure? {
      return Failure(converted.error);
    }
    var allCategories := converted.value;
    var roots := Filter(allCategories, IsRoot);
    var mainCategories := roots;
    for i := 0 to |mainCategories|
      invariant |mainCategories| == |roots|
      invariant forall k :: 0 <= k < i ==> mainCategories[k] == WithChildren(allCategories, roots[k])
      invariant forall k :: i <= k < |roots| ==> mainCategories[k] == roots[k]
    {
      var mainCat := mainCategories[i];
      mainCategories := mainCategories[i := mainCat.(subCategories := ChildrenOf(allCategories, mainCat.id))];
    }
    assert mainCategories == Hierarchy(allCategories);
    r := Success(mainCategories);
  }

  /** Only roots are returned, and each root is returned once with its children, in input order. */
  lemma HierarchyRoots(categories: seq<Category>)
    ensures var h := Hierarchy(categories);
      && |h| == |Filter(categories, IsRoot)|
      && (forall i :: 0 <= i < |h| ==> h[i] == WithChildren(categories, Filter(categories, IsRoot)[i]))
      && (forall c :: c in categories && c.parentCategory.None? ==> WithChildren(categories, c) in h)
      && (forall x :: x in h ==> x.parentCategory.None? && exists c :: c in categories && IsRoot(c) && x == WithChildren(categories, c))
  {
    var h := Hierarchy(categories);
    var roots := Filter(categories, IsRoot);
    forall c | c in categories && c.parentCategory.None?
      ensures WithChildren(categories, c) in h
    {
      var i :| 0 <= i < |roots| && roots[i] == c;
      assert h[i] == WithChildren(categories, c);
    }
    forall x | x in h
      ensures x.parentCategory.None? && exists c :: c in categories && IsRoot(c) && x == WithChildren(categories, c)
    {
      var i :| 0 <= i < |h| && h[i] == x;
      assert roots[i] in roots;
    }
  }

  /** The sub-categories of each root are exactly the categories whose parent equals its id. */
  lemma HierarchyChildren(categories: seq<Category>, i: nat)
    requires i < |Hierarchy(categories)|
    ensures var root := Hierarchy(categories)[i];
      && root.subCategories == ChildrenOf(categories, root.id)
      && forall c :: c in root.subCategories <==> c in categories && c.parentCategory == Some(root.id)
  {
  }

  /**
   * A category with a parent that is no root's id appears nowhere in the
   * answer: neither as a root nor as a child.
   */
  lemma OrphanDropped(categories: seq<Category>, c: Category)
    requires c in categories && c.parentCategory.Some?
    requires forall r :: r in categories && IsRoot(r) ==> Some(r.id) != c.parentCategory
    ensures c !in Hierarchy(categories)
    ensures forall x :: x in Hierarchy(categories) ==> c !in x.subCategories
  {
    HierarchyRoots(categories);
    forall x | x in Hierarchy(categories)
      ensures c !in x.subCategories
    {
      var r :| r in categories && IsRoot(r) && x == WithChildren(categories, r);
    }
  }

  /** A parent given as the empty string is not "no parent": when no id is empty, such a category is dropped. */
  lemma EmptyParentDropped(categories: seq<Category>, c: Category)
    requires c in categories && c.parentCategory == Some("")
    requires forall r :: r in categories ==> r.id != ""
    ensures c !in Hierarchy(categories)
    ensures forall x :: x in Hierarchy(categories) ==> c !in x.subCategories
  {
    OrphanDropped(categories, c);
  }

  /** No two categories of the list share an id. */
  predicate UniqueIds(categories: seq<Category>) {
    forall i, j :: 0 <= i < j < |categories| ==> categories[i].id != categories[j].id
  }

  /** Filtering keeps ids unique. */
  lemma {:induction false} RootsUnique(categories: seq<Category>)
    requires UniqueIds(categories)
    ensures UniqueIds(Filter(categories, IsRoot))
    decreases |categories|
  {
    if |categories| > 0 {
      var tail := categories[1..];
      assert UniqueIds(tail) by {
        forall i, j | 0 <= i < j < |tail|
          ensures tail[i].id != tail[j].id
        {
          assert tail[i] == categories[i + 1] && tail[j] == categories[j + 1];
        }
      }
      RootsUnique(tail);
      var rest := Filter(tail, IsRoot);
      if IsRoot(categories[0]) {
        var f := [categories[0]] + rest;
        forall i, j | 0 <= i < j < |f|
          ensures f[i].id != f[j].id
        {
          if i == 0 {
            assert f[j] == rest[j - 1] && f[j] in rest;
            var k :| 0 <= k < |tail| && tail[k] == f[j];
            assert categories[k + 1] == f[j];
          } else {
            assert f[i] == rest[i - 1] && f[j] == rest[j - 1];
          }
        }
      }
    }
  }

  /** With unique ids, no category sits under two roots. */
  lemma AtMostOneRoot(categories: seq<Category>, c: Category, i: nat, j: nat)
    requires UniqueIds(categories)
    requires i < |Hierarchy(categories)| && j < |Hierarchy(categories)|
    requires c in Hierarchy(categories)[i].subCategories && c in Hierarchy(categories)[j].subCategories
    ensures i == j
  {
    var roots := Filter(categories, IsRoot);
    RootsUnique(categories);
    assert Hierarchy(categories)[i].id == roots[i].id;
    assert Hierarchy(categories)[j].id == roots[j].id;
  }

  /**
   * The children are themselves never roots and carry no sub-categories of
   * their own, so the answer is a tree of depth at most 2.
   */
  lemma ChildrenAreLeaves(records: seq<Record>)
    requires GetAllReply(records).Success?
    ensures forall x, c :: x in GetAllReply(records).value && c in x.subCategories ==> c.parentCategory == Some(x.id) && c.subCategories == []
  {
    var categories := ToCategories(records).value;
    HierarchyRoots(categories);
    forall x, c | x in Hierarchy(categories) && c in x.subCategories
      ensures c.parentCategory == Some(x.id) && c.subCategories == []
    {
      var r :| r in categories && IsRoot(r) && x == WithChildren(categories, r);
      var k :| 0 <= k < |categories| && categories[k] == c;
      assert ToCategory(records[k]) == Success(c);
    }
  }
}
