/**
 * The REST endpoints of fabrics/Controllers/AirtableController.cs over the
 * catalog service: pass-through listings, id lookups, the merged product
 * list and the two-level category tree built for the bot.
 */
module AirtableEndpoints {
  import opened Nullable
  import opened Text
  import opened Lists
  import opened Catalog

  /** `Ok`, `BadRequest`, `NotFound` or status 500, each with the `ApiResponse` message. */
  datatype Response<T> = Ok(message: string, data: T) | BadRequest(message: string) | NotFound(message: string) | ServerError(message: string)

  /** The response of an action together with the service calls it made, in order. */
  datatype Handled<T> = Handled(response: Response<T>, calls: seq<ServiceCall>)

  const CategoriesOk: string := "تم جلب التصنيفات بنجاح"
  const CategoriesFailed: string := "حدث خطأ في جلب التصنيفات"
  const MainCategoriesOk: string := "تم جلب التصنيفات الرئيسية بنجاح"
  const MainCategoriesFailed: string := "حدث خطأ في جلب التصنيفات الرئيسية"
  const MainIdRequired: string := "معرف التصنيف الرئيسي مطلوب"
  const SubCategoriesOk: string := "تم جلب التصنيفات الفرعية بنجاح"
  const SubCategoriesFailed: string := "حدث خطأ في جلب التصنيفات الفرعية"
  const CategoryIdRequired: string := "معرف التصنيف مطلوب"
  const ProductsOk: string := "تم جلب المنتجات بنجاح"
  const ProductsFailed: string := "حدث خطأ في جلب المنتجات"
  const AllProductsOk: string := "تم جلب كل المنتجات بنجاح"
  const TreeOk: string := "تم جلب هيكل التصنيفات بنجاح"
  const TreeFailed: string := "حدث خطأ في بناء هيكل التصنيفات"
  const CategoryMissing: string := "التصنيف غير موجود"
  const CategoryOk: string := "تم جلب التصنيف بنجاح"
  const CategoryFailed: string := "حدث خطأ في جلب التصنيف"

  /** The list a successful call returned, `None` standing for `null`. */
  function Data<T>(fetched: Fetch<T>): Option<seq<T>> {
    if fetched.Items? then Some(fetched.items) else None
  }

  /** `string.IsNullOrEmpty`. */
  predicate IsNullOrEmpty(s: Option<string>) {
    s.None? || s.value == ""
  }

  // ---------------------------------------------------------------------
  // Pass-through listings
  // ---------------------------------------------------------------------

  function GetAllCategories(api: AirtableApi): (h: Handled<Option<seq<Category>>>)
    ensures h.calls == [ServiceCall.GetAllCategories]
    ensures h.response.Ok? <==> !api.allCategories.Fault?
    ensures h.response.Ok? ==> h.response.data == Data(api.allCategories)
  {
    var calls := [ServiceCall.GetAllCategories];
    if api.allCategories.Fault? then Handled(ServerError(CategoriesFailed), calls)
    else Handled(Ok(CategoriesOk, Data(api.allCategories)), calls)
  }

  function GetMainCategories(api: AirtableApi): (h: Handled<Option<seq<Category>>>)
    ensures h.calls == [ServiceCall.GetMainCategories]
    ensures h.response.Ok? <==> !api.mainCategories.Fault?
    ensures h.response.Ok? ==> h.response.data == Data(api.mainCategories)
  {
    var calls := [ServiceCall.GetMainCategories];
    if api.mainCategories.Fault? then Handled(ServerError(MainCategoriesFailed), calls)
    else Handled(Ok(MainCategoriesOk, Data(api.mainCategories)), calls)
  }

  /** A missing or empty id is refused before the service is called. */
  function GetSubCategories(api: AirtableApi, parentCategoryId: Option<string>): (h: Handled<Option<seq<Category>>>)
    ensures IsNullOrEmpty(parentCategoryId) <==> h.response.BadRequest?
    ensures IsNullOrEmpty(parentCategoryId) ==> h.calls == []
    ensures !IsNullOrEmpty(parentCategoryId) ==>
      && h.calls == [ServiceCall.GetSubCategories(parentCategoryId.value)]
      && (h.response.Ok? <==> !api.subCategoriesOf(parentCategoryId.value).Fault?)
      && (h.response.Ok? ==> h.response.data == Data(api.subCategoriesOf(parentCategoryId.value)))
  {
    if IsNullOrEmpty(parentCategoryId) then Handled(BadRequest(MainIdRequired), [])
    else
      var id := parentCategoryId.value;
      var calls := [ServiceCall.GetSubCategories(id)];
      var fetched := api.subCategoriesOf(id);
      if fetched.Fault? then Handled(ServerError(SubCategoriesFailed), calls)
      else Handled(Ok(SubCategoriesOk, Data(fetched)), calls)
  }

  /** A missing or empty id is refused before the service is called. */
  function GetProductsByCategory(api: AirtableApi, categoryId: Option<string>): (h: Handled<Option<seq<Product>>>)
    ensures IsNullOrEmpty(categoryId) <==> h.response.BadRequest?
    ensures IsNullOrEmpty(categoryId) ==> h.calls == []
    ensures !IsNullOrEmpty(categoryId) ==>
      && h.calls == [ServiceCall.GetProductsByCategory(categoryId.value)]
      && (h.response.Ok? <==> !api.productsOf(categoryId.value).Fault?)
      && (h.response.Ok? ==> h.response.data == Data(api.productsOf(categoryId.value)))
  {
    if IsNullOrEmpty(categoryId) then Handled(BadRequest(CategoryIdRequired), [])
    else
      var id := categoryId.value;
      var calls := [ServiceCall.GetProductsByCategory(id)];
      var fetched := api.productsOf(id);
      if fetched.Fault? then Handled(ServerError(ProductsFailed), calls)
      else Handled(Ok(ProductsOk, Data(fetched)), calls)
  }

  // ---------------------------------------------------------------------
  // GetCategoryById
  // ---------------------------------------------------------------------

  /**
   * The first category carrying the id; `NotFound` when none does. A `null`
   * list makes `FirstOrDefault` throw, which is answered with status 500.
   */
  function GetCategoryById(api: AirtableApi, categoryId: Option<string>): (h: Handled<Category>)
    ensures IsNullOrEmpty(categoryId) ==> h == Handled(BadRequest(CategoryIdRequired), [])
    ensures !IsNullOrEmpty(categoryId) ==> h.calls == [ServiceCall.GetAllCategories]
    ensures h.response.ServerError? <==> !IsNullOrEmpty(categoryId) && !api.allCategories.Items?
    ensures h.response.NotFound? <==>
      && !IsNullOrEmpty(categoryId) && api.allCategories.Items?
      && forall k :: 0 <= k < |api.allCategories.items| ==> api.allCategories.items[k].id != categoryId.value
    ensures h.response.Ok? ==>
      && categoryId == Some(h.response.data.id)
      && api.allCategories.Items?
      && exists k :: 0 <= k < |api.allCategories.items|
           && api.allCategories.items[k] == h.response.data
           && forall j :: 0 <= j < k ==> api.allCategories.items[j].id != h.response.data.id
  {
    if IsNullOrEmpty(categoryId) then Handled(BadRequest(CategoryIdRequired), [])
    else
      var calls := [ServiceCall.GetAllCategories];
      if !api.allCategories.Items? then Handled(ServerError(CategoryFailed), calls)
      else
        var cs := api.allCategories.items;
        var k := FirstIndex(cs, CategoryId, categoryId.value);
        if k == |cs| then Handled(NotFound(CategoryMissing), calls)
        else Handled(Ok(CategoryOk, cs[k]), calls)
  }

  // ---------------------------------------------------------------------
  // GetAllProducts
  // ---------------------------------------------------------------------

  /** `c.ProductsCount > 0`. */
  predicate HasProducts(c: Category) {
    c.productsCount > 0
  }

  /** The products gathered so far, the calls made, and whether a call threw (or gave `null`, which `AddRange` rejects). */
  datatype Gathered = Gathered(products: seq<Product>, calls: seq<ServiceCall>, failed: bool)

  /** The `foreach` over the categories with products, one `GetProductsByCategoryAsync` per category, stopping at the first failure. */
  function Gather(api: AirtableApi, cs: seq<Category>): Gathered
    decreases |cs|
  {
    if |cs| == 0 then Gathered([], [], false)
    else
      var before := Gather(api, cs[..|cs| - 1]);
      if before.failed then before
      else
        var c := cs[|cs| - 1];
        var fetched := api.productsOf(c.id);
        var calls := before.calls + [ServiceCall.GetProductsByCategory(c.id)];
        if fetched.Items? then Gathered(before.products + fetched.items, calls, false)
        else Gathered(before.products, calls, true)
  }

  /** Once a call failed, the remaining categories change nothing. */
  lemma {:induction false} GatherStops(api: AirtableApi, cs: seq<Category>, later: seq<Category>)
    requires Gather(api, cs).failed
    ensures Gather(api, cs + later) == Gather(api, cs)
    decreases |later|
  {
    if |later| > 0 {
      var all := cs + later;
      assert all[..|all| - 1] == cs + later[..|later| - 1];
      GatherStops(api, cs, later[..|later| - 1]);
    } else {
      assert cs + later == cs;
    }
  }

  /** One more category: its call is appended, and its products too unless the fetch failed. */
  lemma GatherStep(api: AirtableApi, cs: seq<Category>, i: nat)
    requires i < |cs| && !Gather(api, cs[..i]).failed
    ensures var before := Gather(api, cs[..i]);
      var fetched := api.productsOf(cs[i].id);
      var calls := before.calls + [ServiceCall.GetProductsByCategory(cs[i].id)];
      Gather(api, cs[..i + 1]) == if fetched.Items? then Gathered(before.products + fetched.items, calls, false) else Gathered(before.products, calls, true)
  {
    assert cs[..i + 1][..i] == cs[..i];
  }

  /** A failure within the first `n` categories is the outcome of the whole loop. */
  lemma GatherStopsAt(api: AirtableApi, cs: seq<Category>, n: nat)
    requires n <= |cs| && Gather(api, cs[..n]).failed
    ensures Gather(api, cs) == Gather(api, cs[..n])
  {
    assert cs == cs[..n] + cs[n..];
    GatherStops(api, cs[..n], cs[n..]);
  }

  /**
   * The calls are made in category order, one per category, up to and
   * including the first that fails; every call before the last fetched a
   * list, and when none fails the last one did too.
   */
  lemma {:induction false} GatherSpec(api: AirtableApi, cs: seq<Category>)
    ensures var g := Gather(api, cs);
      && |g.calls| <= |cs|
      && (forall k :: 0 <= k < |g.calls| ==> g.calls[k] == ServiceCall.GetProductsByCategory(cs[k].id))
      && (forall k :: 0 <= k < |g.calls| - 1 ==> api.productsOf(cs[k].id).Items?)
      && (!g.failed ==> |g.calls| == |cs| && forall k :: 0 <= k < |cs| ==> api.productsOf(cs[k].id).Items?)
      && (g.failed ==> |g.calls| >= 1 && !api.productsOf(cs[|g.calls| - 1].id).Items?)
    decreases |cs|
  {
    if |cs| > 0 {
      var init := cs[..|cs| - 1];
      GatherSpec(api, init);
      assert forall k :: 0 <= k < |init| ==> cs[k] == init[k];
    }
  }

  /** When no call fails, the gathered products are exactly those of all the lists fetched. */
  lemma {:induction false} GatherProducts(api: AirtableApi, cs: seq<Category>)
    requires !Gather(api, cs).failed
    ensures forall p :: p in Gather(api, cs).products <==> exists k :: 0 <= k < |cs| && p in api.productsOf(cs[k].id).Listed()
    decreases |cs|
  {
    if |cs| > 0 {
      var init := cs[..|cs| - 1];
      var before := Gather(api, init);
      GatherProducts(api, init);
      var fetched := api.productsOf(cs[|cs| - 1].id);
      var g := Gather(api, cs);
      forall p
        ensures p in g.products <==> exists k :: 0 <= k < |cs| && p in api.productsOf(cs[k].id).Listed()
      {
        if p in fetched.items {
          assert p in api.productsOf(cs[|cs| - 1].id).items;
        }
        if p in before.products {
          var k :| 0 <= k < |init| && p in api.productsOf(init[k].id).Listed();
          assert cs[k] == init[k];
        }
        if exists k :: 0 <= k < |cs| && p in api.productsOf(cs[k].id).Listed() {
          var k :| 0 <= k < |cs| && p in api.productsOf(cs[k].id).Listed();
          if k < |init| {
            assert cs[k] == init[k];
          }
        }
      }
    }
  }

  /** The ids of a list of products. */
  function IdsOf(ps: seq<Product>): set<string> {
    set p | p in ps :: p.id
  }

  /** `DistinctBy(p => p.Id)` over `ps`, treating the ids in `seen` as already taken. */
  function DistinctFrom(ps: seq<Product>, seen: set<string>): seq<Product>
    decreases |ps|
  {
    if |ps| == 0 then []
    else if ps[0].id in seen then DistinctFrom(ps[1..], seen)
    else [ps[0]] + DistinctFrom(ps[1..], seen + {ps[0].id})
  }

  /** `ps.DistinctBy(p => p.Id)`: the first product of each id, in order. */
  function DistinctById(ps: seq<Product>): seq<Product> {
    DistinctFrom(ps, {})
  }

  /** The products of a list are its first one and those of the rest. */
  lemma IdsOfCons(ps: seq<Product>)
    requires |ps| > 0
    ensures IdsOf(ps) == {ps[0].id} + IdsOf(ps[1..])
  {
    assert forall p :: p in ps <==> p == ps[0] || p in ps[1..] by {
      assert ps == [ps[0]] + ps[1..];
    }
  }

  /** De-duplication keeps exactly one product per id not already taken. */
  lemma {:induction false} DistinctIds(ps: seq<Product>, seen: set<string>)
    ensures IdsOf(DistinctFrom(ps, seen)) == IdsOf(ps) - seen
    decreases |ps|
  {
    if |ps| > 0 {
      IdsOfCons(ps);
      if ps[0].id in seen {
        DistinctIds(ps[1..], seen);
      } else {
        var rest := DistinctFrom(ps[1..], seen + {ps[0].id});
        DistinctIds(ps[1..], seen + {ps[0].id});
        IdsOfCons([ps[0]] + rest);
        assert ([ps[0]] + rest)[1..] == rest;
      }
    }
  }

  /** No two products of the list share an id. */
  predicate UniqueIds(ps: seq<Product>) {
    forall i, j :: 0 <= i < j < |ps| ==> ps[i].id != ps[j].id
  }

  /** No two products kept share an id. */
  lemma {:induction false} DistinctUnique(ps: seq<Product>, seen: set<string>)
    ensures UniqueIds(DistinctFrom(ps, seen))
    decreases |ps|
  {
    if |ps| > 0 {
      if ps[0].id in seen {
        DistinctUnique(ps[1..], seen);
        assert DistinctFrom(ps, seen) == DistinctFrom(ps[1..], seen);
      } else {
        var seen' := seen + {ps[0].id};
        var rest := DistinctFrom(ps[1..], seen');
        var r := [ps[0]] + rest;
        DistinctUnique(ps[1..], seen');
        DistinctIds(ps[1..], seen');
        forall i, j | 0 <= i < j < |r|
          ensures r[i].id != r[j].id
        {
          if i == 0 {
            assert r[j] == rest[j - 1];
            assert r[j] in rest;
            assert r[j].id in IdsOf(rest);
          } else {
            assert r[i] == rest[i - 1] && r[j] == rest[j - 1];
          }
        }
      }
    }
  }

  /** The product kept for an id is the first product with that id. */
  lemma {:induction false} DistinctFirst(ps: seq<Product>, seen: set<string>)
    ensures forall x :: x in DistinctFrom(ps, seen) ==> FirstIndex(ps, ProductId, x.id) < |ps| && x == ps[FirstIndex(ps, ProductId, x.id)]
    decreases |ps|
  {
    if |ps| > 0 {
      var r := DistinctFrom(ps, seen);
      var tail := ps[1..];
      if ps[0].id in seen {
        DistinctFirst(tail, seen);
        DistinctIds(tail, seen);
        forall x | x in r
          ensures FirstIndex(ps, ProductId, x.id) < |ps| && x == ps[FirstIndex(ps, ProductId, x.id)]
        {
          assert x.id in IdsOf(r);
        }
      } else {
        var seen' := seen + {ps[0].id};
        var rest := DistinctFrom(tail, seen');
        DistinctFirst(tail, seen');
        DistinctIds(tail, seen');
        assert r == [ps[0]] + rest;
        forall x | x in r
          ensures FirstIndex(ps, ProductId, x.id) < |ps| && x == ps[FirstIndex(ps, ProductId, x.id)]
        {
          if x != ps[0] {
            assert x in rest;
            assert x.id in IdsOf(rest);
          }
        }
      }
    }
  }

  /** The products of `r` appear in the order of their ids' first occurrences in `ps`. */
  predicate OrderedAsIn(r: seq<Product>, ps: seq<Product>) {
    forall i, j :: 0 <= i < j < |r| ==> FirstIndex(ps, ProductId, r[i].id) < FirstIndex(ps, ProductId, r[j].id)
  }

  /** Products whose ids differ from the head of `ps` sit one place later than in its tail. */
  lemma OrderedPastHead(rest: seq<Product>, ps: seq<Product>)
    requires |ps| > 0 && OrderedAsIn(rest, ps[1..])
    requires ps[0].id !in IdsOf(rest)
    ensures OrderedAsIn(rest, ps)
    ensures forall x :: x in rest ==> FirstIndex(ps, ProductId, x.id) > 0
  {
    forall x | x in rest
      ensures FirstIndex(ps, ProductId, x.id) == 1 + FirstIndex(ps[1..], ProductId, x.id)
    {
      assert x.id in IdsOf(rest);
    }
  }

  /** A product placed before an ordered list whose ids all come later keeps it ordered. */
  lemma OrderedCons(x: Product, rest: seq<Product>, ps: seq<Product>)
    requires OrderedAsIn(rest, ps)
    requires forall y :: y in rest ==> FirstIndex(ps, ProductId, x.id) < FirstIndex(ps, ProductId, y.id)
    ensures OrderedAsIn([x] + rest, ps)
  {
    var r := [x] + rest;
    forall i, j | 0 <= i < j < |r|
      ensures FirstIndex(ps, ProductId, r[i].id) < FirstIndex(ps, ProductId, r[j].id)
    {
      assert r[j] == rest[j - 1];
      if i > 0 {
        assert r[i] == rest[i - 1];
      }
    }
  }

  /** The products kept appear in the order of their ids' first occurrences. */
  lemma {:induction false} DistinctOrder(ps: seq<Product>, seen: set<string>)
    ensures OrderedAsIn(DistinctFrom(ps, seen), ps)
    decreases |ps|
  {
    if |ps| > 0 {
      if ps[0].id in seen {
        var rest := DistinctFrom(ps[1..], seen);
        DistinctOrder(ps[1..], seen);
        DistinctIds(ps[1..], seen);
        OrderedPastHead(rest, ps);
      } else {
        var rest := DistinctFrom(ps[1..], seen + {ps[0].id});
        DistinctOrder(ps[1..], seen + {ps[0].id});
        DistinctIds(ps[1..], seen + {ps[0].id});
        OrderedPastHead(rest, ps);
        OrderedCons(ps[0], rest, ps);
      }
    }
  }

  /** One `GetProductsByCategoryAsync` per category, in order. */
  function ProductQueries(cs: seq<Category>): (q: seq<ServiceCall>)
    ensures |q| == |cs|
  {
    seq(|cs|, k requires 0 <= k < |cs| => ServiceCall.GetProductsByCategory(cs[k].id))
  }

  /** The whole response of `GetAllProducts`, as a function of the service's answers. */
  function AllProductsReply(api: AirtableApi): Handled<Option<seq<Product>>> {
    var head := [ServiceCall.GetAllCategories];
    if !api.allCategories.Items? then Handled(ServerError(ProductsFailed), head)
    else
      var g := Gather(api, Filter(api.allCategories.items, HasProducts));
      if g.failed then Handled(ServerError(ProductsFailed), head + g.calls)
      else Handled(Ok(AllProductsOk, Some(DistinctById(g.products))), head + g.calls)
  }

  method GetAllProducts(api: AirtableApi) returns (h: Handled<Option<seq<Product>>>)
    ensures h == AllProductsReply(api)
  {
    var head := [ServiceCall.GetAllCategories];
    if !api.allCategories.Items? {
      return Handled(ServerError(ProductsFailed), head);
    }
    var categoriesWithProducts := Filter(api.allCategories.items, HasProducts);
    var allProducts: seq<Product> := [];
    var queried: seq<ServiceCall> := [];
    for i := 0 to |categoriesWithProducts|
      invariant Gather(api, categoriesWithProducts[..i]) == Gathered(allProducts, queried, false)
    {
      var category := categoriesWithProducts[i];
      GatherStep(api, categoriesWithProducts, i);
      var products := api.productsOf(category.id);
      queried := queried + [ServiceCall.GetProductsByCategory(category.id)];
      if !products.Items? {
        GatherStopsAt(api, categoriesWithProducts, i + 1);
        return Handled(ServerError(ProductsFailed), head + queried);
      }
      allProducts := allProducts + products.items;
    }
    assert categoriesWithProducts[..|categoriesWithProducts|] == categoriesWithProducts;
    var distinctProducts := DistinctById(allProducts);
    h := Handled(Ok(AllProductsOk, Some(distinctProducts)), head + queried);
  }

  /** On success, only categories with `ProductsCount > 0` were queried, each once and in order, after the category list. */
  lemma AllProductsCalls(api: AirtableApi)
    requires AllProductsReply(api).response.Ok?
    ensures api.allCategories.Items?
    ensures var cs := Filter(api.allCategories.items, HasProducts);
      && AllProductsReply(api).calls == [ServiceCall.GetAllCategories] + ProductQueries(cs)
      && (forall c :: c in cs <==> c in api.allCategories.items && c.productsCount > 0)
  {
    SuccessfulCalls(api);
    var cs := Filter(api.allCategories.items, HasProducts);
    assert Gather(api, cs).calls == ProductQueries(cs) by {
      GatherSpec(api, cs);
    }
  }

  /** A successful reply's calls are the category list followed by the gathered calls, none of which failed. */
  lemma SuccessfulCalls(api: AirtableApi)
    requires AllProductsReply(api).response.Ok?
    ensures api.allCategories.Items?
    ensures var g := Gather(api, Filter(api.allCategories.items, HasProducts));
      !g.failed && AllProductsReply(api).calls == [ServiceCall.GetAllCategories] + g.calls
  {
  }

  /**
   * On success, no two products returned share an id, every product id
   * fetched appears, and each product returned is the first fetched with
   * its id.
   */
  lemma AllProductsResult(api: AirtableApi)
    requires AllProductsReply(api).response.Ok?
    ensures api.allCategories.Items?
    ensures var cs := Filter(api.allCategories.items, HasProducts);
      var all := Gather(api, cs).products;
      var r := AllProductsReply(api).response.data;
      && r.Some?
      && UniqueIds(r.value)
      && (forall p :: (exists k :: 0 <= k < |cs| && p in api.productsOf(cs[k].id).Listed()) ==> p.id in IdsOf(r.value))
      && (forall x :: x in r.value ==> FirstIndex(all, ProductId, x.id) < |all| && x == all[FirstIndex(all, ProductId, x.id)])
      && OrderedAsIn(r.value, all)
  {
    var cs := Filter(api.allCategories.items, HasProducts);
    var g := Gather(api, cs);
    assert AllProductsReply(api).response.data == Some(DistinctById(g.products));
    GatherProducts(api, cs);
    DistinctIds(g.products, {});
    DistinctUnique(g.products, {});
    DistinctFirst(g.products, {});
    DistinctOrder(g.products, {});
    forall p | exists k :: 0 <= k < |cs| && p in api.productsOf(cs[k].id).Listed()
      ensures p.id in IdsOf(DistinctById(g.products))
    {
      assert p.id in IdsOf(g.products);
    }
  }

  // ---------------------------------------------------------------------
  // The category tree
  // ---------------------------------------------------------------------

  /**
   * `CategoryTreeDto`. The controller never sets `Description`, so it stays
   * `None`; it also assigns a `ProductsCount` that the shown class does not
   * declare, carried here as a field.
   */
  datatype TreeNode = TreeNode(id: string, name: Option<string>, description: Option<string>, productsCount: int, subCategories: seq<TreeNode>)

  predicate IsMain(c: Category) {
    c.isMainCategory
  }

  /** `c.ParentCategory != null && c.ParentCategory.Contains(mainId)`: a substring test, not equality. */
  predicate IsChildOf(c: Category, mainId: string) {
    c.parentCategory.Some? && Contains(c.parentCategory.value, mainId)
  }

  function Node(c: Category, subs: seq<TreeNode>): TreeNode {
    TreeNode(c.id, c.name, None, c.productsCount, subs)
  }

  function Leaf(c: Category): TreeNode {
    Node(c, [])
  }

  function Leaves(cs: seq<Category>): seq<TreeNode> {
    seq(|cs|, i requires 0 <= i < |cs| => Leaf(cs[i]))
  }

  function MainNode(categories: seq<Category>, main: Category): TreeNode {
    Node(main, Leaves(FilterWith(categories, IsChildOf, main.id)))
  }

  /** The tree `BuildCategoryTree` returns. */
  function CategoryTree(categories: seq<Category>): seq<TreeNode> {
    var mains := Filter(categories, IsMain);
    seq(|mains|, i requires 0 <= i < |mains| => MainNode(categories, mains[i]))
  }

  method BuildCategoryTree(categories: seq<Category>) returns (tree: seq<TreeNode>)
    ensures tree == CategoryTree(categories)
  {
    var mainCategories := Filter(categories, IsMain);
    tree := [];
    for i := 0 to |mainCategories|
      invariant |tree| == i
      invariant forall k :: 0 <= k < i ==> tree[k] == MainNode(categories, mainCategories[k])
    {
      var mainCat := mainCategories[i];
      var subCategories := FilterWith(categories, IsChildOf, mainCat.id);
      var subs: seq<TreeNode> := [];
      for j := 0 to |subCategories|
        invariant |subs| == j
        invariant forall k :: 0 <= k < j ==> subs[k] == Leaf(subCategories[k])
      {
        subs := subs + [Leaf(subCategories[j])];
      }
      assert subs == Leaves(subCategories);
      assert Node(mainCat, subs) == MainNode(categories, mainCategories[i]);
      tree := tree + [Node(mainCat, subs)];
    }
  }

  method GetCategoryTree(api: AirtableApi) returns (h: Handled<seq<TreeNode>>)
    ensures h.calls == [ServiceCall.GetAllCategories]
    ensures api.allCategories.Items? ==> h.response == Ok(TreeOk, CategoryTree(api.allCategories.items))
    ensures !api.allCategories.Items? ==> h.response == ServerError(TreeFailed)
  {
    var calls := [ServiceCall.GetAllCategories];
    if !api.allCategories.Items? {
      return Handled(ServerError(TreeFailed), calls);
    }
    var categoryTree := BuildCategoryTree(api.allCategories.items);
    h := Handled(Ok(TreeOk, categoryTree), calls);
  }

  /** One root per main category, in input order; every main category is a root and every root a main category. */
  lemma TreeRoots(categories: seq<Category>)
    ensures var tree := CategoryTree(categories); var mains := Filter(categories, IsMain);
      && |tree| == |mains|
      && (forall i :: 0 <= i < |tree| ==> tree[i].id == mains[i].id && tree[i].name == mains[i].name)
      && (forall c :: c in categories && c.isMainCategory ==> exists i :: 0 <= i < |tree| && tree[i] == MainNode(categories, c))
      && (forall n :: n in tree ==> exists c :: c in categories && c.isMainCategory && n == MainNode(categories, c))
  {
    var tree := CategoryTree(categories);
    var mains := Filter(categories, IsMain);
    forall c | c in categories && c.isMainCategory
      ensures exists i :: 0 <= i < |tree| && tree[i] == MainNode(categories, c)
    {
      var i :| 0 <= i < |mains| && mains[i] == c;
      assert tree[i] == MainNode(categories, c);
    }
    forall n | n in tree
      ensures exists c :: c in categories && c.isMainCategory && n == MainNode(categories, c)
    {
      var i :| 0 <= i < |tree| && tree[i] == n;
      assert mains[i] in mains;
    }
  }

  /**
   * The children of a root are exactly the categories whose parent text
   * contains the root's id, as leaves in input order; a category whose
   * parent is exactly that id is among them. The tree has depth at most 2.
   */
  lemma TreeChildren(categories: seq<Category>, i: nat)
    requires i < |CategoryTree(categories)|
    ensures var main := Filter(categories, IsMain)[i]; var subs := CategoryTree(categories)[i].subCategories;
      && subs == Leaves(FilterWith(categories, IsChildOf, main.id))
      && (forall c :: c in categories && IsChildOf(c, main.id) ==> Leaf(c) in subs)
      && (forall c :: c in categories && c.parentCategory == Some(main.id) ==> Leaf(c) in subs)
      && (forall s :: s in subs ==> s.subCategories == [] && exists c :: c in categories && IsChildOf(c, main.id) && s == Leaf(c))
  {
    var main := Filter(categories, IsMain)[i];
    var children := FilterWith(categories, IsChildOf, main.id);
    var subs := Leaves(children);
    forall c | c in categories && IsChildOf(c, main.id)
      ensures Leaf(c) in subs
    {
      var k :| 0 <= k < |children| && children[k] == c;
      assert subs[k] == Leaf(c);
    }
    forall c | c in categories && c.parentCategory == Some(main.id)
      ensures IsChildOf(c, main.id)
    {
      assert c.parentCategory.value[..|main.id|] == main.id;
    }
    forall s | s in subs
      ensures exists c :: c in categories && IsChildOf(c, main.id) && s == Leaf(c)
    {
      var k :| 0 <= k < |subs| && subs[k] == s;
      assert children[k] in children;
    }
  }

  /** No node below a root has children: the tree has depth at most 2. */
  lemma TreeDepth(categories: seq<Category>)
    ensures forall n, s :: n in CategoryTree(categories) && s in n.subCategories ==> s.subCategories == []
  {
    var tree := CategoryTree(categories);
    forall n, s | n in tree && s in n.subCategories
      ensures s.subCategories == []
    {
      var i :| 0 <= i < |tree| && tree[i] == n;
      TreeChildren(categories, i);
    }
  }

  /**
   * Because the parent link is matched as a substring, when one root's id
   * is a proper prefix of another's (say "rec1" and "rec12"), a category
   * whose parent is the longer id sits under both roots.
   */
  lemma ChildUnderTwoRoots(r1: Category, r2: Category, child: Category)
    requires r1.isMainCategory && r2.isMainCategory && !child.isMainCategory
    requires r1.parentCategory.None? && r2.parentCategory.None?
    requires IsPrefix(r1.id, r2.id) && |r1.id| < |r2.id|
    requires child.parentCategory == Some(r2.id)
    ensures var tree := CategoryTree([r1, r2, child]);
      && |tree| == 2
      && tree[0].id == r1.id && tree[0].subCategories == [Leaf(child)]
      && tree[1].id == r2.id && tree[1].subCategories == [Leaf(child)]
  {
    FilterThree(r1, r2, child, IsMain);
    assert Filter([r1, r2, child], IsMain) == [r1, r2];
    assert IsChildOf(child, r1.id) && IsChildOf(child, r2.id);
    FilterWithThree(r1, r2, child, IsChildOf, r1.id);
    FilterWithThree(r1, r2, child, IsChildOf, r2.id);
  }
}
