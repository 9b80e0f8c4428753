/** The product helpers of src/controllers/product.controller.js: the
    required-field check of `addProduct` and the document it builds, the
    query, sort and offset `getAllProducts` hands to the database, the
    slug rule of `updateProduct`, and the selection `getRelatedProducts`
    asks for. `toggleSavedProduct` changes the user record and lives with
    it in module UserAccounts. */
module ProductController {
  import opened Wrappers
  import opened Text
  import opened Catalog
  import opened Inventory
  import opened Store
  import opened Paging
  import opened SlugRegistry

  /** The `productType` enum of the product schema. */
  predicate IsProductType(t: string) {
    t == "bat" || t == "ball" || t == "gloves" || t == "pads"
  }

  /** What the product schema's validators demand of a stored document;
      `title` and `grade` are stored trimmed and are required. */
  predicate DocumentValid(p: Product) {
    p.title != "" && p.grade != "" && p.slug != "" && IsProductType(p.productType)
  }

  datatype ProductInput = ProductInput(
    title: string,
    description: string,
    price: int,
    images: seq<string>,
    stock: Option<int>,
    productType: string,
    category: Option<CategoryId>,
    grade: string,
    attributes: seq<Attribute>)

  /** `!title || !price || !category || !grade || !productType || !images?.length`;
      a price of 0 counts as missing. */
  predicate MissingRequired(inp: ProductInput) {
    inp.title == "" || inp.price == 0 || inp.category.None? || inp.grade == "" || inp.productType == ""
    || |inp.images| == 0
  }

  /** The schema trims the key and the value of every attribute: each
      stored key and value is the sent one without its surrounding
      whitespace, which by `TrimmedFromUnique` fixes it. */
  function TrimAttributes(a: seq<Attribute>): (r: seq<Attribute>)
    ensures |r| == |a|
    ensures forall i :: 0 <= i < |a| ==> TrimmedFrom(a[i].key, r[i].key) && TrimmedFrom(a[i].value, r[i].value)
  {
    seq(|a|, i requires 0 <= i < |a| => Attribute(Trim(a[i].key), Trim(a[i].value)))
  }

  /** Saving a document again leaves its attributes as they are. */
  lemma TrimAttributesIdempotent(a: seq<Attribute>)
    ensures TrimAttributes(TrimAttributes(a)) == TrimAttributes(a)
  {
    var once := TrimAttributes(a);
    forall i | 0 <= i < |a|
      ensures TrimAttributes(once)[i] == once[i]
    {
      TrimIdempotent(a[i].key);
      TrimIdempotent(a[i].value);
    }
  }

  /** The product slug, `slugify(`${title}-${grade}`)`. */
  function SlugOf(slugify: string -> string, title: string, grade: string): string {
    slugify(title + "-" + grade)
  }

  datatype AddProductOutcome = Built(product: Product) | MissingFields | InvalidDocument {
    function Status(): int {
      match this
      case Built(_) => 201
      case MissingFields => 400
      case InvalidDocument => 500
    }
  }

  /** `addProduct` up to the insert: the required-field check, then the
      document `Product.create` validates, with the schema's trimming and
      defaults applied. The slug is derived from the title and grade as
      sent, before trimming. */
  function AddProduct(inp: ProductInput, slugify: string -> string, createdAt: int): (r: AddProductOutcome)
    ensures r == MissingFields <==> MissingRequired(inp)
    ensures r.Built? ==>
      && r.product.slug == SlugOf(slugify, inp.title, inp.grade)
      && r.product.title == Trim(inp.title) && r.product.grade == Trim(inp.grade)
      && r.product.price == inp.price && r.product.images == inp.images
      && r.product.description == Trim(inp.description) && r.product.productType == inp.productType
      && r.product.attributes == TrimAttributes(inp.attributes)
      && r.product.stock == inp.stock.GetOr(0) && r.product.category == inp.category.value
      && r.product.soldCount == 0 && r.product.isActive
      && DocumentValid(r.product)
    ensures !MissingRequired(inp) ==>
      (r.Built? <==> !IsBlank(inp.title) && !IsBlank(inp.grade) && SlugOf(slugify, inp.title, inp.grade) != ""
                     && IsProductType(inp.productType))
  {
    if MissingRequired(inp) then MissingFields
    else
      var p := Product(Trim(inp.title), SlugOf(slugify, inp.title, inp.grade), Trim(inp.description), inp.price,
                       inp.images, inp.stock.GetOr(0), inp.productType, inp.category.value, Trim(inp.grade),
                       TrimAttributes(inp.attributes), 0, true, createdAt);
      if DocumentValid(p) then Built(p) else InvalidDocument
  }

  /** The orders `getAllProducts` can ask for. */
  datatype SortKey = PriceAsc | PriceDesc | Popular | Latest

  function SortName(k: SortKey): string {
    match k
    case PriceAsc => "price-asc"
    case PriceDesc => "price-desc"
    case Popular => "popular"
    case Latest => "latest"
  }

  /** The `switch (sort)`: three names select their order and anything else
      is newest first. */
  function SortFor(sort: string): (k: SortKey)
    ensures k != Latest ==> SortName(k) == sort
    ensures k == Latest <==> sort != "price-asc" && sort != "price-desc" && sort != "popular"
  {
    if sort == "price-asc" then PriceAsc
    else if sort == "price-desc" then PriceDesc
    else if sort == "popular" then Popular
    else Latest
  }

  /** Every order is selected by its own name. */
  lemma SortNameRoundTrip(k: SortKey)
    ensures SortFor(SortName(k)) == k
  {
  }

  /** The query string; an absent parameter is None. */
  datatype ProductQuery = ProductQuery(
    page: Option<int>,
    limit: Option<int>,
    search: string,
    sort: Option<string>,
    productType: Option<string>,
    category: Option<string>)

  /** The `query` object: `isActive: true` always, the text search when
      `search` is non-empty, the type unless it is "all", the category id
      unless it is "all". */
  datatype ProductFilter = ProductFilter(search: string, productType: Option<string>, category: Option<CategoryId>)

  /** Whether a product satisfies the query; `hit(text)` says whether the
      case-insensitive search pattern matches `text`. */
  predicate Matches(f: ProductFilter, hit: string -> bool, p: Product) {
    && p.isActive
    && (f.search == "" || hit(p.title) || hit(p.grade))
    && (f.productType.Some? ==> p.productType == f.productType.value)
    && (f.category.Some? ==> p.category == f.category.value)
  }

  datatype ListPlan = ListPlan(filter: ProductFilter, order: SortKey, skip: int, limit: int)

  /** ListFailed is the catch block's 500: the database refuses a negative
      skip. */
  datatype ListOutcome = Planned(plan: ListPlan) | CategoryNotFound | ListFailed {
    function Status(): int {
      match this
      case Planned(_) => 200
      case CategoryNotFound => 404
      case ListFailed => 500
    }
  }

  /** `getAllProducts` up to the query: defaults page 1, limit 6, sort
      "latest", type and category "all"; a category slug with no active
      category answers 404, and otherwise an offset below zero makes the
      query fail. */
  function PlanProductList(q: ProductQuery, categories: seq<Entry>): (r: ListOutcome)
    ensures r == CategoryNotFound <==>
      q.category.GetOr("all") != "all" && FindActiveBySlug(categories, q.category.value).None?
    ensures r == ListFailed <==> r != CategoryNotFound && (q.page.GetOr(1) - 1) * q.limit.GetOr(6) < 0
    ensures r.Planned? ==>
      && r.plan.skip == (q.page.GetOr(1) - 1) * q.limit.GetOr(6) >= 0
      && r.plan.limit == q.limit.GetOr(6)
      && r.plan.order == SortFor(q.sort.GetOr("latest"))
      && r.plan.filter.search == q.search
      && (r.plan.filter.productType.None? <==> q.productType.GetOr("all") == "all")
      && (r.plan.filter.productType.Some? ==> r.plan.filter.productType.value == q.productType.value)
      && (r.plan.filter.category.None? <==> q.category.GetOr("all") == "all")
    ensures r.Planned? && r.plan.filter.category.Some? ==>
      exists i :: 0 <= i < |categories| && categories[i].slug == q.category.value && categories[i].isActive
                  && categories[i].id == r.plan.filter.category.value
  {
    var page, limit := q.page.GetOr(1), q.limit.GetOr(6);
    var typeFilter := if q.productType.GetOr("all") == "all" then None else q.productType;
    var slug := q.category.GetOr("all");
    var order := SortFor(q.sort.GetOr("latest"));
    if slug == "all" then
      if Skip(page, limit) < 0 then ListFailed
      else Planned(ListPlan(ProductFilter(q.search, typeFilter, None), order, Skip(page, limit), limit))
    else match FindActiveBySlug(categories, slug)
      case None => CategoryNotFound
      case Some(id) =>
        if Skip(page, limit) < 0 then ListFailed
        else Planned(ListPlan(ProductFilter(q.search, typeFilter, Some(id)), order, Skip(page, limit), limit))
  }

  /** With no search, type or category, the listing offers every active
      product and only those, unless a page below 1 fails the query; the
      first page starts at offset 0. */
  lemma DefaultListingIsActiveCatalog(q: ProductQuery, categories: seq<Entry>, hit: string -> bool, p: Product)
    requires q.search == "" && q.productType.GetOr("all") == "all" && q.category.GetOr("all") == "all"
    ensures q.limit.GetOr(6) >= 1 ==> (PlanProductList(q, categories).Planned? <==> q.page.GetOr(1) >= 1)
    ensures PlanProductList(q, categories).Planned? ==>
      (Matches(PlanProductList(q, categories).plan.filter, hit, p) <==> p.isActive)
    ensures q.page.GetOr(1) == 1 ==> PlanProductList(q, categories).Planned? && PlanProductList(q, categories).plan.skip == 0
  {
  }

  /** A type filter is applied exactly when the type is not "all", and a
      product passing it has that type. */
  lemma TypeFilterSelectsType(q: ProductQuery, categories: seq<Entry>, hit: string -> bool, p: Product)
    requires PlanProductList(q, categories).Planned?
    requires q.productType.Some? && q.productType.value != "all"
    ensures Matches(PlanProductList(q, categories).plan.filter, hit, p) ==>
      p.isActive && p.productType == q.productType.value
  {
  }

  /** The body of `updateProduct`; every field is sent. */
  datatype ProductUpdate = ProductUpdate(
    title: string,
    description: string,
    price: int,
    images: seq<string>,
    stock: int,
    productType: string,
    category: CategoryId,
    grade: string,
    attributes: seq<Attribute>)

  /** The slug is kept unless the title or the grade sent differs from the
      stored one, in which case it is derived afresh. */
  function UpdatedSlug(p: Product, u: ProductUpdate, slugify: string -> string): (r: string)
    ensures u.title == p.title && u.grade == p.grade ==> r == p.slug
    ensures u.title != p.title || u.grade != p.grade ==> r == SlugOf(slugify, u.title, u.grade)
  {
    if u.title != p.title || u.grade != p.grade then SlugOf(slugify, u.title, u.grade) else p.slug
  }

  /** The document after the ten assignments; the schema trims title,
      description, grade and the attributes. The sold count, the active
      flag and the creation time are kept. */
  function ApplyUpdate(p: Product, u: ProductUpdate, slugify: string -> string): (r: Product)
    ensures r.slug == UpdatedSlug(p, u, slugify)
    ensures r.title == Trim(u.title) && r.grade == Trim(u.grade) && r.description == Trim(u.description)
    ensures r.price == u.price && r.images == u.images && r.stock == u.stock
    ensures r.productType == u.productType && r.category == u.category
    ensures r.attributes == TrimAttributes(u.attributes)
    ensures r.soldCount == p.soldCount && r.isActive == p.isActive && r.createdAt == p.createdAt
  {
    Product(Trim(u.title), UpdatedSlug(p, u, slugify), Trim(u.description), u.price, u.images, u.stock,
            u.productType, u.category, Trim(u.grade), TrimAttributes(u.attributes), p.soldCount, p.isActive, p.createdAt)
  }

  /** A stored document has its title and grade trimmed. */
  predicate Trimmed(p: Product) {
    p.title == Trim(p.title) && p.grade == Trim(p.grade)
  }

  /** The slug a repeated update computes is the one the first update stored. */
  lemma {:induction false} UpdatedSlugStable(p: Product, u: ProductUpdate, slugify: string -> string)
    requires Trimmed(p)
    ensures UpdatedSlug(ApplyUpdate(p, u, slugify), u, slugify) == UpdatedSlug(p, u, slugify)
  {
    var once := ApplyUpdate(p, u, slugify);
    assert once.title == Trim(u.title) && once.grade == Trim(u.grade) && once.slug == UpdatedSlug(p, u, slugify);
    if u.title == p.title && u.grade == p.grade {
      assert once.title == u.title && once.grade == u.grade;
    }
  }

  /** Sending the same update twice to a stored document leaves the same
      document as sending it once. */
  lemma {:induction false} UpdateTwiceIsOnce(p: Product, u: ProductUpdate, slugify: string -> string)
    requires Trimmed(p)
    ensures Trimmed(ApplyUpdate(p, u, slugify))
    ensures ApplyUpdate(ApplyUpdate(p, u, slugify), u, slugify) == ApplyUpdate(p, u, slugify)
  {
    TrimIdempotent(u.title);
    TrimIdempotent(u.grade);
    TrimIdempotent(u.description);
    UpdatedSlugStable(p, u, slugify);
  }

  datatype UpdateOutcome = ProductUpdated | ProductNotFound | UpdateFailed {
    function Status(): int {
      match this
      case ProductUpdated => 201
      case ProductNotFound => 404
      case UpdateFailed => 500
    }
  }

  method UpdateProduct(db: Db, id: ProductId, u: ProductUpdate, slugify: string -> string) returns (r: UpdateOutcome)
    requires db.Valid()
    modifies db
    ensures db.Valid() && db.orders == old(db.orders) && db.nextKey == old(db.nextKey)
    ensures r == ProductNotFound <==> id !in old(db.products)
    ensures r == UpdateFailed <==>
      id in old(db.products) && !DocumentValid(ApplyUpdate(old(db.products)[id], u, slugify))
    ensures r == ProductUpdated ==>
      db.products == old(db.products)[id := ApplyUpdate(old(db.products)[id], u, slugify)]
    ensures r != ProductUpdated ==> db.products == old(db.products)
  {
    if id !in db.products {
      return ProductNotFound;
    }
    var product := db.products[id];
    var slug := UpdatedSlug(product, u, slugify);
    var updated := product.(title := Trim(u.title), slug := slug, description := Trim(u.description),
                            price := u.price, images := u.images, stock := u.stock, productType := u.productType,
                            category := u.category, grade := Trim(u.grade), attributes := TrimAttributes(u.attributes));
    if !DocumentValid(updated) {
      return UpdateFailed;
    }
    db.SaveProduct(id, updated);
    return ProductUpdated;
  }

  /** What `getRelatedProducts` searches among: active products other than
      the current one that share its category or its type. */
  ghost function RelatedIds(ps: Products, current: ProductId): (r: set<ProductId>)
    requires current in ps
    ensures r <= ps.Keys && current !in r
    ensures forall id :: id in r <==>
      id in ps && id != current && ps[id].isActive
      && (ps[id].category == ps[current].category || ps[id].productType == ps[current].productType)
  {
    set id | id in ps && id != current && ps[id].isActive
      && (ps[id].category == ps[current].category || ps[id].productType == ps[current].productType)
  }

  ghost predicate Newest(ps: Products, ids: set<ProductId>, x: ProductId)
    requires ids <= ps.Keys
  {
    x in ids && forall y :: y in ids ==> ps[y].createdAt <= ps[x].createdAt
  }

  /** A non-empty set of products has a newest one. */
  lemma {:induction false} NewestExists(ps: Products, ids: set<ProductId>)
    requires ids <= ps.Keys && ids != {}
    ensures exists x :: Newest(ps, ids, x)
    decreases |ids|
  {
    var y :| y in ids;
    if ids == {y} {
      assert Newest(ps, ids, y);
    } else {
      NewestExists(ps, ids - {y});
      var z :| Newest(ps, ids - {y}, z);
      if ps[y].createdAt > ps[z].createdAt {
        assert Newest(ps, ids, y);
      } else {
        assert Newest(ps, ids, z);
      }
    }
  }

  /** `.sort({ createdAt: -1 }).limit(n)`: up to `n` distinct products of
      `ids`, newest first, and none left out is newer than one taken. Ties
      are broken arbitrarily, as the database may. */
  ghost function NewestFirst(ps: Products, ids: set<ProductId>, n: nat): (r: seq<ProductId>)
    requires ids <= ps.Keys
    ensures |r| == if n < |ids| then n else |ids|
    ensures forall i :: 0 <= i < |r| ==> r[i] in ids
    ensures forall i, j :: 0 <= i < j < |r| ==> r[i] != r[j]
    ensures forall i, j :: 0 <= i < j < |r| ==> ps[r[j]].createdAt <= ps[r[i]].createdAt
    ensures forall y, i :: y in ids && y !in r && 0 <= i < |r| ==> ps[y].createdAt <= ps[r[i]].createdAt
    decreases n
  {
    if n == 0 || ids == {} then []
    else
      NewestExists(ps, ids);
      var x :| Newest(ps, ids, x);
      var rest := NewestFirst(ps, ids - {x}, n - 1);
      [x] + rest
  }

  /** `getRelatedProducts`: None (404) when the product does not exist,
      otherwise the three newest related products at most. */
  ghost function RelatedProducts(ps: Products, current: ProductId): (r: Option<seq<ProductId>>)
    ensures r.None? <==> current !in ps
    ensures r.Some? ==> |r.value| <= 3
    ensures r.Some? ==> forall i :: 0 <= i < |r.value| ==>
      && r.value[i] in ps && r.value[i] != current && ps[r.value[i]].isActive
      && (ps[r.value[i]].category == ps[current].category || ps[r.value[i]].productType == ps[current].productType)
    ensures r.Some? && |r.value| < 3 ==> forall id :: id in RelatedIds(ps, current) ==> id in r.value
  {
    if current !in ps then None else Some(NewestFirst(ps, RelatedIds(ps, current), 3))
  }
}
