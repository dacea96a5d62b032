/**
 * backend/src/controllers/productController.js: the paginated, filtered
 * product listing, the search that merges text matches with category matches,
 * and the not-found guards of the single-product operations.
 *
 * The listing and the search read the product table as `catalogue`, a
 * sequence already in the order the database returns it (`ORDER BY` is the
 * database's).  SQL `LIKE` is the parameter `like`, since its collation and
 * wildcard handling belong to the database.
 */
module ProductController {
  import opened Wrappers
  import opened JsValues
  import opened Db

  datatype ProductError =
    | NotFound         // 404
    | QueryRequired    // 400
    | ServerError      // an exception caught by the handler (status 500)

  datatype Category = Category(id: CategoryId, name: string)

  /** A product row with its primary key. */
  datatype Row = Row(id: ProductId, product: Product)

  const DefaultPage: int := 1
  const DefaultLimit: int := 10

  /** The query string of the listing; `None` is a parameter left out. */
  datatype ListQuery = ListQuery(page: Option<int>, limit: Option<int>, category: Option<string>, search: Option<string>)

  /** The body of a listing response.  `totalPages` is `None` where the
      division by a zero limit gives Infinity or NaN, which JSON writes as null. */
  datatype Listing = Listing(count: nat, totalPages: Option<int>, currentPage: int, data: seq<Row>)

  function Min(a: int, b: int): int {
    if a <= b then a else b
  }

  /** `Math.ceil(count / limit)`. */
  function TotalPages(count: nat, limit: int): (r: Option<int>)
    ensures r.None? <==> limit == 0
    ensures r.Some? ==> (r.value - 1) as real < count as real / limit as real <= r.value as real
  {
    if limit == 0 then None
    else
      var q := count as real / limit as real;
      Some(-((-q).Floor))
  }

  lemma MulLess(a: real, b: real, c: real)
    requires a < b && c > 0.0
    ensures a * c < b * c
  {
  }

  lemma MulAtMost(a: real, b: real, c: real)
    requires a <= b && c > 0.0
    ensures a * c <= b * c
  {
  }

  lemma CastMul(a: int, b: int)
    ensures (a * b) as real == a as real * b as real
  {
  }

  lemma MulMono(a: int, b: int, c: nat)
    requires a <= b
    ensures a * c <= b * c
  {
  }

  /** A whole number within one of `count / limit` from above brackets `count`
      between multiples of `limit`. */
  lemma CeilBrackets(count: nat, limit: int, n: int)
    requires limit > 0
    requires (n - 1) as real < count as real / limit as real <= n as real
    ensures (n - 1) * limit < count <= n * limit
  {
    var l := limit as real;
    var q := count as real / l;
    DivMul(count as real, l);
    MulLess((n - 1) as real, q, l);
    MulAtMost(q, n as real, l);
    CastMul(n, limit);
    CastMul(n - 1, limit);
  }

  lemma DivMul(c: real, l: real)
    requires l > 0.0
    ensures (c / l) * l == c
  {
  }

  /** With a positive limit the page count is the least number of pages of
      `limit` rows that hold every row. */
  lemma TotalPagesCover(count: nat, limit: int)
    requires limit > 0
    ensures var n := TotalPages(count, limit).value;
            && n >= 0 && n * limit >= count && (n - 1) * limit < count
            && (count == 0 <==> n == 0)
  {
    var n := TotalPages(count, limit).value;
    CeilBrackets(count, limit, n);
    if n < 0 {
      MulMono(n, -1, limit);
      assert false;
    }
    if n >= 1 {
      MulMono(0, n - 1, limit);
    }
  }

  /** `LIMIT offset, limit` on the matching rows; MySQL refuses a negative
      offset or limit. */
  function Window(rows: seq<Row>, offset: int, limit: int): (r: Option<seq<Row>>)
    ensures r.None? <==> offset < 0 || limit < 0
    ensures r.Some? ==> && |r.value| == (if offset >= |rows| then 0 else Min(limit, |rows| - offset))
                        && forall i :: 0 <= i < |r.value| ==> r.value[i] == rows[offset + i]
  {
    if offset < 0 || limit < 0 then None
    else if offset >= |rows| then Some([])
    else Some(rows[offset..offset + Min(limit, |rows| - offset)])
  }

  /** `Category.findOne({ where: { name } })`: the first category with that name. */
  function FindCategory(categories: seq<Category>, name: string): (r: Option<CategoryId>)
    ensures r.None? <==> forall i :: 0 <= i < |categories| ==> categories[i].name != name
    ensures r.Some? ==> exists i :: && 0 <= i < |categories| && categories[i].name == name
                                    && categories[i].id == r.value
                                    && forall j :: 0 <= j < i ==> categories[j].name != name
  {
    if categories == [] then None
    else if categories[0].name == name then Some(categories[0].id)
    else
      var r := FindCategory(categories[1..], name);
      if r.Some? then
        var i :| && 0 <= i < |categories[1..]| && categories[1..][i].name == name && categories[1..][i].id == r.value
                 && forall j :: 0 <= j < i ==> categories[1..][j].name != name;
        assert categories[i + 1] == categories[1..][i];
        assert forall j :: 1 <= j < i + 1 ==> categories[j] == categories[1..][j - 1];
        r
      else
        assert forall i :: 1 <= i < |categories| ==> categories[i] == categories[1..][i - 1];
        r
  }

  /** A name or description matching `%query%`. */
  predicate TextMatch(like: (string, string) -> bool, p: Product, query: string) {
    like(p.name, query) || like(p.description, query)
  }

  /** The listing's `where` clause: the category, when a category was found,
      and the text search, when one was given. */
  predicate Selected(like: (string, string) -> bool, categoryId: Option<CategoryId>, search: Option<string>, row: Row) {
    && (categoryId.Some? ==> row.product.categoryId == categoryId)
    && (Supplied(search) ==> TextMatch(like, row.product, search.value))
  }

  /** The rows the `where` clause selects, in table order. */
  function Matching(rows: seq<Row>, like: (string, string) -> bool, categoryId: Option<CategoryId>,
                    search: Option<string>): (r: seq<Row>)
    ensures forall x :: x in r <==> x in rows && Selected(like, categoryId, search, x)
    ensures |r| <= |rows|
  {
    if rows == [] then []
    else (if Selected(like, categoryId, search, rows[0]) then [rows[0]] else [])
         + Matching(rows[1..], like, categoryId, search)
  }

  /** `page`, 1 when left out. */
  function PageOf(q: ListQuery): int {
    if q.page.Some? then q.page.value else DefaultPage
  }

  /** `limit`, 10 when left out. */
  function LimitOf(q: ListQuery): int {
    if q.limit.Some? then q.limit.value else DefaultLimit
  }

  /** `offset = (page - 1) * limit`. */
  function Offset(page: int, limit: int): int {
    (page - 1) * limit
  }

  /** The category filter: the id of the named category, when a name is given
      and a category has it. */
  function CategoryFilter(categories: seq<Category>, q: ListQuery): Option<CategoryId> {
    if Supplied(q.category) then FindCategory(categories, q.category.value) else None
  }

  /** getProducts: the defaults page 1 and limit 10, `offset = (page - 1) *
      limit`, a category filter only when the named category exists, the text
      filter only when a search term is given. */
  function GetProducts(catalogue: seq<Row>, categories: seq<Category>, q: ListQuery, like: (string, string) -> bool)
    : (r: Result<Listing, ProductError>)
  {
    var matching := Matching(catalogue, like, CategoryFilter(categories, q), q.search);
    match Window(matching, Offset(PageOf(q), LimitOf(q)), LimitOf(q))
    case None => Err(ServerError)
    case Some(rows) => Ok(Listing(|matching|, TotalPages(|matching|, LimitOf(q)), PageOf(q), rows))
  }

  /** What a listing holds: every matching row counted, the page the offset
      selects, and only rows the filters accept, in table order.  A negative
      offset or limit is refused by the database. */
  lemma {:induction false} ListingContents(catalogue: seq<Row>, categories: seq<Category>, q: ListQuery,
                                           like: (string, string) -> bool)
    ensures var offset := Offset(PageOf(q), LimitOf(q));
            var matching := Matching(catalogue, like, CategoryFilter(categories, q), q.search);
            var r := GetProducts(catalogue, categories, q, like);
            && (r.Ok? <==> offset >= 0 && LimitOf(q) >= 0)
            && (r.Ok? ==> && r.value.count == |matching| && r.value.currentPage == PageOf(q)
                          && r.value.totalPages == TotalPages(|matching|, LimitOf(q))
                          && |r.value.data| <= LimitOf(q)
                          && (forall i :: 0 <= i < |r.value.data| ==> r.value.data[i] == matching[offset + i])
                          && (forall x :: x in r.value.data ==>
                                x in catalogue && Selected(like, CategoryFilter(categories, q), q.search, x)))
  {
    var offset := Offset(PageOf(q), LimitOf(q));
    var matching := Matching(catalogue, like, CategoryFilter(categories, q), q.search);
    var r := GetProducts(catalogue, categories, q, like);
    if r.Ok? {
      var w := Window(matching, offset, LimitOf(q));
      assert r.value.data == w.value;
      forall x | x in w.value ensures x in matching {
        var i :| 0 <= i < |w.value| && w.value[i] == x;
        assert x == matching[offset + i];
      }
    }
  }

  /** A category name that names no category filters nothing: the listing is
      the one without a category parameter. */
  lemma UnknownCategoryIgnored(catalogue: seq<Row>, categories: seq<Category>, q: ListQuery, like: (string, string) -> bool)
    requires forall i :: 0 <= i < |categories| ==> Some(categories[i].name) != q.category
    ensures GetProducts(catalogue, categories, q, like) == GetProducts(catalogue, categories, q.(category := None), like)
  {
    assert CategoryFilter(categories, q) == None;
  }

  /** The first `n` pages of `limit` rows, one after another. */
  function Pages(rows: seq<Row>, limit: nat, n: nat): seq<Row>
    requires limit > 0
  {
    if n == 0 then [] else Pages(rows, limit, n - 1) + Window(rows, Offset(n, limit), limit).value
  }

  lemma {:induction false} PagesPrefix(rows: seq<Row>, limit: nat, n: nat)
    requires limit > 0
    ensures Pages(rows, limit, n) == rows[..Min(n * limit, |rows|)]
  {
    if n > 0 {
      PagesPrefix(rows, limit, n - 1);
      var lo := Min((n - 1) * limit, |rows|);
      var hi := Min(n * limit, |rows|);
      var w := Window(rows, Offset(n, limit), limit).value;
      assert |w| == hi - lo;
      assert w == rows[lo..hi];
      assert rows[..lo] + rows[lo..hi] == rows[..hi];
    }
  }

  /** Paging through 1..totalPages with a positive limit visits every matching
      row exactly once, in order, and every one of those pages is non-empty. */
  lemma {:induction false} PagingCoversAll(rows: seq<Row>, limit: nat)
    requires limit > 0
    ensures var n := TotalPages(|rows|, limit).value;
            && n >= 0 && Pages(rows, limit, n) == rows
            && forall p :: 1 <= p <= n ==> Window(rows, Offset(p, limit), limit).Some? && Window(rows, Offset(p, limit), limit).value != []
  {
    var n := TotalPages(|rows|, limit).value;
    TotalPagesCover(|rows|, limit);
    PagesPrefix(rows, limit, n);
    assert rows[..|rows|] == rows;
    forall p | 1 <= p <= n
      ensures Window(rows, Offset(p, limit), limit).Some? && Window(rows, Offset(p, limit), limit).value != []
    {
      PageNonEmpty(rows, limit, n, p);
    }
  }

  lemma PageNonEmpty(rows: seq<Row>, limit: nat, n: int, p: int)
    requires limit > 0 && 1 <= p <= n && (n - 1) * limit < |rows|
    ensures Window(rows, Offset(p, limit), limit).Some? && Window(rows, Offset(p, limit), limit).value != []
  {
    MulMono(p - 1, n - 1, limit);
    var o := Offset(p, limit);
    assert 0 <= o < |rows|;
  }

  /** A row whose id is already in `rows`. */
  predicate HasId(rows: seq<Row>, id: ProductId) {
    exists i :: 0 <= i < |rows| && rows[i].id == id
  }

  predicate UniqueIds(rows: seq<Row>) {
    forall i, j :: 0 <= i < j < |rows| ==> rows[i].id != rows[j].id
  }

  /** The merge as a function: each later row is appended unless a row with its
      id is already there. */
  function Merged(acc: seq<Row>, later: seq<Row>): seq<Row>
    decreases |later|
  {
    if later == [] then acc
    else Merged(if HasId(acc, later[0].id) then acc else acc + [later[0]], later[1..])
  }

  /** Appending a row adds exactly its id, keeps every earlier position, and
      keeps ids unique when the id is new. */
  lemma {:induction false} AppendRow(all: seq<Row>, p: Row)
    ensures forall id :: HasId(all + [p], id) <==> HasId(all, id) || id == p.id
    ensures forall k :: 0 <= k < |all| ==> (all + [p])[k] == all[k]
    ensures UniqueIds(all) && !HasId(all, p.id) ==> UniqueIds(all + [p])
  {
    var a := all + [p];
    assert a[|all|] == p;
    forall id | HasId(a, id) ensures HasId(all, id) || id == p.id {
      var k :| 0 <= k < |a| && a[k].id == id;
      if k < |all| {
        assert a[k] == all[k];
      }
    }
    forall id | HasId(all, id) ensures HasId(a, id) {
      var k :| 0 <= k < |all| && all[k].id == id;
      assert a[k] == all[k];
    }
  }

  /** The loop of searchProducts that copies the text matches and pushes each
      category match whose id is not yet in the list. */
  method MergeUnique(first: seq<Row>, second: seq<Row>) returns (all: seq<Row>)
    ensures all == Merged(first, second)
    ensures |all| >= |first| && all[..|first|] == first
    ensures forall k :: |first| <= k < |all| ==> all[k] in second && !HasId(first, all[k].id)
    ensures forall x :: x in first || x in second ==> HasId(all, x.id)
    ensures UniqueIds(first) ==> UniqueIds(all)
  {
    all := first;
    var i := 0;
    while i < |second|
      invariant 0 <= i <= |second|
      invariant Merged(all, second[i..]) == Merged(first, second)
      invariant |all| >= |first| && all[..|first|] == first
      invariant forall k :: |first| <= k < |all| ==> all[k] in second && !HasId(first, all[k].id)
      invariant forall j :: 0 <= j < |first| ==> HasId(all, first[j].id)
      invariant forall j :: 0 <= j < i ==> HasId(all, second[j].id)
      invariant UniqueIds(first) ==> UniqueIds(all)
    {
      var p := second[i];
      assert second[i..][1..] == second[i + 1..];
      if !HasId(all, p.id) {
        AppendRow(all, p);
        assert (all + [p])[..|first|] == all[..|first|];
        all := all + [p];
      }
      i := i + 1;
    }
    assert second[|second|..] == [];
    forall x | x in first || x in second ensures HasId(all, x.id) {
      if x in first {
        var j :| 0 <= j < |first| && first[j] == x;
      } else {
        var j :| 0 <= j < |second| && second[j] == x;
      }
    }
  }

  /** searchProducts: a missing or empty query is refused; otherwise the name
      and description matches, then the products of every category whose name
      matches (no second query when there is none), merged without repeating
      an id. */
  method SearchProducts(catalogue: seq<Row>, categories: seq<Category>, query: Option<string>,
                        like: (string, string) -> bool) returns (r: Result<seq<Row>, ProductError>)
    ensures r.Err? <==> !Supplied(query)
    ensures r.Err? ==> r.error == QueryRequired
    ensures r.Ok? ==> r.value == Merged(ByText(catalogue, like, query.value),
                                        ByCategory(catalogue, like, categories, query.value))
    ensures r.Ok? ==> forall x :: x in r.value ==> x in catalogue && Found(like, categories, query.value, x)
    ensures r.Ok? && UniqueIds(catalogue) ==>
              && UniqueIds(r.value)
              && forall x :: x in catalogue && Found(like, categories, query.value, x) ==> x in r.value
  {
    if !Supplied(query) {
      return Err(QueryRequired);
    }
    var byText := ByText(catalogue, like, query.value);
    var byCategory := ByCategory(catalogue, like, categories, query.value);
    var all := MergeUnique(byText, byCategory);
    if UniqueIds(catalogue) {
      ByTextUnique(catalogue, like, query.value);
    }
    SearchMembers(catalogue, like, categories, query.value, all);
    r := Ok(all);
  }

  /** The ids of the categories whose name matches. */
  function MatchingCategoryIds(like: (string, string) -> bool, categories: seq<Category>, query: string): (r: set<CategoryId>)
    ensures forall c :: c in r <==> exists i :: 0 <= i < |categories| && categories[i].id == c && like(categories[i].name, query)
  {
    set i | 0 <= i < |categories| && like(categories[i].name, query) :: categories[i].id
  }

  /** A product the search reports: a text match, or a product of a matching category. */
  predicate Found(like: (string, string) -> bool, categories: seq<Category>, query: string, x: Row) {
    || TextMatch(like, x.product, query)
    || (x.product.categoryId.Some? && x.product.categoryId.value in MatchingCategoryIds(like, categories, query))
  }

  /** The name or description matches, in table order. */
  function ByText(catalogue: seq<Row>, like: (string, string) -> bool, query: string): (r: seq<Row>)
    requires query != ""
    ensures forall x :: x in r <==> x in catalogue && TextMatch(like, x.product, query)
  {
    Matching(catalogue, like, None, Some(query))
  }

  /** The products of the matching categories, in table order; no rows when no
      category matches. */
  function ByCategory(catalogue: seq<Row>, like: (string, string) -> bool, categories: seq<Category>, query: string)
    : (r: seq<Row>)
    ensures forall x :: x in r <==>
              x in catalogue && x.product.categoryId.Some? &&
              x.product.categoryId.value in MatchingCategoryIds(like, categories, query)
  {
    var ids := MatchingCategoryIds(like, categories, query);
    if ids == {} then [] else InCategories(catalogue, ids)
  }

  function InCategories(rows: seq<Row>, ids: set<CategoryId>): (r: seq<Row>)
    ensures forall x :: x in r <==> x in rows && x.product.categoryId.Some? && x.product.categoryId.value in ids
  {
    if rows == [] then []
    else (if rows[0].product.categoryId.Some? && rows[0].product.categoryId.value in ids then [rows[0]] else [])
         + InCategories(rows[1..], ids)
  }

  /** A subsequence of a table with unique ids has unique ids. */
  lemma {:induction false} MatchingUnique(rows: seq<Row>, like: (string, string) -> bool, categoryId: Option<CategoryId>,
                                          search: Option<string>)
    requires UniqueIds(rows)
    ensures UniqueIds(Matching(rows, like, categoryId, search))
  {
    if rows != [] {
      var tail := rows[1..];
      assert UniqueIds(tail) by {
        forall i, j | 0 <= i < j < |tail| ensures tail[i].id != tail[j].id {
          assert tail[i] == rows[i + 1] && tail[j] == rows[j + 1];
        }
      }
      MatchingUnique(tail, like, categoryId, search);
      var rest := Matching(tail, like, categoryId, search);
      if Selected(like, categoryId, search, rows[0]) {
        var r := [rows[0]] + rest;
        forall i, j | 0 <= i < j < |r| ensures r[i].id != r[j].id {
          assert r[j] == rest[j - 1];
          if i == 0 {
            assert rest[j - 1] in tail;
            var k :| 0 <= k < |tail| && tail[k] == rest[j - 1];
            assert tail[k] == rows[k + 1];
          } else {
            assert r[i] == rest[i - 1];
          }
        }
      }
    }
  }

  lemma ByTextUnique(catalogue: seq<Row>, like: (string, string) -> bool, query: string)
    requires query != "" && UniqueIds(catalogue)
    ensures UniqueIds(ByText(catalogue, like, query))
  {
    MatchingUnique(catalogue, like, None, Some(query));
  }

  /** The merged list holds exactly the found products of a table with unique
      ids.  (Without unique ids a category match could share its id with a
      different text match and be dropped.) */
  lemma {:induction false} SearchMembers(catalogue: seq<Row>, like: (string, string) -> bool, categories: seq<Category>,
                                         query: string, all: seq<Row>)
    requires query != ""
    requires all == Merged(ByText(catalogue, like, query), ByCategory(catalogue, like, categories, query))
    requires |all| >= |ByText(catalogue, like, query)|
    requires all[..|ByText(catalogue, like, query)|] == ByText(catalogue, like, query)
    requires forall k :: |ByText(catalogue, like, query)| <= k < |all| ==> all[k] in ByCategory(catalogue, like, categories, query)
    requires forall x :: x in ByText(catalogue, like, query) || x in ByCategory(catalogue, like, categories, query) ==>
               HasId(all, x.id)
    ensures forall x :: x in all ==> x in catalogue && Found(like, categories, query, x)
    ensures UniqueIds(catalogue) ==> forall x :: x in catalogue && Found(like, categories, query, x) ==> x in all
  {
    var first := ByText(catalogue, like, query);
    forall x | x in all ensures x in catalogue && Found(like, categories, query, x) {
      var k :| 0 <= k < |all| && all[k] == x;
      if k < |first| {
        assert all[..|first|][k] == x;
      }
    }
    if UniqueIds(catalogue) {
      forall x | x in catalogue && Found(like, categories, query, x) ensures x in all {
        var k :| 0 <= k < |all| && all[k].id == x.id;
        assert all[k] in catalogue by {
          if k < |first| {
            assert all[..|first|][k] == all[k];
          }
        }
        var a :| 0 <= a < |catalogue| && catalogue[a] == all[k];
        var b :| 0 <= b < |catalogue| && catalogue[b] == x;
        assert a == b;
      }
    }
  }

  /** getProductById: not found exactly when there is no such row. */
  function GetProductById(products: map<ProductId, Product>, id: ProductId): (r: Result<Product, ProductError>)
    ensures r.Err? <==> id !in products
    ensures r.Err? ==> r.error == NotFound
    ensures r.Ok? ==> r.value == products[id]
  {
    if id !in products then Err(NotFound) else Ok(products[id])
  }

  /** The fields of an update body; `None` is a field left out, and `categoryId`
      may be set to null. */
  datatype ProductPatch = ProductPatch(name: Option<string>, description: Option<string>, price: Option<real>,
                                       stock: Option<int>, categoryId: Option<Option<CategoryId>>)

  /** `product.update(body)`: the fields given replace the stored ones. */
  function Patched(p: Product, patch: ProductPatch): (r: Product)
    ensures r.name == (if patch.name.Some? then patch.name.value else p.name)
    ensures r.description == (if patch.description.Some? then patch.description.value else p.description)
    ensures r.price == (if patch.price.Some? then patch.price.value else p.price)
    ensures r.stock == (if patch.stock.Some? then patch.stock.value else p.stock)
    ensures r.categoryId == (if patch.categoryId.Some? then patch.categoryId.value else p.categoryId)
  {
    Product(match patch.name case Some(v) => v case None => p.name,
            match patch.description case Some(v) => v case None => p.description,
            match patch.price case Some(v) => v case None => p.price,
            match patch.stock case Some(v) => v case None => p.stock,
            match patch.categoryId case Some(v) => v case None => p.categoryId)
  }

  /** An empty body changes nothing, and applying the same body twice is
      applying it once. */
  lemma PatchLaws(p: Product, patch: ProductPatch)
    ensures Patched(p, ProductPatch(None, None, None, None, None)) == p
    ensures Patched(Patched(p, patch), patch) == Patched(p, patch)
  {
  }

  /** updateProduct: a missing id is not found and changes nothing; otherwise
      only that row changes. */
  method UpdateProduct(db: Database, id: ProductId, patch: ProductPatch) returns (r: Result<Product, ProductError>)
    requires db.Valid()
    modifies db`products
    ensures db.Valid()
    ensures r.Err? <==> id !in old(db.products)
    ensures r.Err? ==> r.error == NotFound && db.products == old(db.products)
    ensures r.Ok? ==> && r.value == Patched(old(db.products)[id], patch)
                      && db.products == old(db.products)[id := r.value]
  {
    var found := GetProductById(db.products, id);
    if found.Err? {
      return Err(found.error);
    }
    var updated := Patched(found.value, patch);
    db.products := db.products[id := updated];
    r := Ok(updated);
  }

  /** deleteProduct: a missing id is not found and changes nothing; otherwise
      exactly that row goes. */
  method DeleteProduct(db: Database, id: ProductId) returns (r: Result<(), ProductError>)
    requires db.Valid()
    modifies db`products
    ensures db.Valid()
    ensures r.Err? <==> id !in old(db.products)
    ensures r.Err? ==> r.error == NotFound && db.products == old(db.products)
    ensures r.Ok? ==> db.products == old(db.products) - {id}
  {
    var found := GetProductById(db.products, id);
    if found.Err? {
      return Err(found.error);
    }
    db.products := db.products - {id};
    r := Ok(());
  }
}
