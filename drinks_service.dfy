/** The drinks data-access layer over an in-memory `drink` table.

    The ORM queries are declarative, so each read is given its meaning
    directly: keep the rows a `where` filter accepts, order them newest
    first, skip `(page - 1) * limit` of them, take `limit`, and project each
    row to a DTO; the total comes from a separate count with its own filter.
    The writes change the table held by `DrinksStore`. */
module DrinksService {
  import opened Wrappers
  import opened JsStrings

  /** A row of the `drink` table; timestamps are opaque increasing integers. */
  datatype Drink = Drink(
    id: string,
    name: string,
    description: Option<string>,
    category: string,
    ingredients: seq<string>,
    instructions: string,
    imageUrl: Option<string>,
    createdAt: int,
    updatedAt: int)

  /** What the service hands back for a drink; `None` is an absent property. */
  datatype DrinkDTO = DrinkDTO(
    id: string,
    name: string,
    description: Option<string>,
    category: string,
    ingredients: seq<string>,
    instructions: string,
    imageUrl: Option<string>,
    createdAt: int,
    updatedAt: int)

  datatype CreateDrinkDTO = CreateDrinkDTO(
    name: string,
    description: Option<string>,
    category: string,
    ingredients: seq<string>,
    instructions: string,
    imageUrl: Option<string>)

  /** A partial update: `None` marks a property the request left out. */
  datatype UpdateDrinkDTO = UpdateDrinkDTO(
    name: Option<string>,
    description: Option<string>,
    category: Option<string>,
    ingredients: Option<seq<string>>,
    instructions: Option<string>,
    imageUrl: Option<string>)

  /** `{ data, total, page, limit }` */
  datatype Page = Page(data: seq<DrinkDTO>, total: nat, page: int, limit: int)

  const FAILED_TO_UPDATE := "Failed to update drink"
  const FAILED_TO_UPLOAD_IMAGE := "Failed to upload drink image"
  const FAILED_TO_DELETE := "Failed to delete drink"

  // ---------------------------------------------------------------------------
  // Projection to DTOs

  /** `value || undefined` on a nullable text column: null and "" both vanish. */
  function OrUndefined(s: Option<string>): (r: Option<string>)
    ensures r.None? <==> s.None? || s.value == ""
    ensures r.Some? ==> r == s
  {
    if s.Some? && s.value != "" then s else None
  }

  /** `mapDrinkToDTO` */
  function MapDrinkToDTO(d: Drink): (r: DrinkDTO)
    ensures r.id == d.id && r.name == d.name && r.category == d.category
    ensures r.ingredients == d.ingredients && r.instructions == d.instructions
    ensures r.createdAt == d.createdAt && r.updatedAt == d.updatedAt
    ensures r.description.Some? <==> d.description.Some? && d.description.value != ""
    ensures r.imageUrl.Some? <==> d.imageUrl.Some? && d.imageUrl.value != ""
    ensures r.description.Some? ==> r.description == d.description
    ensures r.imageUrl.Some? ==> r.imageUrl == d.imageUrl
  {
    DrinkDTO(d.id, d.name, OrUndefined(d.description), d.category, d.ingredients,
             d.instructions, OrUndefined(d.imageUrl), d.createdAt, d.updatedAt)
  }

  /** A row whose optional text columns are null or non-empty. */
  predicate NoEmptyOptionals(d: Drink) {
    (d.description.Some? ==> d.description.value != "") && (d.imageUrl.Some? ==> d.imageUrl.value != "")
  }

  /** The projection loses nothing but the difference between null and "". */
  lemma MapDrinkToDTOInjective(d1: Drink, d2: Drink)
    requires NoEmptyOptionals(d1) && NoEmptyOptionals(d2)
    requires MapDrinkToDTO(d1) == MapDrinkToDTO(d2)
    ensures d1 == d2
  {
    assert d1.description == d2.description;
    assert d1.imageUrl == d2.imageUrl;
  }

  /** `drinks.map(mapDrinkToDTO)`: same length, same order. */
  function MapAll(rows: seq<Drink>): (r: seq<DrinkDTO>)
    ensures |r| == |rows|
    ensures forall i :: 0 <= i < |rows| ==> r[i] == MapDrinkToDTO(rows[i])
  {
    seq(|rows|, i requires 0 <= i < |rows| => MapDrinkToDTO(rows[i]))
  }

  // ---------------------------------------------------------------------------
  // Filters

  /** The `where` clauses the service sends. */
  datatype Where =
    | AnyDrink                          // no `where`
    | CategoryIs(category: string)      // `{ category }`
    | SearchInsensitive(query: string)  // name/description contains, mode 'insensitive', or ingredients has
    | SearchCaseSensitive(query: string)    // the same without the mode: case-sensitive

  /** `contains` on a nullable column: a null value never matches. */
  predicate ColumnContains(column: Option<string>, query: string, insensitive: bool) {
    column.Some? &&
    if insensitive then Contains(Lower(column.value), Lower(query)) else Contains(column.value, query)
  }

  predicate Matches(w: Where, d: Drink) {
    match w
    case AnyDrink => true
    case CategoryIs(c) => d.category == c
    case SearchInsensitive(q) => SearchMatch(q, d, true)
    case SearchCaseSensitive(q) => SearchMatch(q, d, false)
  }

  /** The search `OR`: name contains, description contains, an ingredient equals. */
  predicate SearchMatch(q: string, d: Drink, insensitive: bool) {
    ColumnContains(Some(d.name), q, insensitive) || ColumnContains(d.description, q, insensitive)
    || q in d.ingredients
  }

  /** The rows a `where` accepts, in table order. */
  function Filter(rows: seq<Drink>, w: Where): (r: seq<Drink>)
    ensures |r| <= |rows|
    ensures forall d :: d in r <==> d in rows && Matches(w, d)
    ensures multiset(r) <= multiset(rows)
  {
    if rows == [] then []
    else
      assert rows == [rows[0]] + rows[1..];
      (if Matches(w, rows[0]) then [rows[0]] else []) + Filter(rows[1..], w)
  }

  /** `count({ where })`, defined on its own as a tally of accepted rows. */
  function Count(rows: seq<Drink>, w: Where): nat {
    if rows == [] then 0 else (if Matches(w, rows[0]) then 1 else 0) + Count(rows[1..], w)
  }

  /** The count query counts exactly the rows the same filter would return. */
  lemma {:induction false} CountIsFilterSize(rows: seq<Drink>, w: Where)
    ensures Count(rows, w) == |Filter(rows, w)|
  {
    if rows != [] {
      CountIsFilterSize(rows[1..], w);
    }
  }

  /** A case-sensitive match is also a case-insensitive one. */
  lemma SensitiveMatchIsInsensitive(q: string, d: Drink)
    requires Matches(SearchCaseSensitive(q), d)
    ensures Matches(SearchInsensitive(q), d)
  {
    if Contains(d.name, q) {
      ContainsLower(d.name, q);
    } else if ColumnContains(d.description, q, false) {
      ContainsLower(d.description.value, q);
    }
  }

  /** The search count can never exceed the number of rows the search returns
      over all pages. */
  lemma {:induction false} SearchCountAtMost(rows: seq<Drink>, q: string)
    ensures Count(rows, SearchCaseSensitive(q)) <= Count(rows, SearchInsensitive(q))
  {
    if rows != [] {
      SearchCountAtMost(rows[1..], q);
      if Matches(SearchCaseSensitive(q), rows[0]) {
        SensitiveMatchIsInsensitive(q, rows[0]);
      }
    }
  }

  // ---------------------------------------------------------------------------
  // Ordering: `orderBy: { createdAt: 'desc' }`

  predicate NewestFirst(s: seq<Drink>) {
    forall i, j :: 0 <= i < j < |s| ==> s[i].createdAt >= s[j].createdAt
  }

  function Insert(d: Drink, s: seq<Drink>): (r: seq<Drink>)
    requires NewestFirst(s)
    ensures NewestFirst(r)
    ensures multiset(r) == multiset(s) + multiset{d}
    ensures |r| == |s| + 1
    ensures r[0] == d || (|s| > 0 && r[0] == s[0])
  {
    if s == [] || d.createdAt >= s[0].createdAt then [d] + s
    else
      assert s == [s[0]] + s[1..];
      [s[0]] + Insert(d, s[1..])
  }

  /** Insertion sort, newest first. Rows with equal `createdAt` keep their
      table order (the database leaves that order unspecified). */
  function SortNewestFirst(s: seq<Drink>): (r: seq<Drink>)
    ensures NewestFirst(r)
    ensures multiset(r) == multiset(s)
    ensures |r| == |s|
  {
    if s == [] then []
    else
      assert s == [s[0]] + s[1..];
      Insert(s[0], SortNewestFirst(s[1..]))
  }

  /** Every row a `where` accepts, in the order the query returns them. */
  function Matching(rows: seq<Drink>, w: Where): (r: seq<Drink>)
    ensures NewestFirst(r)
    ensures |r| == Count(rows, w)
    ensures forall d :: d in r <==> d in rows && Matches(w, d)
  {
    CountIsFilterSize(rows, w);
    var r := SortNewestFirst(Filter(rows, w));
    assert forall d :: d in r <==> d in Filter(rows, w) by {
      forall d ensures d in r <==> d in Filter(rows, w) {
        assert d in r <==> d in multiset(r);
      }
    }
    r
  }

  // ---------------------------------------------------------------------------
  // Pagination

  /** `skip: (page - 1) * limit` */
  function Skip(page: int, limit: int): (r: nat)
    requires page >= 1 && limit >= 1
    ensures r == (page - 1) * limit
  {
    (page - 1) * limit
  }

  function Min(a: int, b: int): int {
    if a <= b then a else b
  }

  /** `skip`, then `take`: the items from index `skip` on, at most `take` of them. */
  function Window<T>(s: seq<T>, skip: nat, take: nat): (r: seq<T>)
    ensures |r| == if skip >= |s| then 0 else Min(take, |s| - skip)
    ensures forall i :: 0 <= i < |r| ==> r[i] == s[skip + i]
  {
    s[Min(skip, |s|)..Min(skip + take, |s|)]
  }

  lemma WindowAfterPrefix<T>(s: seq<T>, start: nat, limit: nat)
    ensures s[..Min(start, |s|)] + Window(s, start, limit) == s[..Min(start + limit, |s|)]
  {
    var a, b := Min(start, |s|), Min(start + limit, |s|);
    assert Window(s, start, limit) == s[a..b];
    assert s[..a] + s[a..b] == s[..b];
  }

  /** `findMany({ where, orderBy: { createdAt: 'desc' }, skip, take })` mapped to DTOs. */
  function FindMany(rows: seq<Drink>, w: Where, page: int, limit: int): (r: seq<DrinkDTO>)
    requires page >= 1 && limit >= 1
    ensures var m := Matching(rows, w);
      && |r| == (if Skip(page, limit) >= |m| then 0 else Min(limit, |m| - Skip(page, limit)))
      && forall i :: 0 <= i < |r| ==> r[i] == MapDrinkToDTO(m[Skip(page, limit) + i])
  {
    MapAll(Window(Matching(rows, w), Skip(page, limit), limit))
  }

  /** The shared shape of the three paginated reads. */
  function Paginate(rows: seq<Drink>, dataWhere: Where, countWhere: Where, page: int, limit: int): Page
    requires page >= 1 && limit >= 1
  {
    Page(FindMany(rows, dataWhere, page, limit), Count(rows, countWhere), page, limit)
  }

  /** What a page holds: it echoes `page` and `limit`, carries the count
      query's total, and at most `limit` items. */
  lemma PageShape(rows: seq<Drink>, dataWhere: Where, countWhere: Where, page: int, limit: int)
    requires page >= 1 && limit >= 1
    ensures var p := Paginate(rows, dataWhere, countWhere, page, limit);
      && p.page == page && p.limit == limit
      && p.total == Count(rows, countWhere)
      && |p.data| <= limit
  {
  }

  /** Every item is the projection of a row of the table that `w` accepts. */
  ghost predicate FromMatchingRows(data: seq<DrinkDTO>, rows: seq<Drink>, w: Where) {
    forall i :: 0 <= i < |data| ==> exists d :: d in rows && Matches(w, d) && data[i] == MapDrinkToDTO(d)
  }

  /** Each item on a page is the projection of a row the data filter accepts. */
  lemma PageItemsMatch(rows: seq<Drink>, w: Where, page: int, limit: int)
    requires page >= 1 && limit >= 1
    ensures FromMatchingRows(FindMany(rows, w, page, limit), rows, w)
  {
    var data := FindMany(rows, w, page, limit);
    var m := Matching(rows, w);
    forall i | 0 <= i < |data|
      ensures exists d :: d in rows && Matches(w, d) && data[i] == MapDrinkToDTO(d)
    {
      var d := m[Skip(page, limit) + i];
      assert d in m;
      assert d in rows && Matches(w, d);
      assert data[i] == MapDrinkToDTO(d);
    }
  }

  /** The items on a page are newest first. */
  lemma PageNewestFirst(rows: seq<Drink>, w: Where, page: int, limit: int)
    requires page >= 1 && limit >= 1
    ensures var data := FindMany(rows, w, page, limit);
      forall i, j :: 0 <= i < j < |data| ==> data[i].createdAt >= data[j].createdAt
  {
    var m := Matching(rows, w);
    WindowNewestFirst(m, Skip(page, limit), limit);
    MapAllNewestFirst(Window(m, Skip(page, limit), limit));
  }

  lemma WindowNewestFirst(s: seq<Drink>, skip: nat, take: nat)
    requires NewestFirst(s)
    ensures NewestFirst(Window(s, skip, take))
  {
    var r := Window(s, skip, take);
    forall i, j | 0 <= i < j < |r| ensures r[i].createdAt >= r[j].createdAt {
      assert r[i] == s[skip + i] && r[j] == s[skip + j];
    }
  }

  lemma MapAllNewestFirst(s: seq<Drink>)
    requires NewestFirst(s)
    ensures forall i, j :: 0 <= i < j < |MapAll(s)| ==> MapAll(s)[i].createdAt >= MapAll(s)[j].createdAt
  {
  }

  /** `drinks.map(mapDrinkToDTO)` distributes over concatenation. */
  lemma MapAllAppend(a: seq<Drink>, b: seq<Drink>)
    ensures MapAll(a + b) == MapAll(a) + MapAll(b)
  {
    assert forall i :: 0 <= i < |a + b| ==> MapAll(a + b)[i] == (MapAll(a) + MapAll(b))[i];
  }

  /** What a client holds after fetching pages 1 to `k` of one query, in order. */
  function ServedPages(rows: seq<Drink>, w: Where, limit: int, k: nat): seq<DrinkDTO>
    requires limit >= 1
  {
    if k == 0 then [] else ServedPages(rows, w, limit, k - 1) + FindMany(rows, w, k, limit)
  }

  /** The DTOs of the first `n` ordered matches. */
  function MatchPrefix(rows: seq<Drink>, w: Where, n: int): seq<DrinkDTO> {
    var m := Matching(rows, w);
    MapAll(m[..if n <= 0 then 0 else Min(n, |m|)])
  }

  /** Paging through one state of the table visits each match once: pages 1
      to `k` laid end to end are the DTOs of the first `k * limit` ordered
      matches (with ties ordered the same way on every page). */
  lemma {:induction false} ServedPagesArePrefix(rows: seq<Drink>, w: Where, limit: int, k: nat)
    requires limit >= 1
    ensures ServedPages(rows, w, limit, k) == MatchPrefix(rows, w, k * limit)
  {
    if k == 0 {
      assert k * limit == 0;
      NoServedPages(rows, w, limit);
    } else {
      ServedPagesArePrefix(rows, w, limit, k - 1);
      NextServedPage(rows, w, limit, k);
    }
  }

  lemma NoServedPages(rows: seq<Drink>, w: Where, limit: int)
    requires limit >= 1
    ensures ServedPages(rows, w, limit, 0) == MatchPrefix(rows, w, 0)
  {
    assert |MatchPrefix(rows, w, 0)| == 0;
  }

  /** Page `k` extends the first `k - 1` pages to the first `k`. */
  lemma NextServedPage(rows: seq<Drink>, w: Where, limit: int, k: nat)
    requires limit >= 1 && k >= 1
    requires ServedPages(rows, w, limit, k - 1) == MatchPrefix(rows, w, (k - 1) * limit)
    ensures ServedPages(rows, w, limit, k) == MatchPrefix(rows, w, k * limit)
  {
    var m, start := Matching(rows, w), Skip(k, limit);
    SkipNext(k, limit);
    assert MatchPrefix(rows, w, (k - 1) * limit) == MapAll(m[..Min(start, |m|)]);
    assert MatchPrefix(rows, w, k * limit) == MapAll(m[..Min(start + limit, |m|)]);
    assert FindMany(rows, w, k, limit) == MapAll(Window(m, start, limit));
    NextPage(m, start, limit);
  }

  lemma SkipNext(k: int, limit: int)
    requires k >= 1 && limit >= 1
    ensures Skip(k, limit) + limit == k * limit && Skip(k, limit) == (k - 1) * limit
  {
  }

  /** One more page extends the DTOs of a prefix to those of the longer prefix. */
  lemma NextPage(m: seq<Drink>, start: nat, limit: nat)
    ensures MapAll(m[..Min(start, |m|)]) + MapAll(Window(m, start, limit))
      == MapAll(m[..Min(start + limit, |m|)])
  {
    WindowAfterPrefix(m, start, limit);
    MapAllAppend(m[..Min(start, |m|)], Window(m, start, limit));
  }

  /** `getAllDrinks`: every row matches, the total is the size of the table. */
  function GetAllDrinks(rows: seq<Drink>, page: int, limit: int): (r: Page)
    requires page >= 1 && limit >= 1
    ensures r.page == page && r.limit == limit
    ensures r.total == |rows|
    ensures |r.data| <= limit
    ensures r.data == FindMany(rows, AnyDrink, page, limit)
  {
    CountIsFilterSize(rows, AnyDrink);
    assert Filter(rows, AnyDrink) == rows by { FilterAnyDrink(rows); }
    PageShape(rows, AnyDrink, AnyDrink, page, limit);
    Paginate(rows, AnyDrink, AnyDrink, page, limit)
  }

  lemma {:induction false} FilterAnyDrink(rows: seq<Drink>)
    ensures Filter(rows, AnyDrink) == rows
  {
    if rows != [] {
      FilterAnyDrink(rows[1..]);
      assert rows == [rows[0]] + rows[1..];
    }
  }

  /** `getDrinksByCategory`: only rows of exactly that category, counted with
      the same filter. */
  function GetDrinksByCategory(rows: seq<Drink>, category: string, page: int, limit: int): (r: Page)
    requires page >= 1 && limit >= 1
    ensures r.page == page && r.limit == limit
    ensures r.total == Count(rows, CategoryIs(category))
    ensures |r.data| <= limit && |r.data| <= r.total
    ensures forall i :: 0 <= i < |r.data| ==> r.data[i].category == category
    ensures r.data == FindMany(rows, CategoryIs(category), page, limit)
  {
    PageShape(rows, CategoryIs(category), CategoryIs(category), page, limit);
    PageItemsMatch(rows, CategoryIs(category), page, limit);
    CountIsFilterSize(rows, CategoryIs(category));
    Paginate(rows, CategoryIs(category), CategoryIs(category), page, limit)
  }

  /** `searchDrinks`: the data query matches case-insensitively on name and
      description, but the count query matches case-sensitively, so `total`
      counts the rows `SearchCaseSensitive` accepts. */
  function SearchDrinks(rows: seq<Drink>, query: string, page: int, limit: int): (r: Page)
    requires page >= 1 && limit >= 1
    ensures r.page == page && r.limit == limit
    ensures r.total == Count(rows, SearchCaseSensitive(query))
    ensures r.total <= Count(rows, SearchInsensitive(query))
    ensures |r.data| <= limit
    ensures FromMatchingRows(r.data, rows, SearchInsensitive(query))
    ensures r.data == FindMany(rows, SearchInsensitive(query), page, limit)
  {
    PageShape(rows, SearchInsensitive(query), SearchCaseSensitive(query), page, limit);
    PageItemsMatch(rows, SearchInsensitive(query), page, limit);
    SearchCountAtMost(rows, query);
    Paginate(rows, SearchInsensitive(query), SearchCaseSensitive(query), page, limit)
  }

  /** A search matching no row answers an empty page with total 0. */
  lemma SearchNoMatch(rows: seq<Drink>, query: string, page: int, limit: int)
    requires page >= 1 && limit >= 1
    requires forall d :: d in rows ==> !Matches(SearchInsensitive(query), d)
    ensures SearchDrinks(rows, query, page, limit).data == []
    ensures SearchDrinks(rows, query, page, limit).total == 0
  {
    CountNone(rows, SearchInsensitive(query));
    SearchCountAtMost(rows, query);
  }

  lemma {:induction false} CountNone(rows: seq<Drink>, w: Where)
    requires forall d :: d in rows ==> !Matches(w, d)
    ensures Count(rows, w) == 0
  {
    if rows != [] {
      assert rows[0] in rows;
      assert forall d :: d in rows[1..] ==> d in rows;
      CountNone(rows[1..], w);
    }
  }

  /** A drink whose name contains the query, in any letter case, is among the
      search results (on the page its position falls on). */
  lemma SearchFindsName(rows: seq<Drink>, query: string, d: Drink)
    requires d in rows
    requires Contains(Lower(d.name), Lower(query))
    ensures d in Matching(rows, SearchInsensitive(query))
  {
  }

  /** The two search filters disagree: a row named "Mojito" is returned for the
      query "mojito" but is not counted in `total`. */
  lemma SearchTotalMissesCaseVariants()
    ensures var rows := [Drink("1", "Mojito", None, "Cocktail", ["Rum"], "Mix", None, 0, 0)];
      var r := SearchDrinks(rows, "mojito", 1, 10);
      |r.data| == 1 && r.total == 0
  {
    var d := Drink("1", "Mojito", None, "Cocktail", ["Rum"], "Mix", None, 0, 0);
    var rows := [d];
    assert Lower("Mojito") == "mojito";
    assert Lower("mojito") == "mojito";
    assert OccursAt(Lower(d.name), Lower("mojito"), 0);
    assert Matches(SearchInsensitive("mojito"), d);
    assert !Contains("Mojito", "mojito") by {
      assert !OccursAt("Mojito", "mojito", 0) by { assert "Mojito"[0] != "mojito"[0]; }
    }
    assert "mojito" !in d.ingredients;
    assert Count(rows, SearchCaseSensitive("mojito")) == 0 by {
      assert rows[1..] == [];
    }
    assert Count(rows, SearchInsensitive("mojito")) == 1 by {
      assert rows[1..] == [];
    }
  }

  // ---------------------------------------------------------------------------
  // Lookup by id, and the table writes

  predicate HasId(rows: seq<Drink>, id: string) {
    exists k :: 0 <= k < |rows| && rows[k].id == id
  }

  /** Ids are a unique key of the table. */
  predicate UniqueIds(rows: seq<Drink>) {
    forall i, j :: 0 <= i < j < |rows| ==> rows[i].id != rows[j].id
  }

  /** `findUnique({ where: { id } })`: the first row with that id. */
  function Lookup(rows: seq<Drink>, id: string): (r: Option<Drink>)
    ensures r.None? <==> !HasId(rows, id)
    ensures r.Some? ==> r.value in rows && r.value.id == id
  {
    if rows == [] then None
    else if rows[0].id == id then Some(rows[0])
    else
      assert forall k :: 1 <= k < |rows| ==> rows[k] == rows[1..][k - 1];
      Lookup(rows[1..], id)
  }

  /** `getDrinkById`: null exactly when no row has that id. */
  function GetDrinkById(rows: seq<Drink>, id: string): (r: Option<DrinkDTO>)
    ensures r.None? <==> !HasId(rows, id)
    ensures r.Some? ==> r.value.id == id
    ensures r.Some? ==> exists d :: d in rows && d.id == id && r.value == MapDrinkToDTO(d)
  {
    match Lookup(rows, id)
    case None => None
    case Some(d) => Some(MapDrinkToDTO(d))
  }

  /** In a table with unique ids, the row found is the one row with that id. */
  lemma {:induction false} LookupUnique(rows: seq<Drink>, k: nat)
    requires UniqueIds(rows) && k < |rows|
    ensures Lookup(rows, rows[k].id) == Some(rows[k])
  {
    if k > 0 {
      assert rows[0].id != rows[k].id;
      assert rows[1..][k - 1] == rows[k];
      assert UniqueIds(rows[1..]) by {
        forall i, j | 0 <= i < j < |rows| - 1 ensures rows[1..][i].id != rows[1..][j].id {
          assert rows[1..][i] == rows[i + 1] && rows[1..][j] == rows[j + 1];
        }
      }
      LookupUnique(rows[1..], k - 1);
    }
  }

  /** The row `create({ data })` inserts, with the id and timestamps the database assigns. */
  function NewDrink(data: CreateDrinkDTO, id: string, now: int): (d: Drink)
    ensures d.id == id && d.createdAt == now && d.updatedAt == now
    ensures d.name == data.name && d.description == data.description && d.category == data.category
    ensures d.ingredients == data.ingredients && d.instructions == data.instructions
    ensures d.imageUrl == data.imageUrl
  {
    Drink(id, data.name, data.description, data.category, data.ingredients,
          data.instructions, data.imageUrl, now, now)
  }

  /** `update({ data })` on one row: present properties are written, absent
      ones kept, `updatedAt` refreshed. */
  function ApplyUpdate(d: Drink, u: UpdateDrinkDTO, now: int): (r: Drink)
    ensures r.id == d.id && r.createdAt == d.createdAt && r.updatedAt == now
    ensures r.name == (if u.name.Some? then u.name.value else d.name)
    ensures r.description == (if u.description.Some? then u.description else d.description)
    ensures r.category == (if u.category.Some? then u.category.value else d.category)
    ensures r.ingredients == (if u.ingredients.Some? then u.ingredients.value else d.ingredients)
    ensures r.instructions == (if u.instructions.Some? then u.instructions.value else d.instructions)
    ensures r.imageUrl == (if u.imageUrl.Some? then u.imageUrl else d.imageUrl)
  {
    Drink(d.id, u.name.GetOr(d.name),
          if u.description.Some? then u.description else d.description,
          u.category.GetOr(d.category), u.ingredients.GetOr(d.ingredients),
          u.instructions.GetOr(d.instructions),
          if u.imageUrl.Some? then u.imageUrl else d.imageUrl,
          d.createdAt, now)
  }

  /** `data: { imageUrl }` */
  function ImageOnly(imageUrl: string): UpdateDrinkDTO {
    UpdateDrinkDTO(None, None, None, None, None, Some(imageUrl))
  }

  /** Setting the image touches `imageUrl` (and the update stamp) and nothing else. */
  lemma ImageOnlyChangesImage(d: Drink, imageUrl: string, now: int)
    ensures ApplyUpdate(d, ImageOnly(imageUrl), now)
      == d.(imageUrl := Some(imageUrl), updatedAt := now)
  {
  }

  /** Applying the same partial update twice is the same as applying it once. */
  lemma ApplyUpdateIdempotent(d: Drink, u: UpdateDrinkDTO, now: int)
    ensures ApplyUpdate(ApplyUpdate(d, u, now), u, now) == ApplyUpdate(d, u, now)
  {
  }

  /** The table after updating the row with that id. */
  function Updated(rows: seq<Drink>, id: string, u: UpdateDrinkDTO, now: int): (r: seq<Drink>)
    ensures |r| == |rows|
    ensures forall k :: 0 <= k < |rows| ==> r[k].id == rows[k].id
    ensures forall k :: 0 <= k < |rows| && rows[k].id != id ==> r[k] == rows[k]
    ensures forall k :: 0 <= k < |rows| && rows[k].id == id ==> r[k] == ApplyUpdate(rows[k], u, now)
  {
    seq(|rows|, k requires 0 <= k < |rows| =>
      if rows[k].id == id then ApplyUpdate(rows[k], u, now) else rows[k])
  }

  /** The table after deleting the row with that id. */
  function Deleted(rows: seq<Drink>, id: string): (r: seq<Drink>)
    ensures forall d :: d in r <==> d in rows && d.id != id
    ensures multiset(r) <= multiset(rows)
  {
    if rows == [] then []
    else
      assert rows == [rows[0]] + rows[1..];
      (if rows[0].id == id then [] else [rows[0]]) + Deleted(rows[1..], id)
  }

  lemma {:induction false} DeletedSize(rows: seq<Drink>, id: string)
    requires UniqueIds(rows) && HasId(rows, id)
    ensures |Deleted(rows, id)| == |rows| - 1
  {
    if rows[0].id == id {
      assert !HasId(rows[1..], id) by {
        forall k | 0 <= k < |rows| - 1 ensures rows[1..][k].id != id {
          assert rows[1..][k] == rows[k + 1];
        }
      }
      DeletedNoId(rows[1..], id);
    } else {
      assert HasId(rows[1..], id) by {
        var k :| 0 <= k < |rows| && rows[k].id == id;
        assert rows[1..][k - 1] == rows[k];
      }
      DeletedSize(rows[1..], id);
    }
  }

  lemma {:induction false} DeletedNoId(rows: seq<Drink>, id: string)
    requires !HasId(rows, id)
    ensures Deleted(rows, id) == rows
  {
    if rows != [] {
      assert rows[0].id != id;
      assert !HasId(rows[1..], id) by {
        forall k | 0 <= k < |rows| - 1 ensures rows[1..][k].id != id {
          assert rows[1..][k] == rows[k + 1];
        }
      }
      DeletedNoId(rows[1..], id);
      assert rows == [rows[0]] + rows[1..];
    }
  }

  /** Creating a drink under a fresh id keeps ids unique, and fetching that id
      afterwards gives back the given fields. */
  lemma CreateThenGet(rows: seq<Drink>, data: CreateDrinkDTO, id: string, now: int)
    requires UniqueIds(rows) && !HasId(rows, id)
    ensures UniqueIds(rows + [NewDrink(data, id, now)])
    ensures var got := GetDrinkById(rows + [NewDrink(data, id, now)], id);
      got.Some? && got.value.name == data.name && got.value.category == data.category
      && got.value.ingredients == data.ingredients && got.value.instructions == data.instructions
      && got.value.createdAt == now
    ensures var got := GetDrinkById(rows + [NewDrink(data, id, now)], id);
      got.Some? && got.value.description == OrUndefined(data.description)
      && got.value.imageUrl == OrUndefined(data.imageUrl)
  {
    var rows' := rows + [NewDrink(data, id, now)];
    LookupUnique(rows', |rows|);
  }

  /** After an update the row answers with the updated fields, and ids stay unique. */
  lemma UpdateThenGet(rows: seq<Drink>, id: string, u: UpdateDrinkDTO, now: int)
    requires UniqueIds(rows) && HasId(rows, id)
    ensures UniqueIds(Updated(rows, id, u, now))
    ensures Lookup(Updated(rows, id, u, now), id) == Some(ApplyUpdate(Lookup(rows, id).value, u, now))
  {
    var k :| 0 <= k < |rows| && rows[k].id == id;
    var r := Updated(rows, id, u, now);
    LookupUnique(rows, k);
    LookupUnique(r, k);
  }

  /** After a delete the id is gone and every other id answers as before. */
  lemma DeleteThenGet(rows: seq<Drink>, id: string, other: string)
    requires other != id
    ensures GetDrinkById(Deleted(rows, id), id) == None
    ensures GetDrinkById(Deleted(rows, id), other) == GetDrinkById(rows, other)
  {
    DeleteKeepsOthers(rows, id, other);
  }

  lemma {:induction false} DeleteKeepsOthers(rows: seq<Drink>, id: string, other: string)
    requires other != id
    ensures Lookup(Deleted(rows, id), other) == Lookup(rows, other)
  {
    if rows != [] {
      DeleteKeepsOthers(rows[1..], id, other);
      var rest := Deleted(rows[1..], id);
      if rows[0].id == id {
        assert Deleted(rows, id) == [] + rest == rest;
        assert Lookup(rows, other) == Lookup(rows[1..], other);
      } else {
        var r0 := [rows[0]] + rest;
        assert Deleted(rows, id) == r0;
        assert r0[0] == rows[0] && r0[1..] == rest;
        if rows[0].id != other {
          assert Lookup(r0, other) == Lookup(rest, other);
          assert Lookup(rows, other) == Lookup(rows[1..], other);
        }
      }
    }
  }

  // ---------------------------------------------------------------------------
  // The persistent table and the service's writes

  class DrinksStore {
    var rows: seq<Drink>

    ghost predicate Valid()
      reads this
    {
      UniqueIds(rows)
    }

    constructor (initial: seq<Drink>)
      requires UniqueIds(initial)
      ensures Valid() && rows == initial
    {
      rows := initial;
    }

    /** `createDrink`: insert a row under a fresh id chosen by the database. */
    method CreateDrink(data: CreateDrinkDTO, id: string, now: int) returns (r: DrinkDTO)
      requires Valid() && !HasId(rows, id)
      modifies this
      ensures Valid()
      ensures rows == old(rows) + [NewDrink(data, id, now)]
      ensures r == MapDrinkToDTO(NewDrink(data, id, now))
    {
      var d := NewDrink(data, id, now);
      CreateThenGet(rows, data, id, now);
      rows := rows + [d];
      r := MapDrinkToDTO(d);
    }

    /** `updateDrink`: the row with that id gets the present fields; a missing
        id makes the update throw, and the service throws its own error instead.
        It never answers null. */
    method UpdateDrink(id: string, data: UpdateDrinkDTO, now: int) returns (r: Outcome<DrinkDTO>)
      requires Valid()
      modifies this
      ensures Valid()
      ensures r.Returned? <==> old(HasId(rows, id))
      ensures r.Returned? ==> rows == Updated(old(rows), id, data, now)
      ensures r.Returned? ==> r.value == MapDrinkToDTO(ApplyUpdate(Lookup(old(rows), id).value, data, now))
      ensures r.Threw? ==> rows == old(rows) && r.message == FAILED_TO_UPDATE
    {
      match Lookup(rows, id)
      case None =>
        r := Threw(FAILED_TO_UPDATE);
      case Some(found) =>
        UpdateThenGet(rows, id, data, now);
        rows := Updated(rows, id, data, now);
        r := Returned(MapDrinkToDTO(ApplyUpdate(found, data, now)));
    }

    /** `uploadDrinkImage`: the same update restricted to `imageUrl`. */
    method UploadDrinkImage(id: string, imageUrl: string, now: int) returns (r: Outcome<DrinkDTO>)
      requires Valid()
      modifies this
      ensures Valid()
      ensures r.Returned? <==> old(HasId(rows, id))
      ensures r.Returned? ==> rows == Updated(old(rows), id, ImageOnly(imageUrl), now)
      ensures r.Returned? ==> forall k :: 0 <= k < |rows| && old(rows)[k].id == id ==>
        rows[k] == old(rows)[k].(imageUrl := Some(imageUrl), updatedAt := now)
      ensures r.Returned? ==> r.value.id == id && r.value.imageUrl == OrUndefined(Some(imageUrl))
      ensures r.Returned? ==>
        r.value == MapDrinkToDTO(old(Lookup(rows, id)).value.(imageUrl := Some(imageUrl), updatedAt := now))
      ensures r.Threw? ==> rows == old(rows) && r.message == FAILED_TO_UPLOAD_IMAGE
    {
      match Lookup(rows, id)
      case None =>
        r := Threw(FAILED_TO_UPLOAD_IMAGE);
      case Some(found) =>
        var d := ApplyUpdate(found, ImageOnly(imageUrl), now);
        UpdateThenGet(rows, id, ImageOnly(imageUrl), now);
        forall j | 0 <= j < |rows| && rows[j].id == id
          ensures ApplyUpdate(rows[j], ImageOnly(imageUrl), now) == rows[j].(imageUrl := Some(imageUrl), updatedAt := now)
        {
          ImageOnlyChangesImage(rows[j], imageUrl, now);
        }
        rows := Updated(rows, id, ImageOnly(imageUrl), now);
        r := Returned(MapDrinkToDTO(d));
    }

    /** `deleteDrink`: remove the row and answer true; a missing id throws. */
    method DeleteDrink(id: string) returns (r: Outcome<bool>)
      requires Valid()
      modifies this
      ensures Valid()
      ensures r.Returned? <==> old(HasId(rows, id))
      ensures r.Returned? ==> r.value && rows == Deleted(old(rows), id) && |rows| == |old(rows)| - 1
      ensures r.Threw? ==> rows == old(rows) && r.message == FAILED_TO_DELETE
    {
      if Lookup(rows, id).None? {
        r := Threw(FAILED_TO_DELETE);
      } else {
        DeletedSize(rows, id);
        DeletedUnique(rows, id);
        rows := Deleted(rows, id);
        r := Returned(true);
      }
    }
  }

  lemma {:induction false} DeletedUnique(rows: seq<Drink>, id: string)
    requires UniqueIds(rows)
    ensures UniqueIds(Deleted(rows, id))
  {
    if rows != [] {
      assert UniqueIds(rows[1..]) by {
        forall i, j | 0 <= i < j < |rows| - 1 ensures rows[1..][i].id != rows[1..][j].id {
          assert rows[1..][i] == rows[i + 1] && rows[1..][j] == rows[j + 1];
        }
      }
      DeletedUnique(rows[1..], id);
      var rest := Deleted(rows[1..], id);
      forall d | d in rest ensures d.id != rows[0].id {
        var k :| 0 <= k < |rows| - 1 && rows[1..][k] == d;
        assert rows[k + 1] == d;
      }
    }
  }
}
