/** The property API (`propertyAPI` in src/lib/api/properties.ts): how a filter set
    becomes a query of clauses, an order and a row window, what the database
    answers to it, and the paged response envelope built from that answer. */
module Properties {
  import opened Wrappers
  import opened Text
  import opened Rows
  import opened Backend

  datatype ListingType = Sale | Rent | Lease

  function ListingTypeName(t: ListingType): string {
    match t
    case Sale => "sale"
    case Rent => "rent"
    case Lease => "lease"
  }

  /** A row of the `properties` table. The columns the front end reads or filters
      on are fields; every other scalar column (description, street, views, ...)
      is kept in `others` under its name. */
  datatype Property = Property(
    id: string,
    title: string,
    price: int,
    property_type: string,
    listing_type: ListingType,
    status: Option<string>,
    city: Option<string>,
    state: Option<string>,
    bedrooms: Option<int>,
    bathrooms: Option<int>,
    square_feet: Option<int>,
    images: seq<string>,
    agent_id: Option<string>,
    is_featured: bool,
    is_published: bool,
    created_at: string,
    others: map<string, Value>)

  /** The columns of the `properties` table. */
  const ColumnNames: set<string> := {
    "id", "title", "description", "price", "property_type", "listing_type", "status",
    "street", "city", "state", "zip_code", "country", "bedrooms", "bathrooms",
    "square_feet", "lot_size", "year_built", "features", "amenities", "images",
    "virtual_tour", "agent_id", "views", "parking", "heating", "cooling",
    "is_featured", "is_published", "created_at", "updated_at"}

  function TextValue(o: Option<string>): Value {
    if o.Some? then Str(o.value) else Null
  }

  function NumValue(o: Option<int>): Value {
    if o.Some? then Num(o.value) else Null
  }

  /** A column of the `properties` table; the ones the front end names have a
      constructor of their own, every other one is `ColOther`. */
  datatype Column =
    | ColId | ColTitle | ColPrice | ColPropertyType | ColListingType | ColStatus
    | ColCity | ColState | ColBedrooms | ColBathrooms | ColSquareFeet | ColAgentId
    | ColIsFeatured | ColIsPublished | ColCreatedAt | ColOther(name: string)

  function ColumnName(c: Column): string {
    match c
    case ColId => "id"
    case ColTitle => "title"
    case ColPrice => "price"
    case ColPropertyType => "property_type"
    case ColListingType => "listing_type"
    case ColStatus => "status"
    case ColCity => "city"
    case ColState => "state"
    case ColBedrooms => "bedrooms"
    case ColBathrooms => "bathrooms"
    case ColSquareFeet => "square_feet"
    case ColAgentId => "agent_id"
    case ColIsFeatured => "is_featured"
    case ColIsPublished => "is_published"
    case ColCreatedAt => "created_at"
    case ColOther(name) => name
  }

  /** The column a name in a query string refers to. */
  function ColumnNamed(name: string): Column {
    match name
    case "id" => ColId
    case "title" => ColTitle
    case "price" => ColPrice
    case "property_type" => ColPropertyType
    case "listing_type" => ColListingType
    case "status" => ColStatus
    case "city" => ColCity
    case "state" => ColState
    case "bedrooms" => ColBedrooms
    case "bathrooms" => ColBathrooms
    case "square_feet" => ColSquareFeet
    case "agent_id" => ColAgentId
    case "is_featured" => ColIsFeatured
    case "is_published" => ColIsPublished
    case "created_at" => ColCreatedAt
    case _ => ColOther(name)
  }

  /** Naming a column and reading the name back gives the same column. */
  lemma ColumnNameRoundTrip(c: Column)
    requires c.ColOther? ==> ColumnNamed(c.name) == c
    ensures ColumnNamed(ColumnName(c)) == c
  {
  }

  /** Every name reads back to itself. */
  lemma ColumnNamedRoundTrip(name: string)
    ensures ColumnName(ColumnNamed(name)) == name
  {
  }

  /** The value of column `c` in row `p`; array columns and names the row does not
      carry read as NULL. */
  function Field(p: Property, c: Column): Value {
    match c
    case ColId => Str(p.id)
    case ColTitle => Str(p.title)
    case ColPrice => Num(p.price)
    case ColPropertyType => Str(p.property_type)
    case ColListingType => Str(ListingTypeName(p.listing_type))
    case ColStatus => TextValue(p.status)
    case ColCity => TextValue(p.city)
    case ColState => TextValue(p.state)
    case ColBedrooms => NumValue(p.bedrooms)
    case ColBathrooms => NumValue(p.bathrooms)
    case ColSquareFeet => NumValue(p.square_feet)
    case ColAgentId => TextValue(p.agent_id)
    case ColIsFeatured => Bool(p.is_featured)
    case ColIsPublished => Bool(p.is_published)
    case ColCreatedAt => Str(p.created_at)
    case ColOther(name) => if name in p.others then p.others[name] else Null
  }

  /** The sort key of an ORDER BY on `column`. */
  function KeyOf(column: Column): Property -> Value {
    p => Field(p, column)
  }

  /** One filter call on the query builder. */
  datatype Clause =
    | Eq(column: Column, value: Value)            // .eq(column, value)
    | ILike(column: Column, text: string)         // .ilike(column, `%text%`)
    | Gte(column: Column, bound: int)             // .gte(column, bound)
    | Lte(column: Column, bound: int)             // .lte(column, bound)
    | AnyILike(columns: seq<Column>, text: string) // .or('c1.ilike.%text%,...')

  predicate ILikeValue(v: Value, text: string) {
    v.Str? && ILikeContains(v.s, text)
  }

  /** SQL meaning of a clause on one row; a NULL column satisfies no comparison. */
  predicate Holds(c: Clause, p: Property) {
    match c
    case Eq(column, v) => v != Null && Field(p, column) == v
    case ILike(column, text) => ILikeValue(Field(p, column), text)
    case Gte(column, bound) => Field(p, column).Num? && Field(p, column).n >= bound
    case Lte(column, bound) => Field(p, column).Num? && Field(p, column).n <= bound
    case AnyILike(columns, text) => exists i :: 0 <= i < |columns| && ILikeValue(Field(p, columns[i]), text)
  }

  /** Chained filter calls combine with AND. */
  predicate HoldsAll(cs: seq<Clause>, p: Property) {
    forall c :: c in cs ==> Holds(c, p)
  }

  function Where(cs: seq<Clause>): Property -> bool {
    p => HoldsAll(cs, p)
  }

  /** `.order(column, { ascending })`. */
  datatype Order = Order(column: Column, ascending: bool)

  /** The query `getProperties` sends: filters, order and `.range(from, to)`. */
  datatype Query = Query(clauses: seq<Clause>, order: Order, from: int, to: int)

  /** `PropertyFilters`: every field optional. */
  datatype Filters = Filters(
    propertyType: Option<string>,
    listingType: Option<string>,
    status: Option<string>,
    city: Option<string>,
    state: Option<string>,
    minPrice: Option<int>,
    maxPrice: Option<int>,
    bedrooms: Option<int>,
    bathrooms: Option<int>,
    search: Option<string>,
    sort: Option<string>,
    page: Option<int>,
    limit: Option<int>)

  /** `filters?.page || 1`: absent and 0 both mean page 1. */
  function PageOf(f: Filters): (page: int)
    ensures page != 0
    ensures f.page.Some? && f.page.value != 0 ==> page == f.page.value
    ensures f.page.None? || f.page.value == 0 ==> page == 1
  {
    if f.page.Some? && f.page.value != 0 then f.page.value else 1
  }

  /** `filters?.limit || 12`: absent and 0 both mean 12 rows a page. */
  function LimitOf(f: Filters): (limit: int)
    ensures limit != 0
    ensures f.limit.Some? && f.limit.value != 0 ==> limit == f.limit.value
    ensures f.limit.None? || f.limit.value == 0 ==> limit == 12
  {
    if f.limit.Some? && f.limit.value != 0 then f.limit.value else 12
  }

  /** First row of page `page`: `(page - 1) * limit`. */
  function From(page: int, limit: int): int {
    (page - 1) * limit
  }

  /** Last row of page `page`, inclusive: `from + limit - 1`. */
  function To(page: int, limit: int): int {
    From(page, limit) + limit - 1
  }

  /** A window spans `limit` rows, and the next page starts right after it. */
  lemma WindowsAbut(page: int, limit: int)
    ensures To(page, limit) - From(page, limit) + 1 == limit
    ensures From(page + 1, limit) == To(page, limit) + 1
  {
    assert From(page + 1, limit) == page * limit;
    assert From(page, limit) == page * limit - limit;
  }

  /** The page's window starts at a row that exists (offset at least 0) and is not
      empty exactly when both the page and the page size are at least 1. */
  lemma WindowValid(page: int, limit: int)
    requires page != 0 && limit != 0
    ensures From(page, limit) >= 0 && To(page, limit) >= From(page, limit)
        <==> page >= 1 && limit >= 1
  {
    if page < 1 && limit >= 1 {
      assert (page - 1) * limit <= (page - 1) * 1 by {
        assert (page - 1) * limit == (page - 1) * 1 + (page - 1) * (limit - 1);
      }
    }
    if page >= 1 && limit >= 1 {
      assert (page - 1) * limit >= 0;
    }
  }

  /** `Math.ceil(a / b)` for integers. */
  function CeilDiv(a: int, b: int): (r: int)
    requires b != 0
    ensures b > 0 ==> (r - 1) * b < a <= r * b
    ensures b < 0 ==> r * b <= a < (r - 1) * b
  {
    if b > 0 then -((-a) / b) else -(a / (-b))
  }

  /** `Math.max(1, Math.ceil(total / limit))`. */
  function PageCount(total: nat, limit: int): (pages: int)
    requires limit != 0
    ensures pages >= 1
    ensures limit > 0 && total > 0 ==> (pages - 1) * limit < total <= pages * limit
    ensures total == 0 || limit < 0 ==> pages == 1
  {
    var c := CeilDiv(total, limit);
    assert limit < 0 ==> c < 1 by {
      if limit < 0 && c >= 1 {
        MulMonotone(1, c, -limit);
      }
    }
    if c < 1 then 1 else c
  }

  /** Multiplying by a non-negative factor keeps an inequality. */
  lemma MulMonotone(a: int, b: int, k: int)
    requires a <= b && k >= 0
    ensures a * k <= b * k
  {
    assert b * k - a * k == (b - a) * k;
  }

  /** The rows of page `page` of `rows`, which the window `(from, to)` selects. */
  function PageRows<T>(rows: seq<T>, page: int, limit: int): seq<T>
    requires page >= 1 && limit >= 1
  {
    Window(rows, From(page, limit), To(page, limit))
  }

  /** Pages 1 to `k` one after the other. */
  function FirstPages<T>(rows: seq<T>, k: nat, limit: int): seq<T>
    requires limit >= 1
  {
    if k == 0 then [] else FirstPages(rows, k - 1, limit) + PageRows(rows, k, limit)
  }

  function Min(a: int, b: int): int {
    if a <= b then a else b
  }

  /** The first `k` pages are the first `k * limit` rows: the windows tile the result. */
  lemma {:induction false} FirstPagesPrefix<T>(rows: seq<T>, k: nat, limit: int)
    requires limit >= 1
    ensures FirstPages(rows, k, limit) == rows[..Min(k * limit, |rows|)]
    decreases k
  {
    if k > 0 {
      FirstPagesPrefix(rows, k - 1, limit);
      assert From(k, limit) == (k - 1) * limit;
      assert To(k, limit) + 1 == k * limit;
      var lo := Min((k - 1) * limit, |rows|);
      var hi := Min(k * limit, |rows|);
      assert (k - 1) * limit <= k * limit;
      assert rows[..hi] == rows[..lo] + rows[lo..hi];
    }
  }

  /** Pages 1 to `PageCount` hold every row exactly once, in order. */
  lemma AllPagesCoverRows<T>(rows: seq<T>, limit: int)
    requires limit >= 1
    ensures FirstPages(rows, PageCount(|rows|, limit), limit) == rows
  {
    var pages := PageCount(|rows|, limit);
    FirstPagesPrefix(rows, pages, limit);
    assert pages * limit >= |rows| by {
      if |rows| == 0 {
        assert pages * limit >= 0;
      }
    }
    assert rows[..|rows|] == rows;
  }

  /** The last page holds the rows left over by the full pages before it. */
  lemma LastPageIsRemainder<T>(rows: seq<T>, limit: int)
    requires limit >= 1
    ensures var pages := PageCount(|rows|, limit);
      PageRows(rows, pages, limit) == rows[(pages - 1) * limit..]
      && (0 < |rows| ==> 1 <= |PageRows(rows, pages, limit)| <= limit)
  {
    var pages := PageCount(|rows|, limit);
    assert From(pages, limit) == (pages - 1) * limit;
    assert To(pages, limit) + 1 == pages * limit;
    if |rows| == 0 {
      assert pages == 1;
    }
  }

  /** A page past the last one is empty (and is not an error). */
  lemma PageBeyondLastIsEmpty<T>(rows: seq<T>, page: int, limit: int)
    requires limit >= 1 && page > PageCount(|rows|, limit)
    ensures PageRows(rows, page, limit) == []
  {
    var pages := PageCount(|rows|, limit);
    MulMonotone(pages, page - 1, limit);
    if |rows| == 0 {
      MulMonotone(0, pages, limit);
    }
    assert From(page, limit) >= |rows|;
  }

  /** The sort rule: `'newest'` and an absent (or empty) sort order by creation
      time, newest first; `'oldest'` oldest first; any other value is read as
      `"column:direction"`, ascending unless the direction is exactly `'desc'`. */
  function SortOrder(sort: Option<string>): Order {
    if !Given(sort) then Order(ColCreatedAt, false)
    else if sort.value == "newest" then Order(ColCreatedAt, false)
    else if sort.value == "oldest" then Order(ColCreatedAt, true)
    else
      var (column, direction) := SplitColon(sort.value);
      Order(ColumnNamed(column), direction != Some("desc"))
  }

  /** No sort at all orders exactly as `'newest'` does. */
  lemma SortDefaultIsNewest()
    ensures SortOrder(None) == SortOrder(Some("")) == SortOrder(Some("newest"))
    ensures SortOrder(Some("newest")) == Order(ColCreatedAt, false)
    ensures SortOrder(Some("oldest")) == Order(ColCreatedAt, true)
  {
  }

  /** `"column:direction"` orders by that column, descending only for `desc`. */
  lemma SortColumnDirection(column: string, direction: string)
    requires ':' !in column && ':' !in direction
    ensures SortOrder(Some(column + ":" + direction)) == Order(ColumnNamed(column), direction != "desc")
  {
    var s := column + ":" + direction;
    assert s[|column|] == ':';
    assert s != "newest" && s != "oldest" by {
      assert ':' in s && ':' !in "newest" && ':' !in "oldest";
    }
    SplitColonJoin(column, direction);
  }

  /** A bare column name orders by it ascending. */
  lemma SortBareColumn(column: string)
    requires ':' !in column && column != "" && column != "newest" && column != "oldest"
    ensures SortOrder(Some(column)) == Order(ColumnNamed(column), true)
  {
    SplitColonNone(column);
  }

  /** The ten filters of `PropertyFilters`, numbered in the order `getProperties`
      applies them. String filters are in force when non-empty, numeric ones
      whenever present (0 included). */
  const FilterCount: nat := 10

  predicate InForce(f: Filters, i: nat)
    requires i < FilterCount
  {
    match i
    case 0 => Given(f.listingType)
    case 1 => Given(f.propertyType)
    case 2 => Given(f.status)
    case 3 => Given(f.city)
    case 4 => Given(f.state)
    case 5 => f.minPrice.Some?
    case 6 => f.maxPrice.Some?
    case 7 => f.bedrooms.Some?
    case 8 => f.bathrooms.Some?
    case _ => Given(f.search)
  }

  /** Free-text search: a case-insensitive substring of the title, city or state. */
  predicate SearchHit(p: Property, text: string) {
    || ILikeContains(p.title, text)
    || (p.city.Some? && ILikeContains(p.city.value, text))
    || (p.state.Some? && ILikeContains(p.state.value, text))
  }

  /** What filter `i` asks of a row, field by field, as `PropertyFilters`
      describes it; a missing city, state or room count matches nothing. */
  predicate Requested(f: Filters, i: nat, p: Property)
    requires i < FilterCount
  {
    match i
    case 0 => ListingTypeName(p.listing_type) == f.listingType.GetOr("")
    case 1 => p.property_type == f.propertyType.GetOr("")
    case 2 => p.status == Some(f.status.GetOr(""))
    case 3 => p.city.Some? && ILikeContains(p.city.value, f.city.GetOr(""))
    case 4 => p.state.Some? && ILikeContains(p.state.value, f.state.GetOr(""))
    case 5 => p.price >= f.minPrice.GetOr(0)
    case 6 => p.price <= f.maxPrice.GetOr(0)
    case 7 => p.bedrooms.Some? && p.bedrooms.value >= f.bedrooms.GetOr(0)
    case 8 => p.bathrooms.Some? && p.bathrooms.value >= f.bathrooms.GetOr(0)
    case _ => SearchHit(p, f.search.GetOr(""))
  }

  /** The rows the filter set asks for: published rows meeting every filter in force. */
  predicate MatchesFilters(f: Filters, p: Property) {
    p.is_published && forall i :: 0 <= i < FilterCount && InForce(f, i) ==> Requested(f, i, p)
  }

  function Wanted(f: Filters): Property -> bool {
    p => MatchesFilters(f, p)
  }

  /** How many of the first `k` filters are in force. */
  function InForceCount(f: Filters, k: nat): (n: nat)
    requires k <= FilterCount
    ensures n <= k
  {
    if k == 0 then 0 else InForceCount(f, k - 1) + (if InForce(f, k - 1) then 1 else 0)
  }

  const SearchColumns: seq<Column> := [ColTitle, ColCity, ColState]

  /** The clause that always comes first: only published listings are shown. */
  const Published: Clause := Eq(ColIsPublished, Bool(true))

  /** The filter call that filter `i` makes when it is in force. */
  function FilterClause(f: Filters, i: nat): Clause
    requires i < FilterCount
  {
    match i
    case 0 => Eq(ColListingType, Str(f.listingType.GetOr("")))
    case 1 => Eq(ColPropertyType, Str(f.propertyType.GetOr("")))
    case 2 => Eq(ColStatus, Str(f.status.GetOr("")))
    case 3 => ILike(ColCity, f.city.GetOr(""))
    case 4 => ILike(ColState, f.state.GetOr(""))
    case 5 => Gte(ColPrice, f.minPrice.GetOr(0))
    case 6 => Lte(ColPrice, f.maxPrice.GetOr(0))
    case 7 => Gte(ColBedrooms, f.bedrooms.GetOr(0))
    case 8 => Gte(ColBathrooms, f.bathrooms.GetOr(0))
    case _ => AnyILike(SearchColumns, f.search.GetOr(""))
  }

  /** A filter's clause holds on a row exactly when the row meets the filter. */
  lemma ClauseMeaning(f: Filters, i: nat, p: Property)
    requires i < FilterCount
    ensures Holds(FilterClause(f, i), p) <==> Requested(f, i, p)
  {
    if i == 9 {
      var text := f.search.GetOr("");
      if SearchHit(p, text) {
        if ILikeContains(p.title, text) {
          assert ILikeValue(Field(p, SearchColumns[0]), text);
        } else if p.city.Some? && ILikeContains(p.city.value, text) {
          assert ILikeValue(Field(p, SearchColumns[1]), text);
        } else {
          assert ILikeValue(Field(p, SearchColumns[2]), text);
        }
      }
      if Holds(FilterClause(f, i), p) {
        var j :| 0 <= j < 3 && ILikeValue(Field(p, SearchColumns[j]), text);
      }
    }
  }

  /** The ten filters make ten different calls, none of them `is_published = true`. */
  lemma FilterClausesDistinct(f: Filters, i: nat, j: nat)
    requires i < FilterCount && j < FilterCount
    ensures FilterClause(f, i) != Published
    ensures FilterClause(f, i) == FilterClause(f, j) ==> i == j
  {
  }

  /** `if (cond) query = query.<filter>(...)`: one optional filter call. */
  function AddIf(cs: seq<Clause>, cond: bool, c: Clause): seq<Clause> {
    if cond then cs + [c] else cs
  }

  /** The clauses after the first `k` filters have had their turn. */
  function ClausesUpTo(f: Filters, k: nat): seq<Clause>
    requires k <= FilterCount
  {
    if k == 0 then [Published]
    else AddIf(ClausesUpTo(f, k - 1), InForce(f, k - 1), FilterClause(f, k - 1))
  }

  /** The clauses of the query `getProperties` builds for `f`, in call order. */
  function Clauses(f: Filters): seq<Clause> {
    ClausesUpTo(f, FilterCount)
  }

  /** `is_published = true` first, then one clause per filter in force, so the
      query has one clause more than there are filters in force. */
  lemma {:induction false} ClausesUpToShape(f: Filters, k: nat)
    requires k <= FilterCount
    ensures |ClausesUpTo(f, k)| == 1 + InForceCount(f, k)
    ensures ClausesUpTo(f, k)[0] == Published
    ensures forall c :: c in ClausesUpTo(f, k) <==>
      c == Published || exists i :: 0 <= i < k && InForce(f, i) && c == FilterClause(f, i)
  {
    if k > 0 {
      ClausesUpToShape(f, k - 1);
    }
  }

  /** Filter `i`'s clause is in the query exactly when filter `i` is in force. */
  lemma ClauseIffInForce(f: Filters, i: nat)
    requires i < FilterCount
    ensures FilterClause(f, i) in Clauses(f) <==> InForce(f, i)
  {
    ClausesUpToShape(f, FilterCount);
    if FilterClause(f, i) in Clauses(f) {
      FilterClausesDistinct(f, i, i);
      var j :| 0 <= j < FilterCount && InForce(f, j) && FilterClause(f, i) == FilterClause(f, j);
      FilterClausesDistinct(f, i, j);
    }
  }

  /** The query's clauses select exactly the rows the filter set asks for. */
  lemma ClausesSelectRequested(f: Filters, p: Property)
    ensures HoldsAll(Clauses(f), p) <==> MatchesFilters(f, p)
  {
    var cs := Clauses(f);
    ClausesUpToShape(f, FilterCount);
    if HoldsAll(cs, p) {
      assert Holds(Published, p);
      forall i | 0 <= i < FilterCount && InForce(f, i)
        ensures Requested(f, i, p)
      {
        assert FilterClause(f, i) in cs;
        ClauseMeaning(f, i, p);
      }
    }
    if MatchesFilters(f, p) {
      forall c | c in cs
        ensures Holds(c, p)
      {
        if c != Published {
          var i :| 0 <= i < FilterCount && InForce(f, i) && c == FilterClause(f, i);
          ClauseMeaning(f, i, p);
        }
      }
    }
  }

  lemma SelectsRequested(f: Filters)
    ensures forall p :: HoldsAll(Clauses(f), p) <==> MatchesFilters(f, p)
  {
    forall p
      ensures HoldsAll(Clauses(f), p) <==> MatchesFilters(f, p)
    {
      ClausesSelectRequested(f, p);
    }
  }

  /** The query `getProperties` builds (lines 65-129), one filter call at a time. */
  method BuildQuery(f: Filters) returns (q: Query)
    ensures q.clauses == Clauses(f)
    ensures forall p :: HoldsAll(q.clauses, p) <==> MatchesFilters(f, p)
    ensures q.order == SortOrder(f.sort)
    ensures q.from == From(PageOf(f), LimitOf(f)) && q.to == To(PageOf(f), LimitOf(f))
  {
    var page := PageOf(f);
    var limit := LimitOf(f);
    var from := (page - 1) * limit;
    var to := from + limit - 1;

    var clauses := [Published];
    if Given(f.listingType) {
      clauses := clauses + [Eq(ColListingType, Str(f.listingType.value))];
    }
    assert clauses == ClausesUpTo(f, 1);
    if Given(f.propertyType) {
      clauses := clauses + [Eq(ColPropertyType, Str(f.propertyType.value))];
    }
    assert clauses == ClausesUpTo(f, 2);
    if Given(f.status) {
      clauses := clauses + [Eq(ColStatus, Str(f.status.value))];
    }
    assert clauses == ClausesUpTo(f, 3);
    if Given(f.city) {
      clauses := clauses + [ILike(ColCity, f.city.value)];
    }
    assert clauses == ClausesUpTo(f, 4);
    if Given(f.state) {
      clauses := clauses + [ILike(ColState, f.state.value)];
    }
    assert clauses == ClausesUpTo(f, 5);
    if f.minPrice.Some? {
      clauses := clauses + [Gte(ColPrice, f.minPrice.value)];
    }
    assert clauses == ClausesUpTo(f, 6);
    if f.maxPrice.Some? {
      clauses := clauses + [Lte(ColPrice, f.maxPrice.value)];
    }
    assert clauses == ClausesUpTo(f, 7);
    if f.bedrooms.Some? {
      clauses := clauses + [Gte(ColBedrooms, f.bedrooms.value)];
    }
    assert clauses == ClausesUpTo(f, 8);
    if f.bathrooms.Some? {
      clauses := clauses + [Gte(ColBathrooms, f.bathrooms.value)];
    }
    assert clauses == ClausesUpTo(f, 9);
    if Given(f.search) {
      clauses := clauses + [AnyILike(SearchColumns, f.search.value)];
    }
    assert clauses == ClausesUpTo(f, 10);
    SelectsRequested(f);
    q := Query(clauses, SortOrder(f.sort), from, to);
  }

  /** The database's answer to a query: the rows of the window and the exact
      count of matching rows, either of which the client may see as null. */
  datatype Answer = Answer(data: Option<seq<Property>>, count: Option<nat>)

  /** The rows a filtered, ordered `select` returns, before any window. Ordering
      by a column the table does not have is an error of the service. */
  function Select(table: seq<Property>, clauses: seq<Clause>, order: Order): (r: Result<seq<Property>, Error>)
    ensures r.Failure? <==> ColumnName(order.column) !in ColumnNames
    ensures r.Success? ==> r.value == SortBy(Filter(table, Where(clauses)), KeyOf(order.column), order.ascending)
  {
    if ColumnName(order.column) !in ColumnNames then Failure(Service("column does not exist"))
    else Success(SortBy(Filter(table, Where(clauses)), KeyOf(order.column), order.ascending))
  }

  /** A selected row is a row of the table that satisfies every clause, and the
      selection is in the requested order. */
  lemma SelectCorrect(table: seq<Property>, clauses: seq<Clause>, order: Order)
    requires ColumnName(order.column) in ColumnNames
    ensures var rows := Select(table, clauses, order).value;
      && multiset(rows) == multiset(Filter(table, Where(clauses)))
      && SortedBy(rows, KeyOf(order.column), order.ascending)
      && forall x :: x in rows <==> x in table && HoldsAll(clauses, x)
  {
    var matching := Filter(table, Where(clauses));
    SortByCorrect(matching, KeyOf(order.column), order.ascending);
    SortByMembers(matching, KeyOf(order.column), order.ascending);
    FilterMembers(table, Where(clauses));
  }

  /** `query.range(from, to)` with `{ count: 'exact' }`: the window of the selected
      rows and the number of matching rows. A window starting before row 0 or
      ending before it starts is refused by the service. */
  function Execute(table: seq<Property>, q: Query): (r: Result<Answer, Error>)
    ensures r.Failure? <==> ColumnName(q.order.column) !in ColumnNames || q.from < 0 || q.to < q.from
    ensures r.Success? ==> r.value.count == Some(|Filter(table, Where(q.clauses))|)
    ensures r.Success? ==> r.value.data.Some? && |r.value.data.value| <= q.to - q.from + 1
  {
    var rows :- Select(table, q.clauses, q.order);
    if q.from < 0 || q.to < q.from then Failure(Service("requested range not satisfiable"))
    else Success(Answer(Some(Window(rows, q.from, q.to)), Some(|Filter(table, Where(q.clauses))|)))
  }

  /** `PropertyResponse`. */
  datatype PropertyResponse = PropertyResponse(
    status: string, count: nat, total: nat, page: int, pages: int, data: seq<Property>)

  /** The response `getProperties` returns for an answer (lines 137-146): a missing
      count is a total of 0 and missing data an empty page. */
  function Envelope(page: int, limit: int, answer: Answer): (r: PropertyResponse)
    requires limit != 0
    ensures r.status == "success" && r.page == page && r.count == |r.data|
    ensures r.total == answer.count.GetOr(0) && r.data == answer.data.GetOr([])
    ensures r.pages >= 1
    ensures limit > 0 && r.total > 0 ==> (r.pages - 1) * limit < r.total <= r.pages * limit
    ensures answer.count.None? ==> r.pages == 1
  {
    var total := answer.count.GetOr(0);
    var data := answer.data.GetOr([]);
    PropertyResponse("success", |data|, total, page, PageCount(total, limit), data)
  }

  /** The rows the filter set asks for, newest first unless `sort` says otherwise. */
  function Ordered(table: seq<Property>, f: Filters): seq<Property> {
    var order := SortOrder(f.sort);
    SortBy(Filter(table, Wanted(f)), KeyOf(order.column), order.ascending)
  }

  /** `getProperties(filters)` on a database whose `properties` table is `db`.
      It fails exactly when the database does, when the sort names no column of
      the table, or when the page or the page size is below 1; otherwise it
      returns the requested page of the matching rows in the requested order,
      with their number and the number of pages. */
  method GetProperties(f: Filters, db: Result<seq<Property>, Error>) returns (r: Result<PropertyResponse, Error>)
    ensures db.Failure? ==> r == Failure(db.error)
    ensures r.Failure? <==> db.Failure? || ColumnName(SortOrder(f.sort).column) !in ColumnNames
                            || PageOf(f) < 1 || LimitOf(f) < 1
    ensures r.Success? ==>
      && PageOf(f) >= 1 && LimitOf(f) >= 1
      && r.value.status == "success"
      && r.value.page == PageOf(f)
      && r.value.total == |Filter(db.value, Wanted(f))|
      && r.value.pages == PageCount(r.value.total, LimitOf(f))
      && r.value.data == PageRows(Ordered(db.value, f), PageOf(f), LimitOf(f))
      && r.value.count == |r.value.data| <= LimitOf(f)
  {
    var q := BuildQuery(f);
    if db.Failure? {
      return Failure(db.error);
    }
    var answer := Execute(db.value, q);
    if answer.Failure? {
      WindowValid(PageOf(f), LimitOf(f));
      return Failure(answer.error);
    }
    var limit := LimitOf(f);
    WindowValid(PageOf(f), limit);
    FilterSame(db.value, Where(q.clauses), Wanted(f));
    r := Success(Envelope(PageOf(f), limit, answer.value));
  }

  /** Every row of a page is a published row of the table meeting every filter in
      force, and the page is in the requested order. */
  lemma PageRowsMatch(table: seq<Property>, f: Filters, page: int, limit: int)
    requires page >= 1 && limit >= 1
    ensures var order := SortOrder(f.sort);
      SortedBy(PageRows(Ordered(table, f), page, limit), KeyOf(order.column), order.ascending)
    ensures forall x :: x in PageRows(Ordered(table, f), page, limit) ==>
      x in table && MatchesFilters(f, x)
  {
    var order := SortOrder(f.sort);
    var key := KeyOf(order.column);
    var matching := Filter(table, Wanted(f));
    var rows := Ordered(table, f);
    SortByCorrect(matching, key, order.ascending);
    WindowOfSorted(rows, From(page, limit), To(page, limit), key, order.ascending);
    forall x | x in PageRows(rows, page, limit)
      ensures x in table && MatchesFilters(f, x)
    {
      assert x in rows;
      SortByMembers(matching, key, order.ascending);
      FilterMembers(table, Wanted(f));
    }
  }

  /** A row meeting the filters lies within the price bounds given. */
  lemma PriceWithinBounds(f: Filters, p: Property)
    requires MatchesFilters(f, p)
    ensures p.is_published
    ensures f.minPrice.Some? ==> f.minPrice.value <= p.price
    ensures f.maxPrice.Some? ==> p.price <= f.maxPrice.value
  {
    if f.minPrice.Some? {
      assert InForce(f, 5);
    }
    if f.maxPrice.Some? {
      assert InForce(f, 6);
    }
  }

  /** Pages 1 to `pages` of the response, put together, are all the matching rows. */
  lemma PagesTileResult(table: seq<Property>, f: Filters)
    requires LimitOf(f) >= 1
    ensures var rows := Ordered(table, f);
      FirstPages(rows, PageCount(|Filter(table, Wanted(f))|, LimitOf(f)), LimitOf(f)) == rows
  {
    AllPagesCoverRows(Ordered(table, f), LimitOf(f));
  }

  /** The featured listings: featured and published, newest first. */
  const FeaturedClauses: seq<Clause> := [Eq(ColIsFeatured, Bool(true)), Published]
  const Newest: Order := Order(ColCreatedAt, false)

  /** `getFeaturedProperties()` (lines 166-179): the service's error, or the rows it
      selects; `data || []` never applies, since a successful select has data. */
  function GetFeaturedProperties(db: Result<seq<Property>, Error>): (r: Result<seq<Property>, Error>)
    ensures db.Failure? <==> r.Failure?
    ensures db.Failure? ==> r.error == db.error
  {
    var table :- db;
    Select(table, FeaturedClauses, Newest)
  }

  /** A row satisfies the featured clauses exactly when it is featured and published. */
  lemma FeaturedClausesMean(x: Property)
    ensures HoldsAll(FeaturedClauses, x) <==> x.is_featured && x.is_published
  {
    assert FeaturedClauses[0] in FeaturedClauses && FeaturedClauses[1] in FeaturedClauses;
  }

  /** The featured listings are exactly the featured, published rows of the table,
      each as often as in the table, newest first. */
  lemma FeaturedCorrect(table: seq<Property>)
    ensures var rows := GetFeaturedProperties(Success(table)).value;
      && SortedBy(rows, KeyOf(ColCreatedAt), false)
      && multiset(rows) == multiset(Filter(table, Where(FeaturedClauses)))
      && forall x :: x in rows <==> x in table && x.is_featured && x.is_published
  {
    assert GetFeaturedProperties(Success(table)) == Select(table, FeaturedClauses, Newest);
    SelectCorrect(table, FeaturedClauses, Newest);
    forall x {
      FeaturedClausesMean(x);
    }
  }

  const PropertyNotFound: string := "Property not found"

  /** `getProperty(id)` (lines 151-163), given the answer to the single-row select:
      the row, the service's error, or "Property not found" when there is no row. */
  function GetProperty(answer: Result<Option<Property>, Error>): (r: Result<Property, Error>)
    ensures r.Success? <==> answer.Success? && answer.value.Some?
    ensures r.Success? ==> r.value == answer.value.value
    ensures r.Failure? ==> r.error == if answer.Failure? then answer.error else Thrown(PropertyNotFound)
  {
    RowOr(answer, PropertyNotFound)
  }
}
