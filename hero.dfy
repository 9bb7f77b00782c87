/** The search card on the landing page (src/components/Hero.tsx): the budget
    buckets, the form state with its buy/rent tab, and the query parameters a
    search sends to the listings page. */
module Hero {
  import opened Wrappers
  import opened Text

  datatype Mode = Buy | Rent

  /** The tab's value. */
  function ModeName(m: Mode): string {
    match m
    case Buy => "buy"
    case Rent => "rent"
  }

  /** A budget bucket: lower and upper price bound in naira, either may be absent. */
  datatype Range = Range(min: Option<nat>, max: Option<nat>)

  /** `budgetRanges`: the seven budget buckets by select value. */
  const BudgetRanges: map<string, Range> := map[
    "buy-under-50m" := Range(None, Some(50000000)),
    "buy-50m-100m" := Range(Some(50000000), Some(100000000)),
    "buy-100m-plus" := Range(Some(100000000), None),
    "rent-300k-1m" := Range(Some(300000), Some(1000000)),
    "rent-1m-3m" := Range(Some(1000000), Some(3000000)),
    "rent-3m-6m" := Range(Some(3000000), Some(6000000)),
    "rent-6m-plus" := Range(Some(6000000), None)]

  /** The budget options the select offers on each tab, in display order. */
  function BudgetOptions(m: Mode): seq<string> {
    match m
    case Buy => ["buy-under-50m", "buy-50m-100m", "buy-100m-plus"]
    case Rent => ["rent-300k-1m", "rent-1m-3m", "rent-3m-6m", "rent-6m-plus"]
  }

  /** The options offered on a tab are exactly the bucket keys carrying that
      tab's prefix, so every offered option has a bucket. */
  lemma BudgetOptionsByMode(m: Mode, key: string)
    ensures key in BudgetOptions(m) <==> key in BudgetRanges && IsPrefix(ModeName(m) + "-", key)
  {
    var prefix := ModeName(m) + "-";
    if key in BudgetRanges {
      assert key in BudgetOptions(Buy) || key in BudgetOptions(Rent);
      if key in BudgetOptions(Buy) {
        assert key[..4] == "buy-" && key[0] == 'b';
      } else {
        assert key[..5] == "rent-" && key[0] == 'r';
      }
      assert prefix[0] == if m == Buy then 'b' else 'r';
    }
  }

  /** Every bucket has a bound, and a bucket with both bounds has a lower bound
      below its upper bound. */
  lemma BudgetBoundsOrdered(key: string)
    requires key in BudgetRanges
    ensures BudgetRanges[key].min.Some? || BudgetRanges[key].max.Some?
    ensures BudgetRanges[key].min.Some? && BudgetRanges[key].max.Some? ==>
      BudgetRanges[key].min.value < BudgetRanges[key].max.value
  {
  }

  /** Neighbouring buckets of a tab meet: each one's upper bound is the next
      one's lower bound; only the cheapest sale bucket lacks a lower bound and only
      the last bucket of a tab lacks an upper one. */
  lemma BudgetBucketsTile(m: Mode, i: nat)
    requires i < |BudgetOptions(m)|
    ensures forall k :: k in BudgetOptions(m) ==> k in BudgetRanges
    ensures m == Buy && i == 0 <==> BudgetRanges[BudgetOptions(m)[i]].min.None?
    ensures i == |BudgetOptions(m)| - 1 <==> BudgetRanges[BudgetOptions(m)[i]].max.None?
    ensures i + 1 < |BudgetOptions(m)| ==>
      BudgetRanges[BudgetOptions(m)[i]].max == BudgetRanges[BudgetOptions(m)[i + 1]].min
  {
  }

  /** The query parameters a search can carry. */
  datatype Param = Location | ListingType | PropertyType | Bedrooms | MinPrice | MaxPrice

  /** A parameter's name in the query string. */
  function ParamName(p: Param): string {
    match p
    case Location => "location"
    case ListingType => "listingType"
    case PropertyType => "propertyType"
    case Bedrooms => "bedrooms"
    case MinPrice => "minPrice"
    case MaxPrice => "maxPrice"
  }

  /** Query parameters in insertion order, before percent-encoding. */
  type Params = seq<(Param, string)>

  /** The parameter names in order. */
  function Keys(ps: Params): seq<Param> {
    if ps == [] then [] else [ps[0].0] + Keys(ps[1..])
  }

  /** `params.get(key)`: the value of the first pair named `key`. */
  function Lookup(ps: Params, key: Param): (r: Option<string>)
    ensures r.Some? ==> (key, r.value) in ps
    ensures r.None? <==> key !in Keys(ps)
  {
    if ps == [] then None
    else if ps[0].0 == key then Some(ps[0].1)
    else Lookup(ps[1..], key)
  }

  /** The pairs not named `key`. */
  function Without(ps: Params, key: Param): seq<(Param, string)> {
    if ps == [] then []
    else if ps[0].0 == key then Without(ps[1..], key)
    else [ps[0]] + Without(ps[1..], key)
  }

  /** `params.set(key, value)`: the first pair named `key` takes the new value and
      the other pairs of that name are dropped; without such a pair, the new pair
      goes last. */
  function Set(ps: Params, key: Param, value: string): (r: Params)
    ensures key !in Keys(ps) ==> r == ps + [(key, value)]
  {
    if ps == [] then [(key, value)]
    else if ps[0].0 == key then [(key, value)] + Without(ps[1..], key)
    else [ps[0]] + Set(ps[1..], key, value)
  }

  /** Dropping `key` leaves no pair of that name and every other lookup as it was. */
  lemma {:induction false} WithoutLookup(ps: Params, key: Param, k: Param)
    ensures Lookup(Without(ps, key), k) == if k == key then None else Lookup(ps, k)
  {
    if ps != [] {
      WithoutLookup(ps[1..], key, k);
    }
  }

  /** After `params.set(key, value)`, `key` reads `value` and every other key reads
      what it read before. */
  lemma {:induction false} SetLookup(ps: Params, key: Param, value: string, k: Param)
    ensures Lookup(Set(ps, key, value), k) == if k == key then Some(value) else Lookup(ps, k)
  {
    if ps != [] {
      if ps[0].0 == key {
        WithoutLookup(ps[1..], key, k);
      } else {
        SetLookup(ps[1..], key, value, k);
      }
    }
  }

  /** Appending a pair appends its name. */
  lemma {:induction false} KeysAppend(ps: Params, pair: (Param, string))
    ensures Keys(ps + [pair]) == Keys(ps) + [pair.0]
  {
    if ps != [] {
      assert (ps + [pair])[1..] == ps[1..] + [pair];
      KeysAppend(ps[1..], pair);
    }
  }

  /** The form's fields at one moment. */
  datatype FormState = FormState(
    mode: Mode, location: string, propertyType: string, budget: string, bedrooms: string)

  /** `listingType` as the listings page expects it: the buy tab searches sales. */
  function ListingTypeParam(m: Mode): string {
    if m == Buy then "sale" else "rent"
  }

  /** The bucket of the chosen budget, if the key names one. */
  function BudgetRange(budget: string): Option<Range> {
    if budget in BudgetRanges then Some(BudgetRanges[budget]) else None
  }

  /** `range?.min` and `range?.max`. */
  function MinOf(range: Option<Range>): Option<nat> {
    if range.Some? then range.value.min else None
  }

  function MaxOf(range: Option<Range>): Option<nat> {
    if range.Some? then range.value.max else None
  }

  /** `if (cond) params.set(key, value)`. */
  function SetIf(ps: Params, cond: bool, key: Param, value: string): Params {
    if cond then Set(ps, key, value) else ps
  }

  /** The parameters `handleSearch` builds for the form state `s`. */
  function SearchParams(s: FormState): Params {
    Encode(s, BudgetRange(s.budget))
  }

  /** The parameters for the form state `s` when its budget key looks up `range`. */
  function Encode(s: FormState, range: Option<Range>): Params {
    var p1 := SetIf([], s.location != "", Location, s.location);
    var p2 := Set(p1, ListingType, ListingTypeParam(s.mode));
    var p3 := SetIf(p2, s.propertyType != "", PropertyType, s.propertyType);
    var p4 := SetIf(p3, s.bedrooms != "", Bedrooms, s.bedrooms);
    var p5 := SetIf(p4, MinOf(range).Some?, MinPrice, NatToString(MinOf(range).GetOr(0)));
    SetIf(p5, MaxOf(range).Some?, MaxPrice, NatToString(MaxOf(range).GetOr(0)))
  }

  /** One optional `params.set` changes only the looked-up value of its own key. */
  lemma SetIfLookup(ps: Params, cond: bool, key: Param, value: string, k: Param)
    ensures Lookup(SetIf(ps, cond, key, value), k) == if cond && k == key then Some(value) else Lookup(ps, k)
  {
    if cond {
      SetLookup(ps, key, value, k);
    }
  }

  /** The position of each parameter in `handleSearch`. */
  function Rank(p: Param): nat {
    match p
    case Location => 0
    case ListingType => 1
    case PropertyType => 2
    case Bedrooms => 3
    case MinPrice => 4
    case MaxPrice => 5
  }

  /** Names in the order `handleSearch` sets them, none twice. */
  predicate InSearchOrder(keys: seq<Param>) {
    forall i, j :: 0 <= i < j < |keys| ==> Rank(keys[i]) < Rank(keys[j])
  }

  /** An optional `params.set` of a key that comes after every key present appends
      it, keeping the names in search order. */
  lemma SetIfOrdered(ps: Params, cond: bool, key: Param, value: string)
    requires InSearchOrder(Keys(ps))
    requires forall k :: k in Keys(ps) ==> Rank(k) < Rank(key)
    ensures InSearchOrder(Keys(SetIf(ps, cond, key, value)))
    ensures forall k :: k in Keys(SetIf(ps, cond, key, value)) ==> Rank(k) <= Rank(key)
  {
    if cond {
      KeysAppend(ps, (key, value));
    }
  }

  /** What a search sends for each parameter: the listing type always; location,
      property type and bedrooms exactly when filled in, and then unchanged; a
      price bound exactly when the chosen bucket has it, written in decimal. */
  function Expected(s: FormState, range: Option<Range>, k: Param): Option<string> {
    match k
    case Location => if s.location != "" then Some(s.location) else None
    case ListingType => Some(ListingTypeParam(s.mode))
    case PropertyType => if s.propertyType != "" then Some(s.propertyType) else None
    case Bedrooms => if s.bedrooms != "" then Some(s.bedrooms) else None
    case MinPrice => if MinOf(range).Some? then Some(NatToString(MinOf(range).value)) else None
    case MaxPrice => if MaxOf(range).Some? then Some(NatToString(MaxOf(range).value)) else None
  }

  /** Every parameter of a search carries what `Expected` says. */
  lemma EncodeContents(s: FormState, range: Option<Range>, k: Param)
    ensures Lookup(Encode(s, range), k) == Expected(s, range, k)
  {
    var p1 := SetIf([], s.location != "", Location, s.location);
    var p2 := SetIf(p1, true, ListingType, ListingTypeParam(s.mode));
    var p3 := SetIf(p2, s.propertyType != "", PropertyType, s.propertyType);
    var p4 := SetIf(p3, s.bedrooms != "", Bedrooms, s.bedrooms);
    var p5 := SetIf(p4, MinOf(range).Some?, MinPrice, NatToString(MinOf(range).GetOr(0)));
    SetIfLookup([], s.location != "", Location, s.location, k);
    SetIfLookup(p1, true, ListingType, ListingTypeParam(s.mode), k);
    SetIfLookup(p2, s.propertyType != "", PropertyType, s.propertyType, k);
    SetIfLookup(p3, s.bedrooms != "", Bedrooms, s.bedrooms, k);
    SetIfLookup(p4, MinOf(range).Some?, MinPrice, NatToString(MinOf(range).GetOr(0)), k);
    SetIfLookup(p5, MaxOf(range).Some?, MaxPrice, NatToString(MaxOf(range).GetOr(0)), k);
  }

  /** The parameters come in the order `handleSearch` sets them, each once. */
  lemma EncodeOrder(s: FormState, range: Option<Range>)
    ensures InSearchOrder(Keys(Encode(s, range)))
  {
    var p1 := SetIf([], s.location != "", Location, s.location);
    var p2 := SetIf(p1, true, ListingType, ListingTypeParam(s.mode));
    var p3 := SetIf(p2, s.propertyType != "", PropertyType, s.propertyType);
    var p4 := SetIf(p3, s.bedrooms != "", Bedrooms, s.bedrooms);
    var p5 := SetIf(p4, MinOf(range).Some?, MinPrice, NatToString(MinOf(range).GetOr(0)));
    SetIfOrdered([], s.location != "", Location, s.location);
    SetIfOrdered(p1, true, ListingType, ListingTypeParam(s.mode));
    SetIfOrdered(p2, s.propertyType != "", PropertyType, s.propertyType);
    SetIfOrdered(p3, s.bedrooms != "", Bedrooms, s.bedrooms);
    SetIfOrdered(p4, MinOf(range).Some?, MinPrice, NatToString(MinOf(range).GetOr(0)));
    SetIfOrdered(p5, MaxOf(range).Some?, MaxPrice, NatToString(MaxOf(range).GetOr(0)));
  }

  /** A price parameter reads back as the bound of the chosen bucket. */
  lemma PriceParamsRoundTrip(s: FormState)
    requires s.budget in BudgetRanges
    ensures var ps := SearchParams(s);
      && (BudgetRanges[s.budget].min.Some? ==>
            Lookup(ps, MinPrice).Some? && AllDigits(Lookup(ps, MinPrice).value)
            && ParseNat(Lookup(ps, MinPrice).value) == BudgetRanges[s.budget].min.value)
      && (BudgetRanges[s.budget].max.Some? ==>
            Lookup(ps, MaxPrice).Some? && AllDigits(Lookup(ps, MaxPrice).value)
            && ParseNat(Lookup(ps, MaxPrice).value) == BudgetRanges[s.budget].max.value)
  {
    EncodeContents(s, BudgetRange(s.budget), MinPrice);
    EncodeContents(s, BudgetRange(s.budget), MaxPrice);
    var r := BudgetRanges[s.budget];
    if r.min.Some? {
      ParseNatToString(r.min.value);
    }
    if r.max.Some? {
      ParseNatToString(r.max.value);
    }
  }

  /** With no budget chosen (or a key naming no bucket) a search carries no price. */
  lemma NoBudgetNoPrice(s: FormState)
    requires s.budget !in BudgetRanges
    ensures Lookup(SearchParams(s), MinPrice) == None
    ensures Lookup(SearchParams(s), MaxPrice) == None
  {
    EncodeContents(s, BudgetRange(s.budget), MinPrice);
    EncodeContents(s, BudgetRange(s.budget), MaxPrice);
  }

  /** The chosen budget, if any, is one the form's tab offers. */
  predicate ValidForm(s: FormState) {
    s.budget == "" || s.budget in BudgetOptions(s.mode)
  }

  /** The search card's state: the `useState` hooks of `Hero`. */
  class SearchForm {
    var mode: Mode
    var location: string
    var propertyType: string
    var budget: string
    var bedrooms: string

    function State(): FormState
      reads this
    {
      FormState(mode, location, propertyType, budget, bedrooms)
    }

    /** The chosen budget, if any, is one the current tab offers. */
    predicate Valid()
      reads this
    {
      ValidForm(State())
    }

    /** The buy tab with every field empty. */
    constructor()
      ensures State() == FormState(Buy, "", "", "", "")
      ensures Valid()
    {
      mode := Buy;
      location := "";
      propertyType := "";
      budget := "";
      bedrooms := "";
    }

    /** Clicking a tab trigger. The Tabs widget calls `onValueChange` only when
        the tab really changes; the handler sets the mode and clears the budget. */
    method ChangeTab(m: Mode)
      requires Valid()
      modifies this
      ensures m != old(mode) ==> State() == old(State()).(mode := m, budget := "")
      ensures m == old(mode) ==> State() == old(State())
      ensures Valid()
    {
      if m != mode {
        mode := m;
        budget := "";
      }
    }

    /** Picking one of the budget options the current tab shows. */
    method ChooseBudget(key: string)
      requires key in BudgetOptions(mode)
      modifies this
      ensures State() == old(State()).(budget := key)
      ensures Valid()
    {
      budget := key;
    }

    /** `handleSearch`: the query string for the listings page. */
    method HandleSearch() returns (params: Params)
      ensures params == SearchParams(State())
    {
      params := [];
      if location != "" {
        params := Set(params, Location, location);
      }
      params := Set(params, ListingType, if mode == Buy then "sale" else "rent");
      if propertyType != "" {
        params := Set(params, PropertyType, propertyType);
      }
      if bedrooms != "" {
        params := Set(params, Bedrooms, bedrooms);
      }
      var range := BudgetRange(budget);
      if range.Some? && range.value.min.Some? {
        params := Set(params, MinPrice, NatToString(range.value.min.value));
      }
      if range.Some? && range.value.max.Some? {
        params := Set(params, MaxPrice, NatToString(range.value.max.value));
      }
    }
  }

  /** A search right after a tab switch carries no price bound. */
  lemma ChangeTabDropsPrice(s: FormState, m: Mode)
    ensures Lookup(SearchParams(s.(mode := m, budget := "")), MinPrice) == None
    ensures Lookup(SearchParams(s.(mode := m, budget := "")), MaxPrice) == None
  {
    NoBudgetNoPrice(s.(mode := m, budget := ""));
  }

  /** In a valid form the price bounds belong to the tab's own buckets: a rent
      search never carries a sale budget and the other way round. */
  lemma BudgetMatchesTab(s: FormState)
    requires ValidForm(s)
    ensures s.budget != "" ==> s.budget in BudgetRanges && IsPrefix(ModeName(s.mode) + "-", s.budget)
  {
    if s.budget != "" {
      BudgetOptionsByMode(s.mode, s.budget);
    }
  }
}
