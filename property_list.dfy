/** The featured listings section (src/components/PropertyList.tsx): the card each
    listing is shown as, the split into sale and rent tabs, and the "Load More"
    counter that decides how many cards a tab shows. */
module PropertyList {
  import opened Wrappers
  import opened Text
  import opened Rows
  import opened Properties

  /** Stock photo shown for land listings without pictures. */
  const LandPlaceholder: string :=
    "https://images.unsplash.com/photo-1441974231531-c6227db76b6e?crop=entropy&cs=tinysrgb&fit=max&fm=jpg&ixid=M3w3Nzg4Nzd8MHwxfHNlYXJjaHwxfHxlYXJ0aCUyMHBsb3R8ZW58MXx8fHwxNzY1ODk4NTU5fDA&ixlib=rb-4.1.0&q=80&w=1080&utm_source=figma&utm_medium=referral"

  const Land: string := "land"
  const PerYear: string := "/yr"
  const Sqft: string := " sqft"

  /** What a property card displays. The price is the amount the currency format
      is applied to, and the suffix written after the formatted amount. */
  datatype Card = Card(
    id: string,
    title: string,
    location: string,
    priceAmount: int,
    priceSuffix: string,
    kind: string,
    bedrooms: int,
    bathrooms: int,
    area: string,
    image: string,
    images: seq<string>,
    isNew: bool)

  /** `${city || ''}${state ? `, ${state}` : ''}`. */
  function LocationLabel(city: Option<string>, state: Option<string>): string {
    city.GetOr("") + (if Given(state) then ", " + state.value else "")
  }

  /** `'land'` for land, `'buy'` for other sale listings, else the listing type. */
  function KindLabel(p: Property): string {
    if p.property_type == Land then Land
    else if p.listing_type == Sale then "buy"
    else ListingTypeName(p.listing_type)
  }

  /** `x || 0` for a nullable count. */
  function OrZero(o: Option<int>): int {
    if o.Some? then o.value else 0
  }

  /** `square_feet ? `${square_feet} sqft` : ''`: nothing for a missing or zero area. */
  function AreaLabel(squareFeet: Option<int>): string {
    if squareFeet.Some? && squareFeet.value != 0 then IntToString(squareFeet.value) + Sqft else ""
  }

  /** The first picture when it is a non-empty string, else the placeholder for land. */
  function CoverImage(p: Property): string {
    if |p.images| > 0 && p.images[0] != "" then p.images[0]
    else if p.property_type == Land then LandPlaceholder
    else ""
  }

  /** The pictures, or the placeholder alone for land without pictures. */
  function Gallery(p: Property): seq<string> {
    if |p.images| > 0 then p.images
    else if p.property_type == Land then [LandPlaceholder]
    else []
  }

  /** `mapToCard`. */
  function MapToCard(p: Property): Card {
    Card(
      p.id, p.title, LocationLabel(p.city, p.state), p.price,
      if p.listing_type == Rent then PerYear else "",
      KindLabel(p), OrZero(p.bedrooms), OrZero(p.bathrooms), AreaLabel(p.square_feet),
      CoverImage(p), Gallery(p), p.is_featured)
  }

  /** The location label is the city followed, only for a non-empty state, by a
      comma, a space and the state; both can be cut back out of it. */
  lemma LocationLabelParts(city: Option<string>, state: Option<string>)
    ensures var loc := LocationLabel(city, state);
      && |city.GetOr("")| <= |loc|
      && loc[..|city.GetOr("")|] == city.GetOr("")
      && (Given(state) ==>
            |loc| == |city.GetOr("")| + 2 + |state.value|
            && loc[|city.GetOr("")|..|city.GetOr("")| + 2] == ", "
            && loc[|city.GetOr("")| + 2..] == state.value)
      && (!Given(state) ==> loc == city.GetOr(""))
  {
  }

  /** A card's price carries the "/yr" suffix exactly for rentals, and its amount is
      the listing's price. */
  lemma CardPrice(p: Property)
    ensures MapToCard(p).priceSuffix == PerYear <==> p.listing_type == Rent
    ensures MapToCard(p).priceSuffix == "" <==> p.listing_type != Rent
    ensures MapToCard(p).priceAmount == p.price
  {
  }

  /** The kind label is "land" exactly for land; otherwise it names the listing
      type, sale reading "buy", so the listing type can be read back from it. */
  lemma CardKind(p: Property)
    ensures MapToCard(p).kind == Land <==> p.property_type == Land
    ensures p.property_type != Land ==>
      MapToCard(p).kind == (match p.listing_type case Sale => "buy" case Rent => "rent" case Lease => "lease")
    ensures MapToCard(p).kind in {"land", "buy", "rent", "lease"}
  {
  }

  /** Missing room counts show as 0; an area shows exactly when it is non-zero,
      and its digits read back as the area. */
  lemma CardFigures(p: Property)
    ensures MapToCard(p).bedrooms == (if p.bedrooms.Some? then p.bedrooms.value else 0)
    ensures MapToCard(p).bathrooms == (if p.bathrooms.Some? then p.bathrooms.value else 0)
    ensures MapToCard(p).area == "" <==> p.square_feet.None? || p.square_feet.value == 0
    ensures var area := MapToCard(p).area;
      area != "" ==>
        |area| > |Sqft| && area[|area| - |Sqft|..] == Sqft
        && var digits := area[..|area| - |Sqft|];
        |digits| >= 1 && (digits[0] == '-' ==> AllDigits(digits[1..])) && (digits[0] != '-' ==> AllDigits(digits))
        && ParseInt(digits) == p.square_feet.value
  {
    var area := MapToCard(p).area;
    if area != "" {
      var n := p.square_feet.value;
      ParseIntToString(n);
      assert area[..|area| - |Sqft|] == IntToString(n);
      assert area[|area| - |Sqft|..] == Sqft;
    }
  }

  /** A land card always has a picture and a gallery; any other card has pictures
      only when the listing does. The cover is the gallery's first picture unless
      the listing's first picture is an empty string; then it is the placeholder
      for land and empty otherwise. */
  lemma CardImages(p: Property)
    ensures var card := MapToCard(p);
      && (p.property_type == Land ==> card.image != "" && |card.images| >= 1)
      && (p.property_type != Land ==> card.images == p.images)
      && (|p.images| > 0 ==> card.images == p.images)
      && ((p.images == [] || p.images[0] != "") ==>
            card.image == if |card.images| > 0 then card.images[0] else "")
      && (|p.images| > 0 && p.images[0] == "" ==>
            card.image == if p.property_type == Land then LandPlaceholder else "")
    ensures MapToCard(p).isNew == p.is_featured
  {
  }

  /** `listing_type === 'sale'` and `listing_type === 'rent'`. */
  function IsSale(p: Property): bool { p.listing_type == Sale }
  function IsRental(p: Property): bool { p.listing_type == Rent }
  function IsLease(p: Property): bool { p.listing_type == Lease }

  /** The Buy tab's listings. */
  function ForSale(featured: seq<Property>): seq<Property> {
    Filter(featured, IsSale)
  }

  /** The Rent tab's listings. */
  function ForRent(featured: seq<Property>): seq<Property> {
    Filter(featured, IsRental)
  }

  /** Each tab holds exactly the featured listings of its type; a lease listing is
      on neither tab. */
  lemma TabsMembers(featured: seq<Property>)
    ensures forall p :: p in ForSale(featured) <==> p in featured && p.listing_type == Sale
    ensures forall p :: p in ForRent(featured) <==> p in featured && p.listing_type == Rent
    ensures forall p :: p in featured && p.listing_type == Lease ==> p !in ForSale(featured) && p !in ForRent(featured)
  {
    FilterMembers(featured, IsSale);
    FilterMembers(featured, IsRental);
  }

  /** Each tab keeps the order of the featured list: the tab of a concatenation is
      the concatenation of the tabs. */
  lemma TabsKeepOrder(a: seq<Property>, b: seq<Property>)
    ensures ForSale(a + b) == ForSale(a) + ForSale(b)
    ensures ForRent(a + b) == ForRent(a) + ForRent(b)
  {
    FilterAppend(a, b, IsSale);
    FilterAppend(a, b, IsRental);
  }

  /** Sale listings, rentals and leases partition the featured list. */
  lemma {:induction false} TabsPartition(featured: seq<Property>)
    ensures |ForSale(featured)| + |ForRent(featured)| + |Filter(featured, IsLease)| == |featured|
    decreases |featured|
  {
    if featured != [] {
      TabsPartition(featured[1..]);
    }
  }

  /** How many cards a tab shows at first, and how many more each "Load More" adds. */
  const Step: nat := 6

  /** `list.slice(0, count)` for a non-negative count. */
  function Slice<T>(list: seq<T>, count: nat): (r: seq<T>)
    ensures |r| == Min(count, |list|)
    ensures forall i :: 0 <= i < |r| ==> r[i] == list[i]
  {
    if count <= |list| then list[..count] else list
  }

  /** The "Load More" button shows exactly when some listing of the tab is hidden. */
  lemma ButtonIffHidden<T>(list: seq<T>, count: nat)
    ensures count < |list| <==> |Slice(list, count)| < |list|
    ensures Slice(list, count) == list <==> |list| <= count
  {
  }

  /** The two tabs of the section. */
  datatype Tab = BuyTab | RentTab

  /** The section's state: the tab in view and the `visibleCount` hook. */
  class FeaturedSection {
    var tab: Tab
    var visibleCount: nat

    /** The count is a positive multiple of the step. */
    predicate Valid()
      reads this
    {
      visibleCount >= Step && visibleCount % Step == 0
    }

    /** The listings of the tab in view. */
    function TabListings(featured: seq<Property>): seq<Property>
      reads this
    {
      if tab == BuyTab then ForSale(featured) else ForRent(featured)
    }

    /** The cards of the tab in view: the first `visibleCount` listings of the tab. */
    function Shown(featured: seq<Property>): (r: seq<Card>)
      reads this
      ensures |r| == Min(visibleCount, |TabListings(featured)|)
      ensures forall i :: 0 <= i < |r| ==> r[i] == MapToCard(TabListings(featured)[i])
    {
      var rows := Slice(TabListings(featured), visibleCount);
      seq(|rows|, i requires 0 <= i < |rows| => MapToCard(rows[i]))
    }

    /** Whether the tab in view shows the "Load More" button: some listing is not shown. */
    function ShowsLoadMore(featured: seq<Property>): (r: bool)
      reads this
      ensures r <==> |Shown(featured)| < |TabListings(featured)|
    {
      visibleCount < |TabListings(featured)|
    }

    /** The Buy tab, six cards. */
    constructor()
      ensures tab == BuyTab && visibleCount == Step
      ensures Valid()
    {
      tab := BuyTab;
      visibleCount := Step;
    }

    /** `loadMore`: six more cards. */
    method LoadMore()
      requires Valid()
      modifies this
      ensures tab == old(tab) && visibleCount == old(visibleCount) + Step
      ensures Valid()
    {
      visibleCount := visibleCount + Step;
    }

    /** Clicking a tab trigger. The Tabs widget calls `onValueChange` only when
        the tab really changes, and the handler goes back to six cards. */
    method ChangeTab(t: Tab)
      requires Valid()
      modifies this
      ensures tab == t
      ensures visibleCount == if t == old(tab) then old(visibleCount) else Step
      ensures Valid()
    {
      if t != tab {
        tab := t;
        visibleCount := Step;
      }
    }
  }
}
