# Maeson front end: listing queries, search form, featured cards, accounts

A Dafny model of the logic inside the Maeson real-estate front end (TypeScript/React)
that sits between the pages and the hosted database and auth service:

- **Listing queries** (`src/lib/api/properties.ts`, module `Properties`). `getProperties`
  turns a filter set into a chain of filter calls (`eq`, `ilike`, `gte`, `lte` and an
  `or` of `ilike`s), an order and an inclusive row range. It then wraps the answer in a
  response envelope with `total` and `pages`. `getFeaturedProperties` selects the
  featured, published listings newest first, and `getProperty` reports a missing row
  as "Property not found". The model gives the clauses an SQL meaning over a table of
  rows. It proves that the clause chain selects exactly the rows the filters ask for,
  that the returned page is the right slice of the ordered result, and that the pages
  tile the result.
- **Hero search form** (`src/components/Hero.tsx`, module `Hero`). The budget bucket
  table, the query parameters `handleSearch` sets and their order, and the tab switch
  that clears the budget. The form is a class whose fields are the component's state
  hooks.
- **Featured section** (`src/components/PropertyList.tsx`, module `PropertyList`).
  `mapToCard`, the Buy/Rent split of the featured listings, and the `visibleCount`
  counter behind "Load More". The counter is a class.
- **Accounts** (`src/lib/api/auth.ts`, module `Auth`). The profile-to-user mapping,
  the profile written at registration, the `updateDetails` patch (built field by field
  in a method), and the guards on login, registration, `getMe`, `updateDetails` and
  `updatePassword`.
- **Favorites and inquiries** (`src/lib/api/user.ts`, module `UserApi`). The
  signed-in-user guard, the rows inserted for a favorite or an inquiry, the status
  update, and the row mappers of the favorite and inquiry lists.

Shared modules:

- `Wrappers`: `Option` and `Result`.
- `Text`:
  - JavaScript truthiness of optional strings;
  - substring search with an ASCII case fold for `ilike`;
  - decimal rendering of integers and parsing it back;
  - `split(':')`.
- `Rows`: the database's WHERE, ORDER BY and range on a sequence of rows.
- `Backend`: the service's errors, the identity answer, and the single-row guard
  `if (error || !data) throw error || new Error(...)`.

The database and the auth service are not modelled as code. A list call takes the
table's rows (or the error every call to the database returns), and the model applies
the filter, order and range itself. A single-row call takes the service's answer: an
error, no row, or a row. An operation that writes also returns what it sends: the
payload, or none when a guard stops it first. "Nothing is written when not
authenticated" is therefore part of the contract. The clock that `updateInquiryStatus`
reads is a parameter (`now`).

Where the code and its description differ, the model follows the code:

- `page` and `limit` use `||`, so 0 also takes the default (1 and 12).
- The card's cover image falls back to the placeholder when the first image is an empty
  string, not only when there are no images.
- A listing's price is an unconstrained integer, since nothing in the client enforces
  the documented `price >= 0`.

`updatePassword` takes the current password but never uses it; the model keeps that,
and `Auth.UpdatePasswordIgnoresCurrent` states it.

## Model

| member | source | states |
|---|---|---|
| Backend.RowOr | src/lib/api/properties.ts:158-162 | A single-row call yields the row, passes the service's error on unchanged, and throws the given message exactly when there is neither an error nor a row |
| Properties.PageOf | src/lib/api/properties.ts:65 | The page is the given one unless it is absent or 0, and then it is 1 |
| Properties.LimitOf | src/lib/api/properties.ts:66 | The page size is the given one unless it is absent or 0, and then it is 12 |
| Properties.WindowsAbut | src/lib/api/properties.ts:67-68 | The inclusive window `from..to` spans exactly `limit` rows, and page p+1 starts right after page p ends |
| Properties.WindowValid | src/lib/api/properties.ts:67-68 | The window is a valid range (from >= 0, to >= from) exactly when page and limit are both at least 1 |
| Properties.CeilDiv | src/lib/api/properties.ts:138 | For a positive b, `Math.ceil(a / b)` is the least r with a <= r * b; for a negative b, the least r with r * b <= a |
| Properties.PageCount | src/lib/api/properties.ts:137-138 | `pages` is at least 1, is 1 for a total of 0, and otherwise is the least count of `limit`-row pages that holds the total |
| Properties.FirstPagesPrefix | src/lib/api/properties.ts:67-68 | The first k windows, concatenated, are the first k*limit rows of the result |
| Properties.AllPagesCoverRows | src/lib/api/properties.ts:137-138 | Pages 1 to `pages`, concatenated, are the whole result |
| Properties.LastPageIsRemainder | src/lib/api/properties.ts:137-138 | The last page holds the rows after the full pages, between 1 and `limit` of them when there is any row |
| Properties.PageBeyondLastIsEmpty | src/lib/api/properties.ts:137-138 | A page past the last one is empty |
| Properties.SortOrder | src/lib/api/properties.ts:118-129 | The order a sort parameter asks for; what it means is stated by `Properties.SortDefaultIsNewest`, `Properties.SortColumnDirection` and `Properties.SortBareColumn` |
| Properties.SortDefaultIsNewest | src/lib/api/properties.ts:118-129 | An absent or empty sort orders as 'newest' does (created_at descending), and 'oldest' orders created_at ascending |
| Properties.SortColumnDirection | src/lib/api/properties.ts:124-125 | `"col:dir"` orders by the column named `col`, ascending unless `dir` is exactly "desc" |
| Properties.SortBareColumn | src/lib/api/properties.ts:124-125 | Any other sort value without a colon orders ascending by the column of that name |
| Properties.ColumnNameRoundTrip | src/lib/api/properties.ts:124-125 | Naming a column and reading the name back gives the same column |
| Properties.ColumnNamedRoundTrip | src/lib/api/properties.ts:124-125 | Reading a column name and naming the column gives back the same name |
| Properties.InForceCount | src/lib/api/properties.ts:75-116 | At most k of the first k filters are in force |
| Properties.ClauseMeaning | src/lib/api/properties.ts:75-116 | Each filter's clause holds on a row exactly when the row meets that filter: equality for listing type, property type and status; case-insensitive substring for city and state; `>=` for min price, bedrooms and bathrooms; `<=` for max price; a substring of title, city or state for search. A NULL column meets none of them |
| Properties.FilterClausesDistinct | src/lib/api/properties.ts:73-116 | The ten filter clauses differ from each other and from `is_published = true` |
| Properties.ClausesUpToShape | src/lib/api/properties.ts:70-116 | `is_published = true` comes first, then one clause per filter in force and no other, so there is one clause more than there are filters in force |
| Properties.ClauseIffInForce | src/lib/api/properties.ts:75-116 | A filter's clause is in the query exactly when the filter is in force: strings when non-empty, numbers whenever present, 0 included |
| Properties.ClausesSelectRequested | src/lib/api/properties.ts:70-116 | A row satisfies every clause exactly when it is published and meets every filter in force |
| Properties.SelectsRequested | src/lib/api/properties.ts:70-116 | The same, for every row at once |
| Properties.BuildQuery | src/lib/api/properties.ts:65-129 | Building the query clause by clause gives the clause list above, which selects exactly the published rows that meet the filters, with the sort rule's order and the window of the page |
| Properties.Select | src/lib/api/properties.ts:70-131 | The database answers the filtered rows in the requested order, or an error exactly when the order names no column of the table |
| Properties.SelectCorrect | src/lib/api/properties.ts:70-131 | The selected rows are a permutation of the matching rows, sorted by the order, and a row is among them exactly when it is in the table and satisfies every clause |
| Properties.Execute | src/lib/api/properties.ts:131-135 | The ranged, counted select fails exactly for an unknown order column or an empty or negative window; otherwise the count is the number of matching rows and at most `to - from + 1` rows come back |
| Properties.Envelope | src/lib/api/properties.ts:137-146 | The response says "success", echoes the page, counts the rows it carries, takes the total from the count (0 when missing) and gives `pages` as `max(1, ceil(total / limit))` |
| Properties.GetProperties | src/lib/api/properties.ts:64-148 | It fails exactly when the database does, when the sort names no column, or when page or limit is below 1. Otherwise the total is the number of matching rows, `pages` is the page count for it, and the data is that page of the ordered matching rows, at most `limit` of them |
| Properties.PageRowsMatch | src/lib/api/properties.ts:70-131 | Every row of a page is in the table, published and meets every filter, and the page is in the requested order |
| Properties.PriceWithinBounds | src/lib/api/properties.ts:95-101 | A selected row is published and its price lies between the given min price and max price |
| Properties.PagesTileResult | src/lib/api/properties.ts:67-68 | The pages from 1 to `pages`, for the total the response reports, concatenate to the whole ordered result |
| Properties.GetFeaturedProperties | src/lib/api/properties.ts:166-179 | It fails exactly when the database does, with its error |
| Properties.FeaturedClausesMean | src/lib/api/properties.ts:170-171 | The two clauses hold exactly on featured, published rows |
| Properties.FeaturedCorrect | src/lib/api/properties.ts:166-179 | The featured list is newest first, a permutation of the featured published rows, and holds exactly those rows |
| Properties.GetProperty | src/lib/api/properties.ts:151-163 | The row, the service's error, or "Property not found" when there is no row |
| Hero.BudgetOptionsByMode | src/components/Hero.tsx:142-155 | The budget options a tab offers are exactly the keys of the bucket table that carry the tab's prefix |
| Hero.BudgetBoundsOrdered | src/components/Hero.tsx:20-28 | Every bucket has a bound, and in a bucket with both, min < max |
| Hero.BudgetBucketsTile | src/components/Hero.tsx:20-28 | Each tab's buckets, in display order, are in the table and follow on one another: each max is the next bucket's min, only the first buy bucket lacks a min, and only the last bucket of each tab lacks a max |
| Hero.Lookup | src/components/Hero.tsx:31-39 | A found value belongs to a pair with that name, and nothing is found exactly when no pair has that name |
| Hero.Set | src/components/Hero.tsx:31-39 | Setting a name that is not present appends the pair |
| Hero.WithoutLookup | src/components/Hero.tsx:31-39 | Removing a name makes that name unfound and leaves the others as they were |
| Hero.SetLookup | src/components/Hero.tsx:31-39 | After `set(key, value)` the key finds `value` and every other name finds what it did before |
| Hero.KeysAppend | src/components/Hero.tsx:31-39 | Appending a pair appends its name to the names |
| Hero.SetIfLookup | src/components/Hero.tsx:32-39 | An `if (cond) params.set(key, value)` changes only what `key` finds, and only when `cond` holds |
| Hero.SetIfOrdered | src/components/Hero.tsx:32-39 | A conditional set of a name that ranks after every present name keeps the names in search order |
| Hero.SearchParams | src/components/Hero.tsx:30-39 | The query `handleSearch` builds, which is `Hero.Encode` of the form with its budget's bucket; `Hero.SearchForm.HandleSearch` is proved to compute it |
| Hero.Encode | src/components/Hero.tsx:31-39 | The query for a form and a bucket; which parameters it holds, with which values and in which order, is stated by `Hero.EncodeContents` and `Hero.EncodeOrder` |
| Hero.EncodeContents | src/components/Hero.tsx:30-39 | `location`, `propertyType` and `bedrooms` are present exactly when non-empty, with the form's value; `listingType` is always present, "sale" on the buy tab and "rent" on the rent tab; `minPrice` and `maxPrice` are present exactly when the bucket has that bound, as its decimal digits |
| Hero.EncodeOrder | src/components/Hero.tsx:30-39 | The names appear in the order they are set, none twice |
| Hero.PriceParamsRoundTrip | src/components/Hero.tsx:37-39 | For a known budget key, each bound of its bucket is present, is all digits, and parses back to the bound |
| Hero.NoBudgetNoPrice | src/components/Hero.tsx:37-39 | An empty or unknown budget key sets neither `minPrice` nor `maxPrice` |
| Hero.SearchForm.constructor | src/components/Hero.tsx:14-18 | The form starts on the buy tab with every field empty |
| Hero.SearchForm.ChangeTab | src/components/Hero.tsx:79-82 | Switching to the other tab sets the mode, clears the budget and leaves the other fields alone; clicking the tab in view changes nothing |
| Hero.SearchForm.ChooseBudget | src/components/Hero.tsx:136-155 | Choosing one of the tab's options sets the budget and nothing else |
| Hero.SearchForm.HandleSearch | src/components/Hero.tsx:30-39 | The parameters built step by step are those of the form's state |
| Hero.ChangeTabDropsPrice | src/components/Hero.tsx:79-82 | Right after a tab switch, a search carries no price bounds |
| Hero.BudgetMatchesTab | src/components/Hero.tsx:142-155 | In a form whose budget is empty or one of its tab's options (the invariant `Hero.SearchForm.Valid` every method keeps), a chosen budget is a key of the table with the tab's prefix |
| PropertyList.LocationLabelParts | src/components/PropertyList.tsx:22 | The label is the city (or '') followed, only for a non-empty state, by ", " and the state, and both parts can be cut back out |
| PropertyList.MapToCard | src/components/PropertyList.tsx:19-35 | The card for a listing; its fields are stated by `PropertyList.CardPrice`, `PropertyList.CardKind`, `PropertyList.CardFigures`, `PropertyList.CardImages` and `PropertyList.LocationLabelParts` |
| PropertyList.CardPrice | src/components/PropertyList.tsx:23-27 | The price carries "/yr" exactly for rentals, and its amount is the listing's price |
| PropertyList.CardKind | src/components/PropertyList.tsx:28 | The type is "land" exactly for land; otherwise "buy" for sale and the listing type for the others |
| PropertyList.CardFigures | src/components/PropertyList.tsx:29-31 | Missing room counts show 0. The area is empty exactly for a missing or zero area; otherwise it is the area's digits followed by " sqft", and the digits parse back to the area |
| PropertyList.CardImages | src/components/PropertyList.tsx:32-34 | A land card always has a cover and a gallery. Other cards show exactly the listing's pictures. The cover is the gallery's first picture, except that when the listing's first picture is an empty string the cover is the land placeholder for land and empty otherwise. `isNew` mirrors `is_featured` |
| PropertyList.TabsMembers | src/components/PropertyList.tsx:16-17 | The Buy tab holds exactly the featured sale listings and the Rent tab exactly the rentals; a lease is on neither |
| PropertyList.TabsKeepOrder | src/components/PropertyList.tsx:16-17 | Each tab keeps the order of the featured list |
| PropertyList.TabsPartition | src/components/PropertyList.tsx:16-17 | Sales, rentals and leases partition the featured list |
| PropertyList.Slice | src/components/PropertyList.tsx:59 | The shown prefix has `min(visibleCount, length)` listings, in the tab's order |
| PropertyList.ButtonIffHidden | src/components/PropertyList.tsx:63 | "Load More" shows exactly when some listing of the tab is not shown |
| PropertyList.FeaturedSection.constructor | src/components/PropertyList.tsx:9 | The section starts on the Buy tab showing 6 cards |
| PropertyList.FeaturedSection.LoadMore | src/components/PropertyList.tsx:37-39 | "Load More" adds exactly 6 and keeps the count a positive multiple of 6 |
| PropertyList.FeaturedSection.ChangeTab | src/components/PropertyList.tsx:49 | Switching to the other tab resets the count to 6; clicking the tab in view keeps the count |
| PropertyList.FeaturedSection.Shown | src/components/PropertyList.tsx:59-61 | The cards in view are the cards of the tab's first `visibleCount` listings, in the tab's order |
| PropertyList.FeaturedSection.ShowsLoadMore | src/components/PropertyList.tsx:63 | The button shows exactly when fewer cards are in view than the tab has listings |
| Auth.MapProfileRoundTrip | src/lib/api/auth.ts:34-42 | The mapping renames the columns and copies id and email. An empty or null phone or avatar reads as undefined, and an empty or missing role as "buyer". A given phone, avatar and role are copied as they are, and the names are copied. A user stored as a row and mapped back is the same user |
| Auth.ProfileById | src/lib/api/auth.ts:44-56 | The user's profile row; the database's error is passed on, and a missing row is the service's "no rows" error |
| Auth.Login | src/lib/api/auth.ts:61-79 | The sign-in error is passed on. Without both a session and a user, "Login failed". Then the database's error is passed on, and a missing profile row is the service's "no rows" error. Otherwise the response carries the session's token and the signed-in user's profile |
| Auth.RegisterPayload | src/lib/api/auth.ts:92-99 | The profile row written at registration copies the names and email, stores an empty phone as null and a given phone as it is, and stores the given role, or "buyer" when empty or absent |
| Auth.Register | src/lib/api/auth.ts:82-117 | The sign-up error is passed on, and "Registration failed" is raised when no user came back; nothing is written in either case. The database's error is passed on with nothing written. Otherwise the table becomes the upsert of the registration row under the new user's id, the user returned is that row mapped (with the registration's names and email), and the token is the session's, or '' without one |
| Auth.RegisterThenGetMe | src/lib/api/auth.ts:82-129 | After a registration, `getMe` for the new account returns the user that registration returned: the data given, with the defaults applied |
| Auth.GetMe | src/lib/api/auth.ts:120-129 | Without a user, the identity error or "Not authenticated". With one, the database's error is passed on and a missing profile row is the service's "no rows" error; otherwise the user's mapped profile |
| Auth.BuildUpdates | src/lib/api/auth.ts:139-144 | The patch holds exactly the supplied fields among first name, last name, phone, role and avatar, under their column names and with the supplied values, and never email or id |
| Auth.UpdateDetails | src/lib/api/auth.ts:132-158 | Without a user, the identity error; with one, the database's error is passed on and a missing row is the service's "no rows" error; no write in any of these cases. Otherwise the row becomes the profile with the supplied fields replaced, and the updated user is returned |
| Auth.PatchedUser | src/lib/api/auth.ts:139-157 | After an update, id and email are unchanged, fields not supplied keep their values, and supplied fields show their new values |
| Auth.UpdatePassword | src/lib/api/auth.ts:161-177 | Without a user, the identity error or "Not authenticated", and no password is sent. Otherwise the new password is sent, and the service's error is the result when there is one, else "Password updated" |
| Auth.UpdatePasswordIgnoresCurrent | src/lib/api/auth.ts:161-170 | The outcome does not depend on the current password given |
| UserApi.CurrentUserId | src/lib/api/user.ts:39-45 | The signed-in user's id; the identity error when there is one; "Not authenticated" when there is no user |
| UserApi.MapAll | src/lib/api/user.ts:225-240 | `.map(f)` keeps the length and maps each row in place |
| UserApi.NewestFirst | src/lib/api/user.ts:52-56 | The rows a list call answers are a permutation of the rows its `eq` filter selects, sorted by `created_at` descending |
| UserApi.MapAllPermutes | src/lib/api/user.ts:62-68 | Mapping two orderings of the same rows gives two orderings of the same entries |
| UserApi.NewestFirstCorrect | src/lib/api/user.ts:52-68 | A list is the mapping of a permutation of the selected rows: every selected row's entry appears, every entry comes from a selected row, entries occur as often as their rows, newest first |
| UserApi.FavoriteOf | src/lib/api/user.ts:62-68 | The favorite keeps the row's id, property and creation time, takes the resolved user id as `user`, and reads empty or null notes as undefined and other notes as they are |
| UserApi.GetFavorites | src/lib/api/user.ts:50-69 | The identity error first; with a user, the database's error is the result; otherwise a list |
| UserApi.GetFavoritesCorrect | src/lib/api/user.ts:50-69 | The list is the favorite mapper applied to a permutation of the user's rows: each with `user` set to the user's id, newest first, and nothing else |
| UserApi.AddFavorite | src/lib/api/user.ts:72-95 | Without a user nothing is inserted. Otherwise the row inserted is the user's, for the property, with empty notes stored as null. The answer's row is mapped, or "Failed to add favorite" without one |
| UserApi.AddFavoriteStored | src/lib/api/user.ts:76-93 | When the stored row comes back, the favorite is the user's and has notes exactly when non-empty notes were given |
| UserApi.UpdateFavorite | src/lib/api/user.ts:110-130 | The user is resolved before the update. The notes are written as given, and the answer's row is mapped; the database's error is passed on, or "Failed to update favorite" without a row |
| UserApi.UpdateFavoriteClears | src/lib/api/user.ts:110-130 | Clearing notes writes '' and reads back as no notes |
| UserApi.CheckFavorite | src/lib/api/user.ts:133-147 | The identity error first; with a user, the database's error is passed on; otherwise true exactly when some row belongs to both the user and the property |
| UserApi.InquiryOf | src/lib/api/user.ts:225-240 | The mapper copies id, property, message, inquiry type, preferred contact method, status and creation time, and uses the sender and recipient it is given |
| UserApi.InquiryFields | src/lib/api/user.ts:230-238 | A null or empty name or email reads ''; a null or empty phone, response or response time reads undefined; non-empty values are copied |
| UserApi.GetSentInquiries | src/lib/api/user.ts:213-241 | The identity error first; with a user, the database's error is the result; otherwise a list |
| UserApi.GetSentInquiriesCorrect | src/lib/api/user.ts:213-241 | The list is the sent-inquiry mapper applied to a permutation of the rows the user sent: each with the user as sender, newest first, and nothing else |
| UserApi.GetReceivedInquiries | src/lib/api/user.ts:244-272 | The identity error first; with a user, the database's error is the result; otherwise a list |
| UserApi.GetReceivedInquiriesCorrect | src/lib/api/user.ts:244-272 | The list is the received-inquiry mapper applied to a permutation of the rows addressed to the user: each with the user as recipient, newest first, and nothing else |
| UserApi.InquiryPayload | src/lib/api/user.ts:175-186 | The inserted row is sent by the user to the property's agent. Empty name, email and phone are stored as null, and given ones as they are. The type is "general" and the contact method "email" unless given, and the status is "new" |
| UserApi.CreateInquiry | src/lib/api/user.ts:153-210 | Not authenticated, then a failed or empty property lookup ("Property not found"), are reported before anything is inserted. Otherwise the payload is inserted, and the answer's row is mapped with the contact details given; the insert's error is passed on, or "Failed to create inquiry" without a row |
| UserApi.CreateInquiryStored | src/lib/api/user.ts:173-209 | When the stored row comes back, the inquiry is from the user, "new" and unanswered, and shows the type and contact method asked for or their defaults |
| UserApi.StatusPayload | src/lib/api/user.ts:282-286 | The status update stores an empty or absent response as null, and sets the response time to now exactly when there is a response |
| UserApi.UpdateInquiryStatus | src/lib/api/user.ts:275-311 | The update is always sent. The answer's row is mapped with no sender; the update's error is passed on, or "Failed to update inquiry" without a row |
| UserApi.UpdateInquiryStatusApplied | src/lib/api/user.ts:282-308 | When the updated row comes back, the inquiry shows the new status and the response given, and has a response time exactly when there is a response |

## Left out

- `reviewsAPI` (`src/lib/api/user.ts:327-372`): HTTP calls through an `axiosInstance` the file never imports, and a floating-point `parseFloat`.
- `createProperty`, `updateProperty`, `deleteProperty`, `uploadImages`, `removeFavorite`, `deleteInquiry` and `logout`: each only passes a backend call through, or depends on the browser's `URL.createObjectURL`.
- `src/lib/supabaseClient.ts` is not part of this model: it is client configuration.
- The hosted database and auth service: their answers are inputs, and session persistence and token refresh are not modelled.
- `Intl.NumberFormat` currency formatting on cards: a card keeps the amount and the "/yr" suffix.
- `URLSearchParams.toString()` percent-encoding: parameters stay an ordered list of names and values.
- `navigate`, JSX rendering, react-query caching and concurrency between requests, including the favorite check-then-insert race.
- `ilike` case folding beyond ASCII, and the effect of `%`, `_` or `,` inside search text on the pattern or the `or` filter string.
- `created_at` is ordered as text (`Str`) by `Properties.Select` and `UserApi.NewestFirst`, not as a timestamp; text order is time order only for timestamps written in one uniform ISO 8601 format, as the database returns them.
- Properties.Select: text columns are ordered by code point (the "C" collation); the database orders them by its own collation, which may differ for case, accents and punctuation. Among rows with equal sort keys the model fixes one order, where PostgreSQL leaves it unspecified. NULLs sort last ascending and first descending, as PostgreSQL does by default.
- Properties.Execute: an empty or negative window is an error of the service. A window past the last row is an empty page; PostgREST may answer that case with a range error instead.
- Properties.PageOf: fractional or NaN page numbers are not modelled; page and limit are integers.
- Properties.Property: price, bedrooms, bathrooms and square_feet are integers, and so are the filter bounds minPrice, maxPrice, bedrooms and bathrooms. A JavaScript number may be fractional; fractional values, and renderings of them such as "1200.5 sqft" in `PropertyList.AreaLabel`, are not modelled.
- Hero.SearchForm: the location, property type and bedrooms setters are plain field assignments and are not separate methods.
- Hero.SearchForm.ChooseBudget: it requires the key to be one of the tab's options, since the select offers no other value.
- Auth.UpdateDetails: an empty patch is modelled as leaving the row unchanged; what PostgREST answers to an update with no columns is not modelled. The "Update failed" message is not reached, since `.single()` reports a missing row as an error.
- Auth.Register: the "Profile creation failed" message is not reached, since an upsert that succeeds returns its row.
- UserApi.UpdateInquiryStatus: `new Date().toISOString()` is the parameter `now`, and the row's `sender` is absent because the select does not ask for it.
- The joined `property` and `recipient`/`sender` objects of favorites and inquiries are taken as the database returns them; the joins themselves are not modelled.
