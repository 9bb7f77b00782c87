/** The favorites and inquiries APIs (src/lib/api/user.ts): the guard that resolves
    the signed-in user, the payloads written to the `favorites` and `inquiries`
    tables, and the mapping of their rows to what the pages receive. A list call
    takes the table's rows and applies its filter and order; a single-row call
    takes the database's answer. An operation that writes returns the payload it
    sends, or none when it sends nothing. */
module UserApi {
  import opened Wrappers
  import opened Text
  import opened Rows
  import opened Backend
  import Properties

  /** `getCurrentUserId`: the signed-in user's id, the service's error, or
      "Not authenticated" when there is no user. */
  function CurrentUserId(identity: Identity): (r: Result<string, Error>)
    ensures r.Success? <==> identity.Success? && identity.value.Some?
    ensures r.Success? ==> r.value == identity.value.value.id
    ensures identity.Failure? ==> r == Failure(identity.error)
    ensures identity == Success(None) ==> r == Failure(Thrown(NotAuthenticated))
  {
    var user :- RequireUser(identity);
    Success(user.id)
  }

  /** The rows a list call returns: those `keep` selects, newest first. */
  function NewestFirst<R>(rows: seq<R>, keep: R -> bool, created: R -> Value): (r: seq<R>)
    ensures multiset(r) == multiset(Filter(rows, keep))
    ensures SortedBy(r, created, false)
  {
    SortByCorrect(Filter(rows, keep), created, false);
    SortBy(Filter(rows, keep), created, false)
  }

  /** `.map(f)`. */
  function MapAll<R, X>(rows: seq<R>, f: R -> X): (r: seq<X>)
    ensures |r| == |rows|
    ensures forall i :: 0 <= i < |rows| ==> r[i] == f(rows[i])
  {
    seq(|rows|, i requires 0 <= i < |rows| => f(rows[i]))
  }

  lemma MapAllAppend<R, X>(a: seq<R>, b: seq<R>, f: R -> X)
    ensures MapAll(a + b, f) == MapAll(a, f) + MapAll(b, f)
  {
    assert forall i :: 0 <= i < |a + b| ==> MapAll(a + b, f)[i] == (MapAll(a, f) + MapAll(b, f))[i];
  }

  /** Mapping two orderings of the same rows gives two orderings of the same entries. */
  lemma {:induction false} MapAllPermutes<R, X>(a: seq<R>, b: seq<R>, f: R -> X)
    requires multiset(a) == multiset(b)
    ensures multiset(MapAll(a, f)) == multiset(MapAll(b, f))
    decreases |a|
  {
    if a != [] {
      var x := a[0];
      assert x in multiset(b);
      var j :| 0 <= j < |b| && b[j] == x;
      var rest := b[..j] + b[j + 1..];
      assert b == b[..j] + [x] + b[j + 1..];
      assert multiset(b) == multiset(rest) + multiset{x};
      assert a == [x] + a[1..];
      assert multiset(a) == multiset(a[1..]) + multiset{x};
      calc {
        multiset(a[1..]);
        multiset(a) - multiset{x};
        multiset(b) - multiset{x};
        multiset(rest);
      }
      MapAllPermutes(a[1..], rest, f);
      MapAllAppend([x], a[1..], f);
      MapAllAppend(b[..j] + [x], b[j + 1..], f);
      MapAllAppend(b[..j], [x], f);
      MapAllAppend(b[..j], b[j + 1..], f);
    }
  }

  /** A list call returns one entry for each selected row and nothing else, in
      descending order of creation. */
  lemma NewestFirstCorrect<R, X>(rows: seq<R>, keep: R -> bool, created: R -> Value, f: R -> X)
    ensures var listed := NewestFirst(rows, keep, created);
      && |MapAll(listed, f)| == |Filter(rows, keep)|
      && (forall row :: row in rows && keep(row) ==> f(row) in MapAll(listed, f))
      && (forall i :: 0 <= i < |listed| ==> listed[i] in rows && keep(listed[i]))
      && (forall i :: 0 < i < |listed| ==> Precedes(created(listed[i - 1]), created(listed[i]), false))
      && multiset(listed) == multiset(Filter(rows, keep))
      && multiset(MapAll(listed, f)) == multiset(MapAll(Filter(rows, keep), f))
  {
    var kept := Filter(rows, keep);
    var listed := SortBy(kept, created, false);
    assert listed == NewestFirst(rows, keep, created);
    SortByCorrect(kept, created, false);
    SortByMembers(kept, created, false);
    FilterMembers(rows, keep);
    forall i | 0 <= i < |listed|
      ensures listed[i] in rows && keep(listed[i])
    {
      assert listed[i] in multiset(listed);
    }
    forall row | row in rows && keep(row)
      ensures f(row) in MapAll(listed, f)
    {
      var i :| 0 <= i < |listed| && listed[i] == row;
      assert MapAll(listed, f)[i] == f(row);
    }
    MapAllPermutes(listed, kept, f);
  }

  // ---------------------------------------------------------------- favorites

  /** A row of `favorites`, with the property the select joins in. */
  datatype FavoriteRow = FavoriteRow(
    id: string, user_id: string, property_id: string, notes: Option<string>,
    created_at: string, property: Option<Properties.Property>)

  /** `Favorite`. */
  datatype Favorite = Favorite(
    id: string, user: string, property: Option<Properties.Property>, notes: Option<string>,
    createdAt: string)

  type Favorites = Result<seq<FavoriteRow>, Error>

  /** The favorite mapper: `user` is the resolved id, empty notes are undefined. */
  function FavoriteOf(userId: string, row: FavoriteRow): (r: Favorite)
    ensures r.id == row.id && r.user == userId && r.property == row.property && r.createdAt == row.created_at
    ensures r.notes.Some? <==> Given(row.notes)
    ensures r.notes.Some? ==> r.notes == row.notes
  {
    Favorite(row.id, userId, row.property, NonEmpty(row.notes), row.created_at)
  }

  function AsFavorite(userId: string): FavoriteRow -> Favorite {
    (row: FavoriteRow) => FavoriteOf(userId, row)
  }

  function FavoriteCreated(row: FavoriteRow): Value { Str(row.created_at) }

  function OfUser(userId: string): FavoriteRow -> bool {
    (row: FavoriteRow) => row.user_id == userId
  }

  /** `getFavorites`: the user's favorites, newest first. */
  function GetFavorites(identity: Identity, db: Favorites): (r: Result<seq<Favorite>, Error>)
    ensures CurrentUserId(identity).Failure? ==> r == Failure(CurrentUserId(identity).error)
    ensures r.Success? <==> CurrentUserId(identity).Success? && db.Success?
    ensures CurrentUserId(identity).Success? && db.Failure? ==> r == Failure(db.error)
  {
    var userId :- CurrentUserId(identity);
    var rows :- db;
    Success(MapAll(NewestFirst(rows, OfUser(userId), FavoriteCreated), AsFavorite(userId)))
  }

  /** Every favorite of the user is listed once per row, each entry comes from one
      of the user's rows and belongs to the user, and the newest comes first. */
  lemma GetFavoritesCorrect(identity: Identity, db: Favorites)
    requires GetFavorites(identity, db).Success?
    ensures var userId := identity.value.value.id;
      var r := GetFavorites(identity, db).value;
      && |r| == |Filter(db.value, OfUser(userId))|
      && (forall row :: row in db.value && row.user_id == userId ==> FavoriteOf(userId, row) in r)
      && (forall i :: 0 <= i < |r| ==> (r[i].user == userId
            && exists row :: row in db.value && row.user_id == userId && r[i] == FavoriteOf(userId, row)))
      && (forall i :: 0 < i < |r| ==> Precedes(Str(r[i - 1].createdAt), Str(r[i].createdAt), false))
      && multiset(r) == multiset(MapAll(Filter(db.value, OfUser(userId)), AsFavorite(userId)))
  {
    var userId := identity.value.value.id;
    var f := AsFavorite(userId);
    NewestFirstCorrect(db.value, OfUser(userId), FavoriteCreated, f);
    var listed := NewestFirst(db.value, OfUser(userId), FavoriteCreated);
    var r := GetFavorites(identity, db).value;
    assert r == MapAll(listed, f);
    forall i | 0 <= i < |r|
      ensures exists row :: row in db.value && row.user_id == userId && r[i] == FavoriteOf(userId, row)
    {
      assert listed[i] in db.value && OfUser(userId)(listed[i]);
    }
  }

  /** The row `addFavorite` inserts: an empty note is stored as null. */
  datatype FavoriteInsert = FavoriteInsert(user_id: string, property_id: string, notes: Option<string>)

  const FailedToAddFavorite: string := "Failed to add favorite"

  /** `addFavorite`: without a user nothing is inserted; otherwise the payload is
      inserted and the answer's row mapped. */
  function AddFavorite(identity: Identity, propertyId: string, notes: Option<string>,
                       answer: Result<Option<FavoriteRow>, Error>): (out: (Result<Favorite, Error>, Option<FavoriteInsert>))
    ensures CurrentUserId(identity).Failure? ==> out == (Failure(CurrentUserId(identity).error), None)
    ensures CurrentUserId(identity).Success? ==>
      out.1 == Some(FavoriteInsert(identity.value.value.id, propertyId, NonEmpty(notes)))
      && out.0 == (match RowOr(answer, FailedToAddFavorite)
                   case Failure(e) => Failure(e)
                   case Success(row) => Success(FavoriteOf(identity.value.value.id, row)))
  {
    match CurrentUserId(identity)
    case Failure(e) => (Failure(e), None)
    case Success(userId) =>
      var payload := FavoriteInsert(userId, propertyId, NonEmpty(notes));
      match RowOr(answer, FailedToAddFavorite)
      case Failure(e) => (Failure(e), Some(payload))
      case Success(row) => (Success(FavoriteOf(userId, row)), Some(payload))
  }

  /** When the database answers with the row it stored, the favorite is the user's,
      for the property asked for, and its notes are the ones given (none when they
      were empty). */
  lemma AddFavoriteStored(identity: Identity, propertyId: string, notes: Option<string>,
                          id: string, createdAt: string, property: Option<Properties.Property>)
    requires CurrentUserId(identity).Success?
    ensures var userId := identity.value.value.id;
      var row := FavoriteRow(id, userId, propertyId, NonEmpty(notes), createdAt, property);
      var (r, payload) := AddFavorite(identity, propertyId, notes, Success(Some(row)));
      && r == Success(Favorite(id, userId, property, NonEmpty(notes), createdAt))
      && payload.Some? && payload.value.user_id == userId
      && (payload.value.notes.Some? <==> Given(notes))
      && (r.value.notes.Some? <==> Given(notes))
  {
  }

  /** `updateFavorite`: the user is resolved first; the notes are written as given,
      even when empty. */
  function UpdateFavorite(identity: Identity, id: string, notes: string,
                          answer: Result<Option<FavoriteRow>, Error>): (out: (Result<Favorite, Error>, Option<string>))
    ensures CurrentUserId(identity).Failure? ==> out == (Failure(CurrentUserId(identity).error), None)
    ensures CurrentUserId(identity).Success? ==> out.1 == Some(notes)
    ensures out.0.Success? <==> CurrentUserId(identity).Success? && answer.Success? && answer.value.Some?
    ensures out.0.Success? ==> out.0.value == FavoriteOf(identity.value.value.id, answer.value.value)
    ensures CurrentUserId(identity).Success? && answer == Success(None) ==>
      out.0 == Failure(Thrown("Failed to update favorite"))
    ensures CurrentUserId(identity).Success? && answer.Failure? ==> out.0 == Failure(answer.error)
  {
    match CurrentUserId(identity)
    case Failure(e) => (Failure(e), None)
    case Success(userId) =>
      match RowOr(answer, "Failed to update favorite")
      case Failure(e) => (Failure(e), Some(notes))
      case Success(row) => (Success(FavoriteOf(userId, row)), Some(notes))
  }

  /** Clearing a favorite's notes writes `''`, which reads back as no notes. */
  lemma UpdateFavoriteClears(identity: Identity, row: FavoriteRow)
    requires CurrentUserId(identity).Success?
    ensures var (r, written) := UpdateFavorite(identity, row.id, "", Success(Some(row.(notes := Some("")))));
      written == Some("") && r.Success? && r.value.notes.None? && r.value.user == identity.value.value.id
  {
  }

  function OfUserAndProperty(userId: string, propertyId: string): FavoriteRow -> bool {
    (row: FavoriteRow) => row.user_id == userId && row.property_id == propertyId
  }

  /** `checkFavorite`: whether the first matching row (`limit(1)`) exists. */
  function CheckFavorite(identity: Identity, propertyId: string, db: Favorites): (r: Result<bool, Error>)
    ensures CurrentUserId(identity).Failure? ==> r == Failure(CurrentUserId(identity).error)
    ensures r.Success? <==> CurrentUserId(identity).Success? && db.Success?
    ensures r.Success? ==>
      (r.value <==> exists row :: row in db.value && row.user_id == identity.value.value.id && row.property_id == propertyId)
    ensures CurrentUserId(identity).Success? && db.Failure? ==> r == Failure(db.error)
  {
    var userId :- CurrentUserId(identity);
    var rows :- db;
    var matching := Filter(rows, OfUserAndProperty(userId, propertyId));
    FilterMembers(rows, OfUserAndProperty(userId, propertyId));
    assert matching != [] ==> matching[0] in matching;
    Success(|Window(matching, 0, 0)| > 0)
  }

  // ---------------------------------------------------------------- inquiries

  /** The id, names and email of a profile the select joins in. */
  datatype Party = Party(id: string, first_name: string, last_name: string, email: string)

  /** An inquiry's sender or recipient as the pages receive it: the signed-in user
      by id alone, a joined profile, or null. */
  datatype Contact = IdOnly(id: string) | Joined(party: Party) | NoContact

  /** A joined profile, or null when the join found none. */
  function ContactOf(o: Option<Party>): Contact {
    if o.Some? then Joined(o.value) else NoContact
  }

  /** A row of `inquiries`, with what the selects join in. */
  datatype InquiryRow = InquiryRow(
    id: string, property_id: string, sender_id: string, recipient_id: Option<string>,
    name: Option<string>, email: Option<string>, phone: Option<string>, message: string,
    inquiry_type: string, preferred_contact_method: string, status: string,
    response: Option<string>, responded_at: Option<string>, created_at: string,
    property: Option<Properties.Property>, sender: Option<Party>, recipient: Option<Party>)

  /** `Inquiry`. */
  datatype Inquiry = Inquiry(
    id: string, property: Option<Properties.Property>, sender: Contact, recipient: Contact,
    name: string, email: string, phone: Option<string>, message: string,
    inquiryType: string, preferredContactMethod: string, status: string,
    response: Option<string>, respondedAt: Option<string>, createdAt: string)

  type Inquiries = Result<seq<InquiryRow>, Error>

  /** The inquiry row mapper: a null name or email reads `''`, an empty phone,
      response or response time reads undefined; the rest is copied. */
  function InquiryOf(row: InquiryRow, sender: Contact, recipient: Contact): (r: Inquiry)
    ensures r.id == row.id && r.message == row.message && r.status == row.status && r.createdAt == row.created_at
    ensures r.sender == sender && r.recipient == recipient
    ensures r.property == row.property
    ensures r.inquiryType == row.inquiry_type && r.preferredContactMethod == row.preferred_contact_method
  {
    Inquiry(row.id, row.property, sender, recipient, OrEmpty(row.name), OrEmpty(row.email),
            NonEmpty(row.phone), row.message, row.inquiry_type, row.preferred_contact_method,
            row.status, NonEmpty(row.response), NonEmpty(row.responded_at), row.created_at)
  }

  /** The mapper loses nothing a non-empty field carries and reads every missing
      or empty one as the same default. */
  lemma InquiryFields(row: InquiryRow, sender: Contact, recipient: Contact)
    ensures var r := InquiryOf(row, sender, recipient);
      && (r.name == "" <==> !Given(row.name)) && (Given(row.name) ==> r.name == row.name.value)
      && (r.email == "" <==> !Given(row.email)) && (Given(row.email) ==> r.email == row.email.value)
      && (r.phone.None? <==> !Given(row.phone)) && (Given(row.phone) ==> r.phone == row.phone)
      && (r.response.None? <==> !Given(row.response)) && (Given(row.response) ==> r.response == row.response)
      && (r.respondedAt.None? <==> !Given(row.responded_at))
      && (Given(row.responded_at) ==> r.respondedAt == row.responded_at)
  {
  }

  function InquiryCreated(row: InquiryRow): Value { Str(row.created_at) }

  function SentBy(userId: string): InquiryRow -> bool {
    (row: InquiryRow) => row.sender_id == userId
  }

  function SentTo(userId: string): InquiryRow -> bool {
    (row: InquiryRow) => row.recipient_id == Some(userId)
  }

  /** A sent inquiry: the sender is the user, the recipient the joined profile. */
  function SentInquiry(userId: string, row: InquiryRow): Inquiry {
    InquiryOf(row, IdOnly(userId), ContactOf(row.recipient))
  }

  /** A received inquiry: the sender is the joined profile, the recipient the user. */
  function ReceivedInquiry(userId: string, row: InquiryRow): Inquiry {
    InquiryOf(row, ContactOf(row.sender), IdOnly(userId))
  }

  function AsSent(userId: string): InquiryRow -> Inquiry {
    (row: InquiryRow) => SentInquiry(userId, row)
  }

  function AsReceived(userId: string): InquiryRow -> Inquiry {
    (row: InquiryRow) => ReceivedInquiry(userId, row)
  }

  /** `getSentInquiries`: the user's sent inquiries, newest first. */
  function GetSentInquiries(identity: Identity, db: Inquiries): (r: Result<seq<Inquiry>, Error>)
    ensures CurrentUserId(identity).Failure? ==> r == Failure(CurrentUserId(identity).error)
    ensures r.Success? <==> CurrentUserId(identity).Success? && db.Success?
    ensures CurrentUserId(identity).Success? && db.Failure? ==> r == Failure(db.error)
  {
    var userId :- CurrentUserId(identity);
    var rows :- db;
    Success(MapAll(NewestFirst(rows, SentBy(userId), InquiryCreated), AsSent(userId)))
  }

  /** `getReceivedInquiries`: the inquiries sent to the user, newest first. */
  function GetReceivedInquiries(identity: Identity, db: Inquiries): (r: Result<seq<Inquiry>, Error>)
    ensures CurrentUserId(identity).Failure? ==> r == Failure(CurrentUserId(identity).error)
    ensures r.Success? <==> CurrentUserId(identity).Success? && db.Success?
    ensures CurrentUserId(identity).Success? && db.Failure? ==> r == Failure(db.error)
  {
    var userId :- CurrentUserId(identity);
    var rows :- db;
    Success(MapAll(NewestFirst(rows, SentTo(userId), InquiryCreated), AsReceived(userId)))
  }

  /** The sent list holds each inquiry the user sent, with the user as sender, and
      nothing else, newest first. */
  lemma GetSentInquiriesCorrect(identity: Identity, db: Inquiries)
    requires GetSentInquiries(identity, db).Success?
    ensures var userId := identity.value.value.id;
      var r := GetSentInquiries(identity, db).value;
      && |r| == |Filter(db.value, SentBy(userId))|
      && (forall row :: row in db.value && row.sender_id == userId ==> SentInquiry(userId, row) in r)
      && (forall i :: 0 <= i < |r| ==> (r[i].sender == IdOnly(userId)
            && exists row :: row in db.value && row.sender_id == userId && r[i] == SentInquiry(userId, row)))
      && (forall i :: 0 < i < |r| ==> Precedes(Str(r[i - 1].createdAt), Str(r[i].createdAt), false))
      && multiset(r) == multiset(MapAll(Filter(db.value, SentBy(userId)), AsSent(userId)))
  {
    var userId := identity.value.value.id;
    var f := AsSent(userId);
    NewestFirstCorrect(db.value, SentBy(userId), InquiryCreated, f);
    var listed := NewestFirst(db.value, SentBy(userId), InquiryCreated);
    var r := GetSentInquiries(identity, db).value;
    assert r == MapAll(listed, f);
    forall i | 0 <= i < |r|
      ensures exists row :: row in db.value && row.sender_id == userId && r[i] == SentInquiry(userId, row)
    {
      assert listed[i] in db.value && SentBy(userId)(listed[i]);
    }
  }

  /** The received list holds each inquiry addressed to the user, with the user as
      recipient, and nothing else, newest first. */
  lemma GetReceivedInquiriesCorrect(identity: Identity, db: Inquiries)
    requires GetReceivedInquiries(identity, db).Success?
    ensures var userId := identity.value.value.id;
      var r := GetReceivedInquiries(identity, db).value;
      && |r| == |Filter(db.value, SentTo(userId))|
      && (forall row :: row in db.value && row.recipient_id == Some(userId) ==> ReceivedInquiry(userId, row) in r)
      && (forall i :: 0 <= i < |r| ==> (r[i].recipient == IdOnly(userId)
            && exists row :: row in db.value && row.recipient_id == Some(userId) && r[i] == ReceivedInquiry(userId, row)))
      && (forall i :: 0 < i < |r| ==> Precedes(Str(r[i - 1].createdAt), Str(r[i].createdAt), false))
      && multiset(r) == multiset(MapAll(Filter(db.value, SentTo(userId)), AsReceived(userId)))
  {
    var userId := identity.value.value.id;
    var f := AsReceived(userId);
    NewestFirstCorrect(db.value, SentTo(userId), InquiryCreated, f);
    var listed := NewestFirst(db.value, SentTo(userId), InquiryCreated);
    var r := GetReceivedInquiries(identity, db).value;
    assert r == MapAll(listed, f);
    forall i | 0 <= i < |r|
      ensures exists row :: row in db.value && row.recipient_id == Some(userId) && r[i] == ReceivedInquiry(userId, row)
    {
      assert listed[i] in db.value && SentTo(userId)(listed[i]);
    }
  }

  /** What `createInquiry` is given. */
  datatype InquiryInput = InquiryInput(
    property: string, message: string, inquiryType: Option<string>,
    preferredContactMethod: Option<string>, name: Option<string>, email: Option<string>,
    phone: Option<string>)

  /** The `id, agent_id` select on `properties`. */
  datatype PropertyOwner = PropertyOwner(id: string, agent_id: Option<string>)

  /** The row `createInquiry` inserts. */
  datatype InquiryInsert = InquiryInsert(
    property_id: string, sender_id: string, recipient_id: Option<string>,
    name: Option<string>, email: Option<string>, phone: Option<string>, message: string,
    inquiry_type: string, preferred_contact_method: string, status: string)

  const General: string := "general"
  const ByEmail: string := "email"
  const New: string := "new"

  /** The insert payload: sent by the user to the property's agent, empty contact
      details stored as null, the type "general" and the contact method "email"
      unless given, and the status "new". */
  function InquiryPayload(userId: string, owner: PropertyOwner, data: InquiryInput): (r: InquiryInsert)
    ensures r.property_id == data.property && r.sender_id == userId && r.recipient_id == owner.agent_id
    ensures r.status == New && r.message == data.message
    ensures r.inquiry_type == if Given(data.inquiryType) then data.inquiryType.value else General
    ensures r.preferred_contact_method == if Given(data.preferredContactMethod) then data.preferredContactMethod.value else ByEmail
    ensures r.name.Some? <==> Given(data.name)
    ensures r.email.Some? <==> Given(data.email)
    ensures r.phone.Some? <==> Given(data.phone)
    ensures r.name.Some? ==> r.name == data.name
    ensures r.email.Some? ==> r.email == data.email
    ensures r.phone.Some? ==> r.phone == data.phone
  {
    InquiryInsert(
      data.property, userId, owner.agent_id,
      NonEmpty(data.name), NonEmpty(data.email), NonEmpty(data.phone), data.message,
      if Given(data.inquiryType) then data.inquiryType.value else General,
      if Given(data.preferredContactMethod) then data.preferredContactMethod.value else ByEmail,
      New)
  }

  /** The inquiry `createInquiry` returns: the contact details come from the input,
      the rest from the inserted row. */
  function CreatedInquiry(userId: string, data: InquiryInput, row: InquiryRow): Inquiry {
    SentInquiry(userId, row).(name := OrEmpty(data.name), email := OrEmpty(data.email),
                              phone := NonEmpty(data.phone))
  }

  /** `createInquiry`: the user first, then the property; no insert unless both are
      found; then the insert and the answer's row. */
  function CreateInquiry(identity: Identity, data: InquiryInput,
                         lookup: Result<Option<PropertyOwner>, Error>,
                         answer: Result<Option<InquiryRow>, Error>): (out: (Result<Inquiry, Error>, Option<InquiryInsert>))
    ensures CurrentUserId(identity).Failure? ==> out == (Failure(CurrentUserId(identity).error), None)
    ensures CurrentUserId(identity).Success? && lookup.Failure? ==> out == (Failure(lookup.error), None)
    ensures CurrentUserId(identity).Success? && lookup == Success(None) ==>
      out == (Failure(Thrown(Properties.PropertyNotFound)), None)
    ensures out.1.Some? <==> CurrentUserId(identity).Success? && lookup.Success? && lookup.value.Some?
    ensures out.1.Some? ==> out.1.value == InquiryPayload(identity.value.value.id, lookup.value.value, data)
    ensures out.0.Success? <==> out.1.Some? && answer.Success? && answer.value.Some?
    ensures out.0.Success? ==> out.0.value == CreatedInquiry(identity.value.value.id, data, answer.value.value)
    ensures out.1.Some? && answer == Success(None) ==> out.0 == Failure(Thrown("Failed to create inquiry"))
    ensures out.1.Some? && answer.Failure? ==> out.0 == Failure(answer.error)
  {
    match CurrentUserId(identity)
    case Failure(e) => (Failure(e), None)
    case Success(userId) =>
      match RowOr(lookup, Properties.PropertyNotFound)
      case Failure(e) => (Failure(e), None)
      case Success(owner) =>
        var payload := InquiryPayload(userId, owner, data);
        match RowOr(answer, "Failed to create inquiry")
        case Failure(e) => (Failure(e), Some(payload))
        case Success(row) => (Success(CreatedInquiry(userId, data, row)), Some(payload))
  }

  /** The row the database stores for a payload: no response yet. */
  function Stored(p: InquiryInsert, id: string, createdAt: string, property: Option<Properties.Property>,
                  recipient: Option<Party>): InquiryRow {
    InquiryRow(id, p.property_id, p.sender_id, p.recipient_id, p.name, p.email, p.phone, p.message,
               p.inquiry_type, p.preferred_contact_method, p.status, None, None, createdAt,
               property, None, recipient)
  }

  /** When the database answers with the row it stored, the new inquiry is from the
      user, "new", unanswered, of the type and contact method asked for (or the
      defaults), and shows the contact details given. */
  lemma CreateInquiryStored(identity: Identity, data: InquiryInput, owner: PropertyOwner, id: string,
                            createdAt: string, property: Option<Properties.Property>, recipient: Option<Party>)
    requires CurrentUserId(identity).Success?
    ensures var userId := identity.value.value.id;
      var payload := InquiryPayload(userId, owner, data);
      var (r, written) := CreateInquiry(identity, data, Success(Some(owner)),
                                        Success(Some(Stored(payload, id, createdAt, property, recipient))));
      && written == Some(payload)
      && r.Success?
      && r.value.sender == IdOnly(userId) && r.value.recipient == ContactOf(recipient)
      && r.value.status == New && r.value.message == data.message
      && r.value.response.None? && r.value.respondedAt.None?
      && r.value.inquiryType == (if Given(data.inquiryType) then data.inquiryType.value else General)
      && r.value.preferredContactMethod ==
           (if Given(data.preferredContactMethod) then data.preferredContactMethod.value else ByEmail)
      && r.value.name == OrEmpty(data.name) && r.value.email == OrEmpty(data.email)
      && r.value.phone == NonEmpty(data.phone)
  {
  }

  /** The update `updateInquiryStatus` sends. */
  datatype StatusUpdate = StatusUpdate(status: string, response: Option<string>, responded_at: Option<string>)

  /** The update: an empty response is stored as null, and the response time is
      `now` exactly when there is a response. */
  function StatusPayload(status: string, response: Option<string>, now: string): (r: StatusUpdate)
    ensures r.status == status
    ensures r.response.Some? <==> Given(response)
    ensures r.response.Some? ==> r.response == response
    ensures r.responded_at.Some? <==> Given(response)
    ensures r.responded_at.Some? ==> r.responded_at == Some(now)
  {
    StatusUpdate(status, NonEmpty(response), if Given(response) then Some(now) else None)
  }

  /** `updateInquiryStatus`: no user check; the update is always sent, and the
      answer's row is mapped without a sender, since the select does not ask for
      one. `now` is the current time as an ISO string. */
  function UpdateInquiryStatus(id: string, status: string, response: Option<string>, now: string,
                               answer: Result<Option<InquiryRow>, Error>): (out: (Result<Inquiry, Error>, StatusUpdate))
    ensures out.1 == StatusPayload(status, response, now)
    ensures out.0.Success? <==> answer.Success? && answer.value.Some?
    ensures out.0.Success? ==>
      out.0.value == InquiryOf(answer.value.value, NoContact, ContactOf(answer.value.value.recipient))
    ensures answer == Success(None) ==> out.0 == Failure(Thrown("Failed to update inquiry"))
    ensures answer.Failure? ==> out.0 == Failure(answer.error)
  {
    var payload := StatusPayload(status, response, now);
    match RowOr(answer, "Failed to update inquiry")
    case Failure(e) => (Failure(e), payload)
    case Success(row) => (Success(InquiryOf(row, NoContact, ContactOf(row.recipient))), payload)
  }

  /** An update applied to a row. */
  function Apply(row: InquiryRow, u: StatusUpdate): InquiryRow {
    row.(status := u.status, response := u.response, responded_at := u.responded_at)
  }

  /** When the database answers with the updated row, the inquiry shows the new
      status, the response given (none when empty), and a response time exactly
      when there is a response. */
  lemma UpdateInquiryStatusApplied(row: InquiryRow, status: string, response: Option<string>, now: string)
    requires now != ""
    ensures var u := StatusPayload(status, response, now);
      var (r, _) := UpdateInquiryStatus(row.id, status, response, now, Success(Some(Apply(row, u))));
      && r.Success? && r.value.status == status && r.value.sender == NoContact
      && r.value.response == NonEmpty(response)
      && (r.value.respondedAt.Some? <==> Given(response))
      && (Given(response) ==> r.value.respondedAt == Some(now))
  {
  }
}
