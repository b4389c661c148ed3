/** The identity-sync webhook: it reads either the identity provider's
    user event or a direct `{clerk_id, email, full_name}` record, picks the
    first email address, joins the name parts, and upserts the user keyed on
    `clerk_id`. */
module ClerkWebhook {
  import opened Common
  import opened Tables
  import opened Store

  /** An entry of `email_addresses`: only the address is read. */
  datatype EmailAddress = EmailAddress(emailAddress: Option<string>)

  /** The provider's user object in `data`. */
  datatype ClerkUserData = ClerkUserData(
    id: Option<string>,
    emailAddresses: Option<seq<EmailAddress>>,
    firstName: Option<string>,
    lastName: Option<string>)

  /** The request body read as JSON: the event's `data`, and the top-level
      fields of a direct record (a JSON value that is not an object reads as
      every field absent). */
  datatype ClerkBody = ClerkBody(
    data: Option<ClerkUserData>,
    clerkId: Option<string>,
    email: Option<string>,
    fullName: FullNameField)

  /** The body: not JSON (reading it throws); the JSON literal `null`
      (reading `body.data` throws); or a JSON value. */
  datatype ClerkRequest = Unparseable | JsonNull | Body(body: ClerkBody)

  /** The record to upsert. */
  datatype UserData = UserData(clerkId: Option<string>, email: Option<string>, fullName: FullNameField)

  /** What the payload normalisation yields. */
  datatype Normalized = Ok(user: UserData) | MissingEmail | BadStructure

  /** The answers of the webhook, each with its HTTP status. */
  datatype SyncResponse =
    | InternalError          // 500, an exception was caught
    | EmailRequired          // 400
    | InvalidStructure       // 400
    | IdsRequired            // 400
    | UpsertFailed           // 500
    | Synced                 // 200
  {
    function Code(): int
    {
      match this
      case InternalError => 500
      case EmailRequired => 400
      case InvalidStructure => 400
      case IdsRequired => 400
      case UpsertFailed => 500
      case Synced => 200
    }
  }

  /** The answer and the `users` table after the request. */
  datatype SyncResult = SyncResult(response: SyncResponse, users: seq<User>)

  /** The full name from the name parts: both joined by a space, or the one
      that is present; with neither it stays undefined. */
  function FullName(firstName: Option<string>, lastName: Option<string>): (r: FullNameField)
    ensures r == Omitted <==> !Truthy(firstName) && !Truthy(lastName)
    ensures r.Given? ==> r.name.Some?
    ensures Truthy(firstName) && Truthy(lastName) ==>
              var n := r.name.value;
              && |n| == |firstName.value| + 1 + |lastName.value|
              && n[..|firstName.value|] == firstName.value
              && n[|firstName.value|] == ' '
              && n[|firstName.value| + 1..] == lastName.value
    ensures Truthy(firstName) != Truthy(lastName) ==>
              r.name == if Truthy(firstName) then firstName else lastName
  {
    if Truthy(firstName) && Truthy(lastName) then Given(Some(firstName.value + " " + lastName.value))
    else if Truthy(firstName) then Given(firstName)
    else if Truthy(lastName) then Given(lastName)
    else Omitted
  }

  /** The email of an event: the first entry's address, or null when the
      list is missing or empty. */
  function FirstEmail(addresses: Option<seq<EmailAddress>>): Option<string>
  {
    match addresses
    case Some(list) => if |list| > 0 then list[0].emailAddress else None
    case None => None
  }

  /** The payload normalisation. Whatever it accepts carries a non-empty
      `clerk_id` and email, which makes the later check for them
      unreachable. */
  function Normalize(body: ClerkBody): (r: Normalized)
    ensures r.Ok? ==> Truthy(r.user.clerkId) && Truthy(r.user.email)
  {
    if body.data.Some? && Truthy(body.data.value.id) then
      var d := body.data.value;
      var email := FirstEmail(d.emailAddresses);
      if !Truthy(email) then MissingEmail
      else Ok(UserData(d.id, email, FullName(d.firstName, d.lastName)))
    else if Truthy(body.clerkId) && Truthy(body.email) then
      Ok(UserData(body.clerkId, body.email, body.fullName))
    else BadStructure
  }

  /** The webhook, as a function of the `users` table before the request. */
  function Sync(users: seq<User>, req: ClerkRequest, fault: bool, now: Timestamp): SyncResult
  {
    match req
    case Unparseable => SyncResult(InternalError, users)
    case JsonNull => SyncResult(InternalError, users)
    case Body(body) =>
      match Normalize(body)
      case MissingEmail => SyncResult(EmailRequired, users)
      case BadStructure => SyncResult(InvalidStructure, users)
      case Ok(d) =>
        if !Truthy(d.clerkId) || !Truthy(d.email) then SyncResult(IdsRequired, users)
        else
          match UpsertByClerkId(users, d.clerkId.value, d.email.value, d.fullName, now, fault)
          case Some(upserted) => SyncResult(Synced, upserted)
          case None => SyncResult(UpsertFailed, users)
  }

  /** The webhook against the store. */
  method HandleSync(db: Database, req: ClerkRequest, fault: bool, now: Timestamp) returns (response: SyncResponse)
    modifies db`users
    requires db.Valid()
    ensures db.Valid()
    ensures SyncResult(response, db.users) == Sync(old(db.users), req, fault, now)
  {
    if !req.Body? {
      return InternalError;
    }
    var userDataToUpsert := Normalize(req.body);
    if userDataToUpsert.MissingEmail? {
      return EmailRequired;
    }
    if userDataToUpsert.BadStructure? {
      return InvalidStructure;
    }
    var d := userDataToUpsert.user;
    if !Truthy(d.clerkId) || !Truthy(d.email) {
      return IdsRequired;
    }
    var ok := db.UpsertUser(d.clerkId.value, d.email.value, d.fullName, now, fault);
    return if ok then Synced else UpsertFailed;
  }

  // ------------------------------------------------------------ properties

  /** An event is read from `data`: its id, its first email address and
      its joined name; the top-level fields are then ignored. Without a
      usable first address it is refused with 400 and nothing is written. */
  lemma EventUsesFirstEmail(users: seq<User>, d: ClerkUserData, body: ClerkBody, fault: bool, now: Timestamp)
    requires body.data == Some(d) && Truthy(d.id)
    ensures Truthy(FirstEmail(d.emailAddresses)) ==>
              Normalize(body) == Ok(UserData(d.id, FirstEmail(d.emailAddresses), FullName(d.firstName, d.lastName)))
    ensures d.emailAddresses.None? || d.emailAddresses == Some([]) ==>
              Sync(users, Body(body), fault, now) == SyncResult(EmailRequired, users)
    ensures d.emailAddresses.Some? && |d.emailAddresses.value| > 0 ==>
              FirstEmail(d.emailAddresses) == d.emailAddresses.value[0].emailAddress
  {
  }

  /** A body without an event id is taken as a direct record when it has a
      `clerk_id` and an email, as it is; otherwise it is refused with 400
      and nothing is written. */
  lemma DirectRecordUsedAsIs(users: seq<User>, body: ClerkBody, fault: bool, now: Timestamp)
    requires body.data.None? || !Truthy(body.data.value.id)
    ensures Truthy(body.clerkId) && Truthy(body.email) ==>
              Normalize(body) == Ok(UserData(body.clerkId, body.email, body.fullName))
    ensures !(Truthy(body.clerkId) && Truthy(body.email)) ==>
              Sync(users, Body(body), fault, now) == SyncResult(InvalidStructure, users)
  {
  }

  /** The check for a missing `clerk_id` or email after normalisation
      never fires: no request is answered by it. */
  lemma IdsRequiredUnreachable(users: seq<User>, req: ClerkRequest, fault: bool, now: Timestamp)
    ensures Sync(users, req, fault, now).response != IdsRequired
  {
  }

  /** The webhook writes only when it answers 200; every other answer
      leaves `users` as it was. It keeps the unique constraints. */
  lemma SyncWritesOnlyOnSuccess(users: seq<User>, req: ClerkRequest, fault: bool, now: Timestamp)
    ensures var s := Sync(users, req, fault, now);
      && (s.response != Synced ==> s.users == users)
      && (s.response == Synced ==> UsersValid(s.users))
  {
  }

  /** A successful sync is keyed on `clerk_id`: afterwards exactly one user
      carries the identity, with the email and full name the request gave
      (unless the name was omitted) and, when it existed, its primary key;
      every user with another identity or none is unchanged, and no other
      row appears. */
  lemma SyncIsKeyedUpsert(users: seq<User>, req: ClerkRequest, fault: bool, now: Timestamp)
    requires UsersValid(users) && req.Body?
    requires Sync(users, req, fault, now).response == Synced
    ensures var d := Normalize(req.body).user;
      var cid := d.clerkId.value;
      var r := Sync(users, req, fault, now).users;
      && |Where(r, ByClerkId(cid))| == 1
      && (exists u | u in r ::
            && u.clerkId == Some(cid) && u.email == d.email.value && u.updatedAt == now
            && (d.fullName.Given? ==> u.fullName == d.fullName.name)
            && (forall v | v in users && v.clerkId == Some(cid) :: u.id == v.id))
      && (forall u | u in users && u.clerkId != Some(cid) :: u in r)
      && (forall u | u in r && u.clerkId != Some(cid) :: u in users)
  {
    var d := Normalize(req.body).user;
    UpsertByClerkIdKeyed(users, d.clerkId.value, d.email.value, d.fullName, now);
  }

  /** With no store error, a normalised request is synced exactly when its
      email is not already held by a user with another identity (or none);
      when it is, the sync fails with 500 and writes nothing. */
  lemma SyncOutcome(users: seq<User>, req: ClerkRequest, now: Timestamp)
    requires UsersValid(users) && req.Body? && Normalize(req.body).Ok?
    ensures var d := Normalize(req.body).user;
      var s := Sync(users, req, false, now);
      && (s.response == Synced <==> forall u | u in users && u.email == d.email.value :: u.clerkId == d.clerkId)
      && (s.response != Synced ==> s == SyncResult(UpsertFailed, users))
  {
    var d := Normalize(req.body).user;
    if forall u | u in users && u.email == d.email.value :: u.clerkId == d.clerkId {
      UpsertByClerkIdAccepts(users, d.clerkId.value, d.email.value, d.fullName, now);
    } else {
      var u :| u in users && u.email == d.email.value && u.clerkId != d.clerkId;
      UpsertByClerkIdRefuses(users, d.clerkId.value, d.email.value, d.fullName, now, u);
    }
  }

  /** The sync is idempotent: delivering the same event twice leaves the
      table as one delivery does (when both deliveries carry the same time
      and the store accepts both). */
  lemma SyncIdempotent(users: seq<User>, req: ClerkRequest, now: Timestamp)
    requires UsersValid(users)
    requires Sync(users, req, false, now).response == Synced
    ensures Sync(Sync(users, req, false, now).users, req, false, now) == Sync(users, req, false, now)
  {
    var d := Normalize(req.body).user;
    UpsertByClerkIdIdempotent(users, d.clerkId.value, d.email.value, d.fullName, now);
  }
}
