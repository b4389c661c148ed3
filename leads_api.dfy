/** The leads endpoint. GET maps the caller to an internal user (the same
    resolution as the middleware), checks that the user has a purchase and
    returns the user's leads, newest first. POST finds the caller by
    `clerk_id` only, validates the body and inserts a lead built from it. */
module LeadsApi {
  import opened Common
  import opened Tables
  import opened Store
  import opened Identity
  import Middleware

  // ------------------------------------------------------------------ GET

  /** The columns GET selects: every column but `user_id`, `phone` and
      `updated_at`. */
  datatype LeadSummary = LeadSummary(
    id: string,
    name: string,
    companyName: Option<string>,
    email: Option<string>,
    status: string,
    lastContactedAt: Option<Timestamp>,
    source: Option<string>,
    notes: Option<string>,
    createdAt: Timestamp)

  function Summary(l: Lead): LeadSummary
  {
    LeadSummary(l.id, l.name, l.companyName, l.email, l.status, l.lastContactedAt, l.source, l.notes, l.createdAt)
  }

  function Summaries(leads: seq<Lead>): seq<LeadSummary>
  {
    seq(|leads|, i requires 0 <= i < |leads| => Summary(leads[i]))
  }

  /** The answers of GET, each with its HTTP status. */
  datatype GetResponse =
    | Unauthorized                         // 401
    | UserNotFound                         // 404
    | StatusCheckFailed                    // 500, the purchase count failed
    | PurchaseRequired                     // 403
    | ListFailed                           // 500, the leads select failed
    | Leads(rows: seq<LeadSummary>)        // 200
  {
    function Code(): int
    {
      match this
      case Unauthorized => 401
      case UserNotFound => 404
      case StatusCheckFailed => 500
      case PurchaseRequired => 403
      case ListFailed => 500
      case Leads(_) => 200
    }
  }

  /** Store errors injected into the resolution, the count and the list. */
  datatype GetFaults = GetFaults(resolve: ResolveFaults, count: bool, list: bool)

  /** The answer and the `users` table after the request. */
  datatype GetResult = GetResult(response: GetResponse, users: seq<User>)

  /** GET, as a function of the tables before the request; `userId` is the
      session's identity and `primaryEmail` what the provider reports. */
  function Get(users: seq<User>, purchases: seq<Purchase>, leads: seq<Lead>, userId: Option<string>,
               primaryEmail: Option<string>, f: GetFaults, now: Timestamp): GetResult
  {
    if !Truthy(userId) then GetResult(Unauthorized, users)
    else
      var r := Resolve(users, userId.value, primaryEmail, f.resolve, now);
      if !Truthy(r.userId) then GetResult(UserNotFound, r.users)
      else
        match CountPurchases(purchases, r.userId.value, f.count)
        case None => GetResult(StatusCheckFailed, r.users)
        case Some(count) =>
          if count == 0 then GetResult(PurchaseRequired, r.users)
          else if f.list then GetResult(ListFailed, r.users)
          else GetResult(Leads(Summaries(OwnerListing(leads, r.userId.value))), r.users)
  }

  /** GET against the store. */
  method HandleGet(db: Database, userId: Option<string>, primaryEmail: Option<string>, f: GetFaults, now: Timestamp)
    returns (response: GetResponse)
    modifies db`users
    requires db.Valid()
    ensures db.Valid()
    ensures GetResult(response, db.users) == Get(old(db.users), db.purchases, db.leads, userId, primaryEmail, f, now)
  {
    if !Truthy(userId) {
      return Unauthorized;
    }
    var supabaseUserId := ResolveUser(db, userId.value, primaryEmail, f.resolve, now);
    if !Truthy(supabaseUserId) {
      return UserNotFound;
    }
    var purchaseCount := db.CountPurchasesOf(supabaseUserId.value, f.count);
    if purchaseCount.None? {
      return StatusCheckFailed;
    }
    if purchaseCount.value == 0 {
      return PurchaseRequired;
    }
    var rows := db.SelectLeadsOf(supabaseUserId.value, f.list);
    if rows.None? {
      return ListFailed;
    }
    return Leads(Summaries(rows.value));
  }

  /** Without a session GET answers 401 whatever the store holds, and
      writes nothing. */
  lemma GetUnauthorized(users: seq<User>, purchases: seq<Purchase>, leads: seq<Lead>, userId: Option<string>,
                        primaryEmail: Option<string>, f: GetFaults, now: Timestamp)
    requires !Truthy(userId)
    ensures Get(users, purchases, leads, userId, primaryEmail, f, now) == GetResult(Unauthorized, users)
  {
  }

  /** GET answers 404 exactly when the resolution yields no internal id. */
  lemma GetNotFoundIffUnresolved(users: seq<User>, purchases: seq<Purchase>, leads: seq<Lead>, userId: Option<string>,
                                 primaryEmail: Option<string>, f: GetFaults, now: Timestamp)
    ensures var g := Get(users, purchases, leads, userId, primaryEmail, f, now);
      g.response == UserNotFound <==>
        Truthy(userId) && !Truthy(Resolve(users, userId.value, primaryEmail, f.resolve, now).userId)
  {
  }

  /** A conflict (the caller's email belongs to a row linked to another
      identity and no row carries the caller's identity) grants nothing and
      writes nothing. */
  lemma GetConflictGrantsNothing(users: seq<User>, purchases: seq<Purchase>, leads: seq<Lead>, userId: Option<string>,
                                 f: GetFaults, now: Timestamp, u: User)
    requires UsersValid(users) && Truthy(userId)
    requires forall v | v in users :: v.clerkId != userId
    requires u in users && u.clerkId.Some? && u.clerkId != userId
    ensures Get(users, purchases, leads, userId, Some(u.email), f, now) == GetResult(UserNotFound, users)
  {
    ResolveConflictGrantsNothing(users, userId.value, u.email, f.resolve, now, u);
  }

  /** The purchase gate is ordered: for a resolved caller, a failed count
      answers 500, then a count of zero answers 403, and only then is the
      leads table read; what comes out before that does not depend on the
      leads table at all. */
  lemma GetGateOrder(users: seq<User>, purchases: seq<Purchase>, leads: seq<Lead>, other: seq<Lead>,
                     userId: Option<string>, primaryEmail: Option<string>, f: GetFaults, now: Timestamp)
    requires Truthy(userId)
    requires Truthy(Resolve(users, userId.value, primaryEmail, f.resolve, now).userId)
    ensures var id := Resolve(users, userId.value, primaryEmail, f.resolve, now).userId.value;
      var g := Get(users, purchases, leads, userId, primaryEmail, f, now);
      && (g.response == StatusCheckFailed <==> f.count)
      && (g.response == PurchaseRequired <==> !f.count && forall p | p in purchases :: p.userId != Some(id))
      && (!g.response.Leads? && !g.response.ListFailed? ==>
            g == Get(users, purchases, other, userId, primaryEmail, f, now))
  {
    var id := Resolve(users, userId.value, primaryEmail, f.resolve, now).userId.value;
    PurchaseCountZero(purchases, id);
  }

  /** A successful GET lists exactly the caller's leads (as summaries),
      newest first: the listing is sorted by `created_at` descending, is a
      permutation of the caller's rows and holds no row of anyone else. */
  lemma GetListsOwnLeadsNewestFirst(users: seq<User>, purchases: seq<Purchase>, leads: seq<Lead>, userId: Option<string>,
                                    primaryEmail: Option<string>, f: GetFaults, now: Timestamp)
    requires Get(users, purchases, leads, userId, primaryEmail, f, now).response.Leads?
    ensures var id := Resolve(users, userId.value, primaryEmail, f.resolve, now).userId.value;
      var rows := Get(users, purchases, leads, userId, primaryEmail, f, now).response.rows;
      exists listing: seq<Lead> ::
        && rows == Summaries(listing)
        && NewestFirst(listing)
        && multiset(listing) == multiset(Owned(leads, id))
        && (forall l :: l in listing <==> l in leads && l.userId == id)
  {
    var id := Resolve(users, userId.value, primaryEmail, f.resolve, now).userId.value;
    OwnerListingCorrect(leads, id);
  }

  /** GET and the middleware resolve alike: on a leads path, GET answers
      404 exactly when the middleware redirects to `/sign-in`, both leave the
      same `users` table, and a 200 is only given to requests the middleware
      lets through. */
  lemma GetAgreesWithMiddleware(users: seq<User>, purchases: seq<Purchase>, leads: seq<Lead>, path: string,
                                userId: Option<string>, primaryEmail: Option<string>, f: GetFaults, now: Timestamp)
    requires "/api/leads" <= path
    requires Truthy(userId)
    ensures var req := Middleware.Request(path, userId, primaryEmail);
      var m := Middleware.Gate(users, purchases, req, Middleware.MiddlewareFaults(f.resolve, f.count), now);
      var g := Get(users, purchases, leads, userId, primaryEmail, f, now);
      && (g.response == UserNotFound <==> m.decision == Middleware.RedirectSignIn)
      && g.users == m.users
      && (g.response.Leads? ==> m.decision == Middleware.Next)
  {
    Middleware.PublicAndProtectedDisjoint(path);
  }

  /** A request that the middleware has let through to the list endpoint
      is resolved again by GET on the `clerk_id` lookup: GET finds the same
      user and writes nothing more. */
  lemma GetAfterMiddlewareWritesNothing(users: seq<User>, purchases: seq<Purchase>, leads: seq<Lead>, path: string,
                                        userId: Option<string>, primaryEmail: Option<string>,
                                        mf: Middleware.MiddlewareFaults, f: GetFaults, now: Timestamp, later: Timestamp)
    requires UsersValid(users)
    requires "/api/leads" <= path && Truthy(userId) && !f.resolve.byClerkId
    requires Middleware.Gate(users, purchases, Middleware.Request(path, userId, primaryEmail), mf, now).decision
             != Middleware.RedirectSignIn
    ensures var m := Middleware.Gate(users, purchases, Middleware.Request(path, userId, primaryEmail), mf, now);
      && Get(m.users, purchases, leads, userId, primaryEmail, f, later).users == m.users
      && Get(m.users, purchases, leads, userId, primaryEmail, f, later).response != UserNotFound
  {
    Middleware.PublicAndProtectedDisjoint(path);
    ResolveMonotonic(users, userId.value, primaryEmail, mf.resolve, now, primaryEmail, f.resolve, later);
  }

  // ----------------------------------------------------------------- POST

  /** The body fields POST reads; each is absent, `null` or a string. */
  datatype PostBody = PostBody(
    name: Option<string>,
    companyName: Option<string>,
    email: Option<string>,
    status: Option<string>,
    source: Option<string>,
    notes: Option<string>,
    phone: Option<string>)

  /** The request body: not JSON; the JSON literal `null` (destructuring it
      throws); or a JSON value whose fields are read (a value that is not an
      object reads as all fields absent). */
  datatype JsonBody = Unparseable | JsonNull | Object(body: PostBody)

  /** The answers of POST, each with its HTTP status. */
  datatype PostResponse =
    | SessionMissing                        // 401
    | UserMissing                           // 404
    | InvalidBody                           // 400
    | NameRequired                          // 400
    | CreateFailed                          // 500, the insert failed
    | Created(lead: Lead)                   // 201
    | InternalError                         // 500, an exception escaped
  {
    function Code(): int
    {
      match this
      case SessionMissing => 401
      case UserMissing => 404
      case InvalidBody => 400
      case NameRequired => 400
      case CreateFailed => 500
      case Created(_) => 201
      case InternalError => 500
    }
  }

  /** Store errors injected into the user lookup and the insert. */
  datatype PostFaults = PostFaults(lookup: bool, insert: bool)

  /** The answer and the `leads` table after the request. */
  datatype PostResult = PostResult(response: PostResponse, leads: seq<Lead>)

  /** The record POST inserts: the caller as owner, the name as given, the
      status as given or `Leads` when falsy, every other falsy field null. */
  function NewLead(ownerId: string, id: string, body: PostBody, now: Timestamp): (l: Lead)
    requires Truthy(body.name)
    ensures l.userId == ownerId && l.id == id && l.name == body.name.value && l.name != ""
    ensures l.status == (if Truthy(body.status) then body.status.value else "Leads") && l.status != ""
    ensures Truthy(l.companyName) == Truthy(body.companyName) && (Truthy(l.companyName) ==> l.companyName == body.companyName)
    ensures Truthy(l.email) == Truthy(body.email) && (Truthy(l.email) ==> l.email == body.email)
    ensures Truthy(l.phone) == Truthy(body.phone) && (Truthy(l.phone) ==> l.phone == body.phone)
    ensures Truthy(l.source) == Truthy(body.source) && (Truthy(l.source) ==> l.source == body.source)
    ensures Truthy(l.notes) == Truthy(body.notes) && (Truthy(l.notes) ==> l.notes == body.notes)
    ensures l.companyName != Some("") && l.email != Some("") && l.phone != Some("")
    ensures l.source != Some("") && l.notes != Some("")
    ensures l.lastContactedAt.None? && l.createdAt == now && l.updatedAt == now
  {
    Lead(id, ownerId, body.name.value, OrNull(body.companyName), OrNull(body.email), OrNull(body.phone),
         if Truthy(body.status) then body.status.value else "Leads",
         OrNull(body.source), OrNull(body.notes), None, now, now)
  }

  /** POST, as a function of the tables before the request. */
  function Post(users: seq<User>, leads: seq<Lead>, userId: Option<string>, json: JsonBody, f: PostFaults,
                now: Timestamp): PostResult
  {
    if !Truthy(userId) then PostResult(SessionMissing, leads)
    else
      match SelectSingle(users, ByClerkId(userId.value), f.lookup)
      case Row(u) =>
        (match json
         case Unparseable => PostResult(InvalidBody, leads)
         case JsonNull => PostResult(InternalError, leads)
         case Object(body) =>
           if !Truthy(body.name) then PostResult(NameRequired, leads)
           else
             var l := NewLead(u.id, NewKey(LeadIds(leads)), body, now);
             match InsertLead(leads, l, f.insert)
             case Some(inserted) => PostResult(Created(l), inserted)
             case None => PostResult(CreateFailed, leads))
      case _ => PostResult(UserMissing, leads)
  }

  /** POST against the store. */
  method HandlePost(db: Database, userId: Option<string>, json: JsonBody, f: PostFaults, now: Timestamp)
    returns (response: PostResponse)
    modifies db`leads
    requires db.Valid()
    ensures db.Valid()
    ensures PostResult(response, db.leads) == Post(db.users, old(db.leads), userId, json, f, now)
  {
    if !Truthy(userId) {
      return SessionMissing;
    }
    var userData := db.SelectUser(ByClerkId(userId.value), f.lookup);
    if !userData.Row? {
      return UserMissing;
    }
    if json.Unparseable? {
      return InvalidBody;
    }
    if json.JsonNull? {
      return InternalError;
    }
    if !Truthy(json.body.name) {
      return NameRequired;
    }
    var leadData := NewLead(userData.row.id, NewKey(LeadIds(db.leads)), json.body, now);
    var ok := db.InsertLeadRow(leadData, f.insert);
    if !ok {
      return CreateFailed;
    }
    return Created(leadData);
  }

  /** POST never links accounts: a caller whose identity no row carries is
      answered 404 whatever the body, and nothing is written, even when a
      row with the caller's email is waiting to be linked. */
  lemma PostRequiresLinkedUser(users: seq<User>, leads: seq<Lead>, userId: Option<string>, json: JsonBody,
                               f: PostFaults, now: Timestamp)
    requires UsersValid(users) && Truthy(userId)
    requires forall v | v in users :: v.clerkId != userId
    ensures Post(users, leads, userId, json, f, now) == PostResult(UserMissing, leads)
  {
    var u: User :| true;
    SelectSingleExact(users, ByClerkId(userId.value), u);
  }

  /** POST writes exactly when it answers 201, and then appends exactly the
      lead it answers with; every other answer leaves the table as it was. */
  lemma PostWritesOnlyOnCreate(users: seq<User>, leads: seq<Lead>, userId: Option<string>, json: JsonBody,
                               f: PostFaults, now: Timestamp)
    ensures var p := Post(users, leads, userId, json, f, now);
      && (p.response.Created? ==> p.leads == leads + [p.response.lead])
      && (!p.response.Created? ==> p.leads == leads)
      && (p.response.Created? <==> p.leads != leads)
  {
    var p := Post(users, leads, userId, json, f, now);
    if p.response.Created? {
      assert |p.leads| == |leads| + 1;
    }
  }

  /** A caller carrying a linked row, with a named body and no store error,
      gets 201 and a new lead owned by them under a fresh key; the status is
      stored as given (it is not checked against the board's columns) or
      `Leads` when absent; the table keeps its primary key. */
  lemma PostCreates(users: seq<User>, leads: seq<Lead>, userId: Option<string>, body: PostBody, now: Timestamp, u: User)
    requires UsersValid(users) && LeadsValid(leads)
    requires Truthy(userId) && u in users && u.clerkId == userId
    requires Truthy(body.name)
    ensures var p := Post(users, leads, userId, Object(body), PostFaults(false, false), now);
      && p.response.Created?
      && p.leads == leads + [p.response.lead]
      && LeadsValid(p.leads)
      && p.response.lead.userId == u.id
      && p.response.lead.id !in LeadIds(leads)
      && p.response.lead.name == body.name.value
      && p.response.lead.status == (if Truthy(body.status) then body.status.value else "Leads")
  {
    SelectSingleExact(users, ByClerkId(userId.value), u);
    InsertLeadFresh(leads, NewLead(u.id, NewKey(LeadIds(leads)), body, now));
  }

  /** The body is checked before anything is written: a body that is not
      JSON answers 400, a body without a name answers 400, and neither
      writes. */
  lemma PostRejectsBadBody(users: seq<User>, leads: seq<Lead>, userId: Option<string>, json: JsonBody,
                           f: PostFaults, now: Timestamp)
    requires Truthy(userId) && SelectSingle(users, ByClerkId(userId.value), f.lookup).Row?
    ensures json.Unparseable? ==> Post(users, leads, userId, json, f, now) == PostResult(InvalidBody, leads)
    ensures json.Object? && !Truthy(json.body.name) ==>
              Post(users, leads, userId, json, f, now) == PostResult(NameRequired, leads)
  {
  }
}
