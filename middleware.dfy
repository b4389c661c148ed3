/** The request middleware: route classification, the mapping of the signed-in
    identity to an internal user, and the purchase gate that decides whether a
    request passes, is sent to `/sign-in` or is sent to `/`. */
module Middleware {
  import opened Common
  import opened Tables
  import opened Store
  import opened Identity

  /** What the middleware answers: let the request through, or redirect. */
  datatype Decision = Next | RedirectSignIn | RedirectHome

  /** Routes anyone may reach: the landing page and the two webhooks exactly,
      and everything under the sign-in and sign-up pages (`(.*)` patterns
      match any continuation of the prefix). */
  predicate IsPublicRoute(path: string)
  {
    || path == "/"
    || "/sign-in" <= path
    || "/sign-up" <= path
    || path == "/api/webhooks/clerk"
    || path == "/api/webhooks/lemonsqueezy"
  }

  /** Routes that require a linked internal user and are purchase-checked. */
  predicate IsProtectedRoute(path: string)
  {
    "/dashboard" <= path || "/api/leads" <= path
  }

  /** What the middleware sees of a request: its path, the session's
      identity-provider user id, and the primary email the provider reports
      for that user (null when it has none or the lookup failed). */
  datatype Request = Request(path: string, userId: Option<string>, primaryEmail: Option<string>)

  /** Store errors injected into the resolution and into the purchase count. */
  datatype MiddlewareFaults = MiddlewareFaults(resolve: ResolveFaults, count: bool)

  /** The decision and the `users` table after the request. */
  datatype Outcome = Outcome(decision: Decision, users: seq<User>)

  /** The middleware, as a function of the tables before the request. */
  function Gate(users: seq<User>, purchases: seq<Purchase>, req: Request, f: MiddlewareFaults, now: Timestamp): Outcome
  {
    if IsPublicRoute(req.path) then Outcome(Next, users)
    else if !Truthy(req.userId) then Outcome(Next, users)
    else if !IsProtectedRoute(req.path) then Outcome(Next, users)
    else
      var r := Resolve(users, req.userId.value, req.primaryEmail, f.resolve, now);
      if !Truthy(r.userId) then Outcome(RedirectSignIn, r.users)
      else
        match CountPurchases(purchases, r.userId.value, f.count)
        case None => Outcome(Next, r.users)
        case Some(count) =>
          if count == 0 && "/dashboard" <= req.path then Outcome(RedirectHome, r.users)
          else Outcome(Next, r.users)
  }

  /** The middleware against the store. */
  method Handle(db: Database, req: Request, f: MiddlewareFaults, now: Timestamp) returns (decision: Decision)
    modifies db`users
    requires db.Valid()
    ensures db.Valid()
    ensures Outcome(decision, db.users) == Gate(old(db.users), db.purchases, req, f, now)
  {
    if IsPublicRoute(req.path) || !Truthy(req.userId) || !IsProtectedRoute(req.path) {
      return Next;
    }
    var supabaseUserId := ResolveUser(db, req.userId.value, req.primaryEmail, f.resolve, now);
    if !Truthy(supabaseUserId) {
      return RedirectSignIn;
    }
    var purchaseCount := db.CountPurchasesOf(supabaseUserId.value, f.count);
    if purchaseCount.None? {
      return Next;
    }
    if purchaseCount.value == 0 && "/dashboard" <= req.path {
      return RedirectHome;
    }
    return Next;
  }

  // ------------------------------------------------------------ properties

  /** No route is both public and protected. */
  lemma PublicAndProtectedDisjoint(path: string)
    ensures !(IsPublicRoute(path) && IsProtectedRoute(path))
  {
    if "/dashboard" <= path {
      assert path[1] == 'd';
    }
    if "/api/leads" <= path {
      assert path[1] == 'a' && path[5] == 'l';
    }
  }

  /** A public route passes whoever asks, whatever the store holds, and
      writes nothing. */
  lemma PublicRoutePasses(users: seq<User>, purchases: seq<Purchase>, req: Request, f: MiddlewareFaults, now: Timestamp)
    requires IsPublicRoute(req.path)
    ensures Gate(users, purchases, req, f, now) == Outcome(Next, users)
  {
  }

  /** A request without a signed-in identity passes (the identity
      provider's own protection deals with it), and nothing is written. */
  lemma UnauthenticatedPasses(users: seq<User>, purchases: seq<Purchase>, req: Request, f: MiddlewareFaults, now: Timestamp)
    requires !Truthy(req.userId)
    ensures Gate(users, purchases, req, f, now) == Outcome(Next, users)
  {
  }

  /** A signed-in request to a route that is neither public nor protected
      passes without touching the store. */
  lemma UnlistedRoutePasses(users: seq<User>, purchases: seq<Purchase>, req: Request, f: MiddlewareFaults, now: Timestamp)
    requires !IsPublicRoute(req.path) && !IsProtectedRoute(req.path)
    ensures Gate(users, purchases, req, f, now) == Outcome(Next, users)
  {
  }

  /** The only write the middleware ever makes is the resolution's linking
      of one unlinked row; a linked row is never overwritten. */
  lemma GateOnlyLinks(users: seq<User>, purchases: seq<Purchase>, req: Request, f: MiddlewareFaults, now: Timestamp)
    requires UsersValid(users)
    ensures var o := Gate(users, purchases, req, f, now);
      && UsersValid(o.users)
      && |o.users| == |users|
      && (forall i | 0 <= i < |users| && users[i].clerkId.Some? :: o.users[i] == users[i])
      && (forall i | 0 <= i < |users| && o.users[i] != users[i] ::
            o.users[i] == users[i].(clerkId := req.userId, updatedAt := now))
  {
    if !IsPublicRoute(req.path) && Truthy(req.userId) && IsProtectedRoute(req.path) {
      ResolveOnlyLinks(users, req.userId.value, req.primaryEmail, f.resolve, now);
      ResolveSound(users, req.userId.value, req.primaryEmail, f.resolve, now);
    }
  }

  /** Conflict safety: a signed-in user with no linked row, whose primary
      email belongs to a row linked to another identity, is sent to
      `/sign-in` and that row is left alone. */
  lemma ConflictRedirectsToSignIn(users: seq<User>, purchases: seq<Purchase>, req: Request, f: MiddlewareFaults,
                                  now: Timestamp, u: User)
    requires UsersValid(users)
    requires !IsPublicRoute(req.path) && IsProtectedRoute(req.path) && Truthy(req.userId)
    requires forall v | v in users :: v.clerkId != req.userId
    requires req.primaryEmail.Some? && u in users && u.email == req.primaryEmail.value
    requires u.clerkId.Some? && u.clerkId != req.userId
    ensures Gate(users, purchases, req, f, now) == Outcome(RedirectSignIn, users)
  {
    ResolveConflictGrantsNothing(users, req.userId.value, req.primaryEmail.value, f.resolve, now, u);
  }

  /** The decision on a protected route once the user is resolved: an error
      on the purchase count fails open; otherwise the user is sent to `/`
      exactly when they have no purchase and the path is under
      `/dashboard`; every other case passes. */
  lemma PurchaseGate(users: seq<User>, purchases: seq<Purchase>, req: Request, f: MiddlewareFaults, now: Timestamp)
    requires !IsPublicRoute(req.path) && IsProtectedRoute(req.path) && Truthy(req.userId)
    requires Truthy(Resolve(users, req.userId.value, req.primaryEmail, f.resolve, now).userId)
    ensures var id := Resolve(users, req.userId.value, req.primaryEmail, f.resolve, now).userId.value;
      var d := Gate(users, purchases, req, f, now).decision;
      && (f.count ==> d == Next)
      && (!f.count ==> (d == RedirectHome <==>
            (forall p | p in purchases :: p.userId != Some(id)) && "/dashboard" <= req.path))
      && d != RedirectSignIn
  {
    var id := Resolve(users, req.userId.value, req.primaryEmail, f.resolve, now).userId.value;
    PurchaseCountZero(purchases, id);
  }

  /** A user without purchases can still call the leads API through the
      middleware: only `/dashboard` paths are purchase-redirected here. */
  lemma LeadsApiNeverRedirectedHome(users: seq<User>, purchases: seq<Purchase>, req: Request, f: MiddlewareFaults, now: Timestamp)
    requires "/api/leads" <= req.path
    ensures Gate(users, purchases, req, f, now).decision != RedirectHome
  {
    if "/api/leads" <= req.path {
      assert req.path[1] == 'a';
    }
  }

  /** An identity linked to a row passes a protected route with no store
      error as soon as its user holds a purchase. */
  lemma LinkedPayingUserPasses(users: seq<User>, purchases: seq<Purchase>, req: Request, f: MiddlewareFaults,
                               now: Timestamp, u: User, p: Purchase)
    requires UsersValid(users) && !f.resolve.byClerkId
    requires IsProtectedRoute(req.path) && !IsPublicRoute(req.path) && Truthy(req.userId)
    requires u in users && u.clerkId == req.userId
    requires p in purchases && p.userId == Some(u.id)
    ensures Gate(users, purchases, req, f, now) == Outcome(Next, users)
  {
    ResolveByClerkId(users, req.userId.value, req.primaryEmail, f.resolve, now, u);
    assert u.id != "" by {
      var k :| 0 <= k < |users| && users[k] == u;
    }
    PurchaseCountZero(purchases, u.id);
  }
}
