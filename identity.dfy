/** Mapping an identity-provider user id (the Clerk id) to an internal user,
    as both the request middleware and the leads list endpoint do it, step for
    step: look the user up by `clerk_id`; otherwise look the provider's primary
    email up and link that row when its `clerk_id` is null, accept it when it
    already carries the same id, refuse it when it carries another one. */
module Identity {
  import opened Common
  import opened Tables
  import opened Store

  /** Store errors injected into the three store calls of a resolution. */
  datatype ResolveFaults = ResolveFaults(byClerkId: bool, byEmail: bool, link: bool)

  /** The internal id found (null when none) and the `users` table after. */
  datatype Resolution = Resolution(userId: Option<string>, users: seq<User>)

  /** `primaryEmail` is what the provider's user lookup yields for the primary
      address; null stands for no such address and for a failed lookup. */
  function Resolve(users: seq<User>, clerkId: string, primaryEmail: Option<string>,
                   f: ResolveFaults, now: Timestamp): Resolution
  {
    match SelectSingle(users, ByClerkId(clerkId), f.byClerkId)
    case Row(u) => Resolution(Some(u.id), users)
    case _ =>
      if !Truthy(primaryEmail) then Resolution(None, users)
      else
        match SelectSingle(users, ByEmail(primaryEmail.value), f.byEmail)
        case Row(u) =>
          if u.clerkId.None? then
            match SetClerkId(users, u.id, clerkId, now, f.link)
            case Some(linked) => Resolution(Some(u.id), linked)
            case None => Resolution(None, users)
          else if u.clerkId == Some(clerkId) then Resolution(Some(u.id), users)
          else Resolution(None, users)
        case _ => Resolution(None, users)
  }

  /** The resolution step by step against the store, reassigning the
      resolved id as the handlers do. */
  method ResolveUser(db: Database, clerkId: string, primaryEmail: Option<string>,
                     f: ResolveFaults, now: Timestamp) returns (supabaseUserId: Option<string>)
    modifies db`users
    requires db.Valid()
    ensures db.Valid()
    ensures Resolution(supabaseUserId, db.users) == Resolve(old(db.users), clerkId, primaryEmail, f, now)
  {
    supabaseUserId := None;
    var byClerkId := db.SelectUser(ByClerkId(clerkId), f.byClerkId);
    if byClerkId.Row? {
      supabaseUserId := Some(byClerkId.row.id);
    } else if Truthy(primaryEmail) {
      var byEmail := db.SelectUser(ByEmail(primaryEmail.value), f.byEmail);
      if byEmail.Row? {
        if byEmail.row.clerkId.None? {
          supabaseUserId := db.LinkClerkId(byEmail.row.id, clerkId, now, f.link);
        } else if byEmail.row.clerkId == Some(clerkId) {
          supabaseUserId := Some(byEmail.row.id);
        }
      }
    }
  }

  // ------------------------------------------------------------ properties

  /** A user already linked to the identity is found by the first lookup and
      the table is left unchanged, whatever the email lookup would say. */
  lemma ResolveByClerkId(users: seq<User>, clerkId: string, primaryEmail: Option<string>,
                         f: ResolveFaults, now: Timestamp, u: User)
    requires UsersValid(users)
    requires u in users && u.clerkId == Some(clerkId)
    requires !f.byClerkId
    ensures Resolve(users, clerkId, primaryEmail, f, now) == Resolution(Some(u.id), users)
  {
    SelectSingleExact(users, ByClerkId(clerkId), u);
  }

  /** When no row carries the identity, the row holding the primary email
      with a null `clerk_id` is linked and returned: only its `clerk_id` and
      `updated_at` change. */
  lemma ResolveLinksUnclaimedEmail(users: seq<User>, clerkId: string, email: string,
                                   f: ResolveFaults, now: Timestamp, u: User)
    requires UsersValid(users)
    requires forall v | v in users :: v.clerkId != Some(clerkId)
    requires u in users && u.email == email && email != "" && u.clerkId.None?
    requires !f.byEmail && !f.link
    ensures var r := Resolve(users, clerkId, Some(email), f, now);
      && r.userId == Some(u.id)
      && |r.users| == |users|
      && (forall i | 0 <= i < |users| && users[i] != u :: r.users[i] == users[i])
      && (forall i | 0 <= i < |users| && users[i] == u :: r.users[i] == u.(clerkId := Some(clerkId), updatedAt := now))
  {
    SelectSingleExact(users, ByClerkId(clerkId), u);
    SelectSingleExact(users, ByEmail(email), u);
    SetClerkIdLinks(users, u, clerkId, now);
  }

  /** A row found by email that already carries the same identity is
      accepted without a write. */
  lemma ResolveAcceptsSameId(users: seq<User>, clerkId: string, email: string,
                             f: ResolveFaults, now: Timestamp, u: User)
    requires UsersValid(users)
    requires u in users && u.email == email && email != "" && u.clerkId == Some(clerkId)
    requires !f.byEmail
    ensures Resolve(users, clerkId, Some(email), f, now) == Resolution(Some(u.id), users)
  {
    SelectSingleExact(users, ByClerkId(clerkId), u);
    SelectSingleExact(users, ByEmail(email), u);
  }

  /** Conflict safety: when the primary email belongs to a row linked to
      another identity, nothing is resolved and nothing is written. */
  lemma ResolveConflictGrantsNothing(users: seq<User>, clerkId: string, email: string,
                                     f: ResolveFaults, now: Timestamp, u: User)
    requires UsersValid(users)
    requires f.byClerkId || forall v | v in users :: v.clerkId != Some(clerkId)
    requires u in users && u.email == email && u.clerkId.Some? && u.clerkId != Some(clerkId)
    ensures Resolve(users, clerkId, Some(email), f, now) == Resolution(None, users)
  {
    SelectSingleExact(users, ByClerkId(clerkId), u);
    SelectSingleExact(users, ByEmail(email), u);
  }

  /** What any resolution may write: the table keeps its length and every
      row stays as it was, except at most one row whose null `clerk_id`
      becomes the caller's identity. A linked row is never overwritten. */
  lemma ResolveOnlyLinks(users: seq<User>, clerkId: string, primaryEmail: Option<string>,
                         f: ResolveFaults, now: Timestamp)
    requires UsersValid(users)
    ensures var r := Resolve(users, clerkId, primaryEmail, f, now);
      && |r.users| == |users|
      && (forall i | 0 <= i < |users| && users[i].clerkId.Some? :: r.users[i] == users[i])
      && (forall i | 0 <= i < |users| && r.users[i] != users[i] ::
            && r.userId == Some(users[i].id)
            && r.users[i] == users[i].(clerkId := Some(clerkId), updatedAt := now))
  {
    if SelectSingle(users, ByClerkId(clerkId), f.byClerkId).NoRows? ||
       SelectSingle(users, ByClerkId(clerkId), f.byClerkId).Failed? {
      if Truthy(primaryEmail) {
        var e := SelectSingle(users, ByEmail(primaryEmail.value), f.byEmail);
        if e.Row? && e.row.clerkId.None? {
          var u := e.row;
          assert u in Where(users, ByEmail(primaryEmail.value));
          var k :| 0 <= k < |users| && users[k] == u;
          forall i | 0 <= i < |users| && users[i].id == u.id ensures i == k {
          }
        }
      }
    }
  }

  /** Soundness: a resolved id always names a row that, after the call,
      carries the caller's identity. */
  lemma ResolveSound(users: seq<User>, clerkId: string, primaryEmail: Option<string>,
                     f: ResolveFaults, now: Timestamp)
    requires UsersValid(users)
    ensures var r := Resolve(users, clerkId, primaryEmail, f, now);
      && UsersValid(r.users)
      && (r.userId.Some? ==> exists u | u in r.users :: u.id == r.userId.value && u.clerkId == Some(clerkId))
  {
    var r := Resolve(users, clerkId, primaryEmail, f, now);
    var q := SelectSingle(users, ByClerkId(clerkId), f.byClerkId);
    if q.Row? {
      assert q.row in Where(users, ByClerkId(clerkId));
    } else if Truthy(primaryEmail) {
      var e := SelectSingle(users, ByEmail(primaryEmail.value), f.byEmail);
      if e.Row? {
        var u := e.row;
        assert u in Where(users, ByEmail(primaryEmail.value));
        if u.clerkId.None? && r.userId.Some? {
          var k :| 0 <= k < |users| && users[k] == u;
          assert r.users[k].id == u.id && r.users[k].clerkId == Some(clerkId);
          assert r.users[k] in r.users;
        }
      }
    }
  }

  /** Linking is monotonic: once an identity resolves, any later resolution
      of it (with any email, at any time) succeeds on the `clerk_id` lookup,
      returns the same user and writes nothing. */
  lemma ResolveMonotonic(users: seq<User>, clerkId: string, primaryEmail: Option<string>,
                         f: ResolveFaults, now: Timestamp,
                         laterEmail: Option<string>, later: ResolveFaults, laterNow: Timestamp)
    requires UsersValid(users)
    requires Resolve(users, clerkId, primaryEmail, f, now).userId.Some?
    requires !later.byClerkId
    ensures var r := Resolve(users, clerkId, primaryEmail, f, now);
      Resolve(r.users, clerkId, laterEmail, later, laterNow) == Resolution(r.userId, r.users)
  {
    var r := Resolve(users, clerkId, primaryEmail, f, now);
    ResolveSound(users, clerkId, primaryEmail, f, now);
    var u :| u in r.users && u.id == r.userId.value && u.clerkId == Some(clerkId);
    ResolveByClerkId(r.users, clerkId, laterEmail, later, laterNow, u);
  }
}
