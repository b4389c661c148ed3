/** The store's three tables as in-memory values: their rows, the unique
    constraints the store enforces, and the queries and writes the handlers
    issue (a `.single()` select, the linking update, the upsert on
    `clerk_id`, the inserts, the purchase count and the owner's lead list). */
module Tables {
  import opened Common
  import LemonSqueezyEvent

  /** A row of `users`. `clerkId` is null for a user not yet linked to an
      identity-provider account. */
  datatype User = User(
    id: string,
    clerkId: Option<string>,
    email: string,
    fullName: Option<string>,
    updatedAt: Timestamp)

  /** A row of `purchases`; `userId` is null when no user had the payer's
      email. `rawPayload` is the audit copy of the parsed event. */
  datatype Purchase = Purchase(
    orderId: string,
    userId: Option<string>,
    userEmail: string,
    productName: string,
    totalAmount: int,
    currency: string,
    status: string,
    rawPayload: LemonSqueezyEvent.Payload)

  /** A row of `leads`, owned by the user `userId`. */
  datatype Lead = Lead(
    id: string,
    userId: string,
    name: string,
    companyName: Option<string>,
    email: Option<string>,
    phone: Option<string>,
    status: string,
    source: Option<string>,
    notes: Option<string>,
    lastContactedAt: Option<Timestamp>,
    createdAt: Timestamp,
    updatedAt: Timestamp)

  /** The outcome of a select ending in `.single()`: exactly one row; the
      "no rows" error PGRST116 (zero rows, or more than one); any other
      store error. */
  datatype Single<T> = Row(row: T) | NoRows | Failed

  /** The `users` columns the handlers filter on with `.eq(...)`. */
  datatype UserColumn = ById(id: string) | ByClerkId(clerkId: string) | ByEmail(email: string)

  predicate Matches(u: User, c: UserColumn)
  {
    match c
    case ById(id) => u.id == id
    case ByClerkId(cid) => u.clerkId == Some(cid)
    case ByEmail(e) => u.email == e
  }

  /** The constraints on `users`: a non-empty primary key, at most one row per
      email and at most one row per non-null `clerk_id`. */
  predicate UsersValid(users: seq<User>)
  {
    && (forall i | 0 <= i < |users| :: users[i].id != "")
    && (forall i, j | 0 <= i < j < |users| ::
          && users[i].id != users[j].id
          && users[i].email != users[j].email
          && (users[i].clerkId.None? || users[i].clerkId != users[j].clerkId))
  }

  /** `order_id` is the idempotency key of `purchases`. */
  predicate PurchasesValid(purchases: seq<Purchase>)
  {
    forall i, j | 0 <= i < j < |purchases| :: purchases[i].orderId != purchases[j].orderId
  }

  /** `id` is the primary key of `leads`. */
  predicate LeadsValid(leads: seq<Lead>)
  {
    forall i, j | 0 <= i < j < |leads| :: leads[i].id != leads[j].id
  }

  // ---------------------------------------------------------------- users

  /** The rows a `.eq(column, value)` filter selects, in table order. */
  function Where(users: seq<User>, c: UserColumn): (r: seq<User>)
    ensures forall u :: u in r <==> u in users && Matches(u, c)
  {
    if users == [] then []
    else (if Matches(users[0], c) then [users[0]] else []) + Where(users[1..], c)
  }

  /** Under the constraints every filter on a unique column selects at most
      one row, which is what makes `.single()` well defined. */
  lemma {:induction false} WhereUnique(users: seq<User>, c: UserColumn)
    requires UsersValid(users)
    ensures |Where(users, c)| <= 1
  {
    if users != [] {
      var tail := users[1..];
      assert UsersValid(tail) by {
        forall i, j | 0 <= i < j < |tail|
          ensures tail[i].id != tail[j].id && tail[i].email != tail[j].email
          ensures tail[i].clerkId.None? || tail[i].clerkId != tail[j].clerkId
        {
          assert tail[i] == users[i + 1] && tail[j] == users[j + 1];
        }
      }
      WhereUnique(tail, c);
      if Matches(users[0], c) {
        forall u | u in tail ensures !Matches(u, c) {
          var j :| 0 <= j < |tail| && tail[j] == u;
          assert users[j + 1] == u;
        }
        WhereNone(tail, c);
      }
    }
  }

  lemma {:induction false} WhereNone(users: seq<User>, c: UserColumn)
    requires forall u | u in users :: !Matches(u, c)
    ensures Where(users, c) == []
  {
    if users != [] {
      assert users[0] in users;
      assert forall u | u in users[1..] :: u in users;
      WhereNone(users[1..], c);
    }
  }

  /** A `.single()` select on `users`; `fault` injects a store error. */
  function SelectSingle(users: seq<User>, c: UserColumn, fault: bool): Single<User>
  {
    if fault then Failed
    else
      var m := Where(users, c);
      if |m| == 1 then Row(m[0]) else NoRows
  }

  /** Without a store error, `.single()` on a unique column returns exactly
      the row holding the value, and reports "no rows" exactly when no row
      holds it. */
  lemma SelectSingleExact(users: seq<User>, c: UserColumn, u: User)
    requires UsersValid(users)
    ensures SelectSingle(users, c, false) == Row(u) <==> u in users && Matches(u, c)
    ensures SelectSingle(users, c, false) == NoRows <==> forall v | v in users :: !Matches(v, c)
  {
    var m := Where(users, c);
    WhereUnique(users, c);
    if |m| == 1 {
      assert m[0] in m;
    }
    if u in users && Matches(u, c) {
      assert u in m;
    }
    if exists v | v in users :: Matches(v, c) {
      var v :| v in users && Matches(v, c);
      assert v in m;
    }
  }

  /** The primary keys of `users`, in table order. */
  function UserIds(users: seq<User>): seq<string>
  {
    seq(|users|, i requires 0 <= i < |users| => users[i].id)
  }

  /** The first row a filter selects. */
  function FindIndex(users: seq<User>, c: UserColumn): (r: Option<nat>)
    ensures r.Some? ==> r.value < |users| && Matches(users[r.value], c)
    ensures r.None? ==> forall u | u in users :: !Matches(u, c)
  {
    if users == [] then None
    else if Matches(users[0], c) then Some(0)
    else match FindIndex(users[1..], c)
      case Some(i) => Some(i + 1)
      case None => None
  }

  /** The linking update `update({clerk_id, updated_at}).eq('id', id)
      .select('id').single()`. `None` is the error the store returns: an
      injected fault, no row with that id, or a violated unique constraint. */
  function SetClerkId(users: seq<User>, id: string, clerkId: string, now: Timestamp, fault: bool): Option<seq<User>>
  {
    if fault || |Where(users, ById(id))| != 1 then None
    else
      var updated := seq(|users|, i requires 0 <= i < |users| =>
        if users[i].id == id then users[i].(clerkId := Some(clerkId), updatedAt := now) else users[i]);
      if UsersValid(updated) then Some(updated) else None
  }

  /** Linking an unlinked row to an identity no row carries always succeeds,
      changes that row's `clerkId` and `updatedAt` only, and keeps every
      other row as it was. */
  lemma SetClerkIdLinks(users: seq<User>, u: User, clerkId: string, now: Timestamp)
    requires UsersValid(users)
    requires u in users && u.clerkId.None?
    requires forall v | v in users :: v.clerkId != Some(clerkId)
    ensures SetClerkId(users, u.id, clerkId, now, false).Some?
    ensures var linked := SetClerkId(users, u.id, clerkId, now, false).value;
      && |linked| == |users|
      && (forall i | 0 <= i < |users| && users[i] != u :: linked[i] == users[i])
      && (forall i | 0 <= i < |users| && users[i] == u :: linked[i] == u.(clerkId := Some(clerkId), updatedAt := now))
  {
    SelectSingleExact(users, ById(u.id), u);
    var updated := seq(|users|, i requires 0 <= i < |users| =>
      if users[i].id == u.id then users[i].(clerkId := Some(clerkId), updatedAt := now) else users[i]);
    assert UsersValid(updated) by {
      forall i, j | 0 <= i < j < |updated|
        ensures updated[i].clerkId.None? || updated[i].clerkId != updated[j].clerkId
      {
        assert users[j] in users && users[i] in users;
      }
    }
  }

  /** The `full_name` of an upserted row: an undefined value is dropped from
      the request, so the column is left out; otherwise it is set, possibly
      to null. */
  datatype FullNameField = Omitted | Given(name: Option<string>)

  /** The upsert of the identity-sync webhook, keyed on `clerk_id`: the row
      carrying `clerkId` gets the new email, the full name unless it is
      omitted, and `now`; without such a row a new one is inserted under a
      store-generated key, with a null full name when it is omitted. `None`
      is the store's error. */
  function UpsertByClerkId(users: seq<User>, clerkId: string, email: string, fullName: FullNameField,
                           now: Timestamp, fault: bool): Option<seq<User>>
  {
    if fault then None
    else
      var candidate := UpsertCandidate(users, clerkId, email, fullName, now);
      if UsersValid(candidate) then Some(candidate) else None
  }

  /** The table the upsert asks the store to accept. */
  function UpsertCandidate(users: seq<User>, clerkId: string, email: string, fullName: FullNameField,
                           now: Timestamp): seq<User>
  {
    match FindIndex(users, ByClerkId(clerkId))
    case Some(i) =>
      users[i := users[i].(email := email,
                           fullName := if fullName.Given? then fullName.name else users[i].fullName,
                           updatedAt := now)]
    case None =>
      users + [User(NewKey(UserIds(users)), Some(clerkId), email,
                    if fullName.Given? then fullName.name else None, now)]
  }

  /** The rows of the candidate table that carry another identity, or none,
      are exactly those of the table before. */
  lemma UpsertCandidateKeepsOthers(users: seq<User>, clerkId: string, email: string, fullName: FullNameField, now: Timestamp)
    ensures var c := UpsertCandidate(users, clerkId, email, fullName, now);
      && (forall u | u in users && u.clerkId != Some(clerkId) :: u in c)
      && (forall u | u in c && u.clerkId != Some(clerkId) :: u in users)
  {
    var c := UpsertCandidate(users, clerkId, email, fullName, now);
    match FindIndex(users, ByClerkId(clerkId))
    case Some(i) =>
      forall u | u in users && u.clerkId != Some(clerkId) ensures u in c {
        var k :| 0 <= k < |users| && users[k] == u;
        assert c[k] == u;
      }
      forall u | u in c && u.clerkId != Some(clerkId) ensures u in users {
        var k :| 0 <= k < |c| && c[k] == u;
        assert users[k] == u;
      }
    case None =>
      forall u | u in c && u.clerkId != Some(clerkId) ensures u in users {
        var k :| 0 <= k < |c| && c[k] == u;
        assert users[k] == u;
      }
  }

  /** The candidate table holds the upserted row: the identity, the email,
      the full name unless omitted, the time, and the primary key of the row
      that carried the identity before, if any. */
  lemma UpsertCandidateRow(users: seq<User>, clerkId: string, email: string, fullName: FullNameField, now: Timestamp)
    requires UsersValid(users)
    ensures var c := UpsertCandidate(users, clerkId, email, fullName, now);
      exists u | u in c ::
        && u.clerkId == Some(clerkId) && u.email == email && u.updatedAt == now
        && (fullName.Given? ==> u.fullName == fullName.name)
        && (forall v | v in users && v.clerkId == Some(clerkId) :: u.id == v.id)
  {
    var c := UpsertCandidate(users, clerkId, email, fullName, now);
    match FindIndex(users, ByClerkId(clerkId))
    case Some(i) =>
      assert c[i] in c;
      forall v | v in users && v.clerkId == Some(clerkId) ensures c[i].id == v.id {
        var k :| 0 <= k < |users| && users[k] == v;
        assert k == i;
      }
    case None =>
      assert c[|users|] in c;
  }

  /** A successful upsert leaves exactly one row carrying the identity, with
      the given email, full name (unless omitted) and time; a row that
      carried the identity before keeps its primary key; every row carrying
      another identity, or none, is kept as it was and no other row appears. */
  lemma UpsertByClerkIdKeyed(users: seq<User>, clerkId: string, email: string, fullName: FullNameField, now: Timestamp)
    requires UsersValid(users)
    requires UpsertByClerkId(users, clerkId, email, fullName, now, false).Some?
    ensures var r := UpsertByClerkId(users, clerkId, email, fullName, now, false).value;
      && UsersValid(r)
      && |Where(r, ByClerkId(clerkId))| == 1
      && (exists u | u in r ::
            && u.clerkId == Some(clerkId) && u.email == email && u.updatedAt == now
            && (fullName.Given? ==> u.fullName == fullName.name)
            && (forall v | v in users && v.clerkId == Some(clerkId) :: u.id == v.id))
      && (forall u | u in users && u.clerkId != Some(clerkId) :: u in r)
      && (forall u | u in r && u.clerkId != Some(clerkId) :: u in users)
  {
    var r := UpsertByClerkId(users, clerkId, email, fullName, now, false).value;
    UpsertCandidateKeepsOthers(users, clerkId, email, fullName, now);
    UpsertCandidateRow(users, clerkId, email, fullName, now);
    WhereUnique(r, ByClerkId(clerkId));
    var u :| u in r && u.clerkId == Some(clerkId);
    assert u in Where(r, ByClerkId(clerkId));
  }

  /** Upserting the same record twice at the same time leaves the table as
      one upsert does. */
  lemma UpsertByClerkIdIdempotent(users: seq<User>, clerkId: string, email: string, fullName: FullNameField, now: Timestamp)
    requires UsersValid(users)
    requires UpsertByClerkId(users, clerkId, email, fullName, now, false).Some?
    ensures var r := UpsertByClerkId(users, clerkId, email, fullName, now, false).value;
      UpsertByClerkId(r, clerkId, email, fullName, now, false) == Some(r)
  {
    var r := UpsertByClerkId(users, clerkId, email, fullName, now, false).value;
    UpsertByClerkIdKeyed(users, clerkId, email, fullName, now);
    var u :| u in r && u.clerkId == Some(clerkId) && u.email == email && u.updatedAt == now
             && (fullName.Given? ==> u.fullName == fullName.name);
    var k :| 0 <= k < |r| && r[k] == u;
    var j := FindIndex(r, ByClerkId(clerkId));
    assert j.Some?;
    assert j.value == k;
    assert UpsertCandidate(r, clerkId, email, fullName, now) == r[k := u];
    assert r[k := u] == r;
  }

  /** The upsert is accepted whenever no row carrying another identity (or
      none) holds the email. */
  lemma UpsertByClerkIdAccepts(users: seq<User>, clerkId: string, email: string, fullName: FullNameField, now: Timestamp)
    requires UsersValid(users)
    requires forall u | u in users && u.email == email :: u.clerkId == Some(clerkId)
    ensures UpsertByClerkId(users, clerkId, email, fullName, now, false).Some?
  {
    var c := UpsertCandidate(users, clerkId, email, fullName, now);
    match FindIndex(users, ByClerkId(clerkId))
    case Some(i) =>
      forall j, k | 0 <= j < k < |c|
        ensures c[j].id != c[k].id && c[j].email != c[k].email
        ensures c[j].clerkId.None? || c[j].clerkId != c[k].clerkId
      {
        if j == i {
          assert users[k] in users;
        } else if k == i {
          assert users[j] in users;
        }
      }
    case None =>
      forall j, k | 0 <= j < k < |c|
        ensures c[j].id != c[k].id && c[j].email != c[k].email
        ensures c[j].clerkId.None? || c[j].clerkId != c[k].clerkId
      {
        if k == |users| {
          assert UserIds(users)[j] == c[j].id;
          assert users[j] in users;
        }
      }
  }

  /** The upsert is refused when a row carrying another identity (or none)
      already holds the email: the email is unique. */
  lemma UpsertByClerkIdRefuses(users: seq<User>, clerkId: string, email: string, fullName: FullNameField,
                               now: Timestamp, u: User)
    requires u in users && u.email == email && u.clerkId != Some(clerkId)
    ensures UpsertByClerkId(users, clerkId, email, fullName, now, false).None?
  {
    var k :| 0 <= k < |users| && users[k] == u;
    var c := UpsertCandidate(users, clerkId, email, fullName, now);
    match FindIndex(users, ByClerkId(clerkId))
    case Some(i) =>
      assert c[k] == u && c[i].email == email;
      assert !UsersValid(c) by {
        if k < i {
          assert c[k].email == c[i].email;
        } else {
          assert c[i].email == c[k].email;
        }
      }
    case None =>
      assert c[k].email == c[|users|].email;
  }

  // ------------------------------------------------------------ purchases

  /** `insert(purchase)`: rejected on an injected fault or when the order id
      is already recorded. */
  function InsertPurchase(purchases: seq<Purchase>, p: Purchase, fault: bool): Option<seq<Purchase>>
  {
    if fault then None
    else if PurchasesValid(purchases + [p]) then Some(purchases + [p])
    else None
  }

  /** The insert of a purchase fails exactly when its order id is already
      recorded (or the store faults); a successful insert appends exactly
      that row. */
  lemma InsertPurchaseOutcome(purchases: seq<Purchase>, p: Purchase)
    requires PurchasesValid(purchases)
    ensures InsertPurchase(purchases, p, false).Some? <==> forall q | q in purchases :: q.orderId != p.orderId
    ensures InsertPurchase(purchases, p, false).Some? ==> InsertPurchase(purchases, p, false).value == purchases + [p]
  {
    var c := purchases + [p];
    if exists q | q in purchases :: q.orderId == p.orderId {
      var q :| q in purchases && q.orderId == p.orderId;
      var k :| 0 <= k < |purchases| && purchases[k] == q;
      assert c[k].orderId == c[|purchases|].orderId;
    }
  }

  /** The number of purchases recorded for a user. */
  function PurchaseCount(purchases: seq<Purchase>, userId: string): nat
  {
    if purchases == [] then 0
    else (if purchases[0].userId == Some(userId) then 1 else 0) + PurchaseCount(purchases[1..], userId)
  }

  /** `select('id', {count: 'exact', head: true}).eq('user_id', userId)` */
  function CountPurchases(purchases: seq<Purchase>, userId: string, fault: bool): Option<nat>
  {
    if fault then None else Some(PurchaseCount(purchases, userId))
  }

  /** A user has no purchase exactly when no row names them. */
  lemma {:induction false} PurchaseCountZero(purchases: seq<Purchase>, userId: string)
    ensures PurchaseCount(purchases, userId) == 0 <==> forall p | p in purchases :: p.userId != Some(userId)
  {
    if purchases != [] {
      PurchaseCountZero(purchases[1..], userId);
      assert forall p | p in purchases :: p == purchases[0] || p in purchases[1..];
    }
  }

  /** Appending a purchase adds one to its user's count and nothing to
      anyone else's. */
  lemma {:induction false} PurchaseCountAppend(purchases: seq<Purchase>, p: Purchase, userId: string)
    ensures PurchaseCount(purchases + [p], userId) ==
              PurchaseCount(purchases, userId) + (if p.userId == Some(userId) then 1 else 0)
  {
    if purchases != [] {
      assert (purchases + [p])[1..] == purchases[1..] + [p];
      PurchaseCountAppend(purchases[1..], p, userId);
    }
  }

  // ---------------------------------------------------------------- leads

  /** The primary keys of `leads`, in table order. */
  function LeadIds(leads: seq<Lead>): seq<string>
  {
    seq(|leads|, i requires 0 <= i < |leads| => leads[i].id)
  }

  /** `insert(lead)`: rejected on an injected fault or a duplicate key. */
  function InsertLead(leads: seq<Lead>, l: Lead, fault: bool): Option<seq<Lead>>
  {
    if fault then None
    else if LeadsValid(leads + [l]) then Some(leads + [l])
    else None
  }

  /** A lead under a store-generated key is always accepted, and appended. */
  lemma InsertLeadFresh(leads: seq<Lead>, l: Lead)
    requires LeadsValid(leads)
    requires l.id == NewKey(LeadIds(leads))
    ensures InsertLead(leads, l, false) == Some(leads + [l])
  {
    var c := leads + [l];
    forall i, j | 0 <= i < j < |c| ensures c[i].id != c[j].id {
      if j == |leads| {
        assert LeadIds(leads)[i] == c[i].id;
      }
    }
  }

  /** The rows `.eq('user_id', userId)` selects, in table order. */
  function Owned(leads: seq<Lead>, userId: string): (r: seq<Lead>)
    ensures forall l :: l in r <==> l in leads && l.userId == userId
  {
    if leads == [] then []
    else (if leads[0].userId == userId then [leads[0]] else []) + Owned(leads[1..], userId)
  }

  predicate NewestFirst(leads: seq<Lead>)
  {
    forall i, j | 0 <= i < j < |leads| :: leads[i].createdAt >= leads[j].createdAt
  }

  /** Places a lead before the first lead not newer than it. */
  function InsertNewestFirst(l: Lead, sorted: seq<Lead>): (r: seq<Lead>)
    ensures forall m :: m in r <==> m == l || m in sorted
  {
    if sorted == [] || l.createdAt >= sorted[0].createdAt then [l] + sorted
    else [sorted[0]] + InsertNewestFirst(l, sorted[1..])
  }

  /** `.order('created_at', {ascending: false})`; rows with equal timestamps
      may come in any order in the store, here they keep table order. */
  function SortNewestFirst(leads: seq<Lead>): seq<Lead>
  {
    if leads == [] then [] else InsertNewestFirst(leads[0], SortNewestFirst(leads[1..]))
  }

  /** A lead no older than every lead of a newest-first list may head it. */
  lemma NewestFirstCons(l: Lead, sorted: seq<Lead>)
    requires NewestFirst(sorted)
    requires forall m | m in sorted :: l.createdAt >= m.createdAt
    ensures NewestFirst([l] + sorted)
  {
    var r := [l] + sorted;
    forall i, j | 0 <= i < j < |r| ensures r[i].createdAt >= r[j].createdAt {
      if i == 0 {
        assert r[j] in sorted;
      } else {
        assert r[i] == sorted[i - 1] && r[j] == sorted[j - 1];
      }
    }
  }

  /** The head of a newest-first list is no older than any of its leads, and
      its tail is newest first again. */
  lemma NewestFirstSplit(sorted: seq<Lead>)
    requires NewestFirst(sorted) && sorted != []
    ensures forall m | m in sorted :: sorted[0].createdAt >= m.createdAt
    ensures NewestFirst(sorted[1..])
  {
    forall m | m in sorted ensures sorted[0].createdAt >= m.createdAt {
      var k :| 0 <= k < |sorted| && sorted[k] == m;
      assert k == 0 || sorted[0].createdAt >= sorted[k].createdAt;
    }
    var tail := sorted[1..];
    forall i, j | 0 <= i < j < |tail| ensures tail[i].createdAt >= tail[j].createdAt {
      assert tail[i] == sorted[i + 1] && tail[j] == sorted[j + 1];
    }
  }

  lemma {:induction false} InsertNewestFirstSorted(l: Lead, sorted: seq<Lead>)
    requires NewestFirst(sorted)
    ensures NewestFirst(InsertNewestFirst(l, sorted))
  {
    if sorted == [] {
      NewestFirstCons(l, sorted);
    } else if l.createdAt >= sorted[0].createdAt {
      NewestFirstSplit(sorted);
      NewestFirstCons(l, sorted);
    } else {
      NewestFirstSplit(sorted);
      InsertNewestFirstSorted(l, sorted[1..]);
      NewestFirstCons(sorted[0], InsertNewestFirst(l, sorted[1..]));
    }
  }

  lemma {:induction false} InsertNewestFirstPermutes(l: Lead, sorted: seq<Lead>)
    ensures multiset(InsertNewestFirst(l, sorted)) == multiset(sorted) + multiset{l}
  {
    if sorted != [] && l.createdAt < sorted[0].createdAt {
      InsertNewestFirstPermutes(l, sorted[1..]);
      assert sorted == [sorted[0]] + sorted[1..];
    }
  }

  /** The owner's list is sorted newest first and holds exactly the rows of
      the table that belong to the owner. */
  lemma {:induction false} SortNewestFirstCorrect(leads: seq<Lead>)
    ensures NewestFirst(SortNewestFirst(leads))
    ensures multiset(SortNewestFirst(leads)) == multiset(leads)
  {
    if leads != [] {
      SortNewestFirstCorrect(leads[1..]);
      InsertNewestFirstSorted(leads[0], SortNewestFirst(leads[1..]));
      InsertNewestFirstPermutes(leads[0], SortNewestFirst(leads[1..]));
      assert leads == [leads[0]] + leads[1..];
    }
  }

  /** The leads query of the list endpoint: the owner's rows, newest first. */
  function OwnerListing(leads: seq<Lead>, userId: string): seq<Lead>
  {
    SortNewestFirst(Owned(leads, userId))
  }

  /** The owner's listing is newest first, is a permutation of the owner's
      rows, and holds no row of another user. */
  lemma OwnerListingCorrect(leads: seq<Lead>, userId: string)
    ensures NewestFirst(OwnerListing(leads, userId))
    ensures multiset(OwnerListing(leads, userId)) == multiset(Owned(leads, userId))
    ensures forall l :: l in OwnerListing(leads, userId) <==> l in leads && l.userId == userId
  {
    SortNewestFirstCorrect(Owned(leads, userId));
    forall l ensures l in OwnerListing(leads, userId) <==> l in Owned(leads, userId) {
      assert l in OwnerListing(leads, userId) <==> l in multiset(OwnerListing(leads, userId));
      assert l in Owned(leads, userId) <==> l in multiset(Owned(leads, userId));
    }
  }
}
