/** The relational store as one in-memory object: its tables are fields the
    handlers' queries read and their writes reassign. Every write goes through
    the table functions of `Tables`, so a write that would break a unique
    constraint is refused and leaves the table as it was. */
module Store {
  import opened Common
  import opened Tables

  class Database {
    var users: seq<User>
    var purchases: seq<Purchase>
    var leads: seq<Lead>

    /** The store's unique constraints hold. */
    ghost predicate Valid()
      reads this
    {
      UsersValid(users) && PurchasesValid(purchases) && LeadsValid(leads)
    }

    constructor (users: seq<User>, purchases: seq<Purchase>, leads: seq<Lead>)
      requires UsersValid(users) && PurchasesValid(purchases) && LeadsValid(leads)
      ensures Valid()
      ensures this.users == users && this.purchases == purchases && this.leads == leads
    {
      this.users := users;
      this.purchases := purchases;
      this.leads := leads;
    }

    /** `from('users').select(...).eq(column, value).single()` */
    method SelectUser(c: UserColumn, fault: bool) returns (q: Single<User>)
      ensures q == SelectSingle(users, c, fault)
      ensures q.Row? ==> q.row in users && Matches(q.row, c)
    {
      q := SelectSingle(users, c, fault);
      if q.Row? {
        assert q.row in Where(users, c);
      }
    }

    /** `from('users').update({clerk_id, updated_at}).eq('id', id).select('id')
        .single()`: the id of the updated row, or null on the store's error. */
    method LinkClerkId(id: string, clerkId: string, now: Timestamp, fault: bool) returns (linkedId: Option<string>)
      modifies this`users
      requires Valid()
      ensures Valid()
      ensures var r := SetClerkId(old(users), id, clerkId, now, fault);
        && (r.Some? ==> users == r.value && linkedId == Some(id))
        && (r.None? ==> users == old(users) && linkedId == None)
    {
      var r := SetClerkId(users, id, clerkId, now, fault);
      if r.Some? {
        users := r.value;
        linkedId := Some(id);
      } else {
        linkedId := None;
      }
    }

    /** `from('users').upsert(row, {onConflict: 'clerk_id'})`: whether the
        store accepted it. */
    method UpsertUser(clerkId: string, email: string, fullName: FullNameField, now: Timestamp, fault: bool)
      returns (ok: bool)
      modifies this`users
      requires Valid()
      ensures Valid()
      ensures var r := UpsertByClerkId(old(users), clerkId, email, fullName, now, fault);
        && ok == r.Some?
        && users == (if ok then r.value else old(users))
    {
      var r := UpsertByClerkId(users, clerkId, email, fullName, now, fault);
      ok := r.Some?;
      if ok {
        users := r.value;
      }
    }

    /** The exact count of a user's purchases, or null on a store error. */
    method CountPurchasesOf(userId: string, fault: bool) returns (count: Option<nat>)
      ensures count == CountPurchases(purchases, userId, fault)
    {
      count := CountPurchases(purchases, userId, fault);
    }

    /** `from('purchases').insert(p)`: whether the store accepted it. */
    method InsertPurchaseRow(p: Purchase, fault: bool) returns (ok: bool)
      modifies this`purchases
      requires Valid()
      ensures Valid()
      ensures var r := InsertPurchase(old(purchases), p, fault);
        && ok == r.Some?
        && purchases == (if ok then r.value else old(purchases))
    {
      var r := InsertPurchase(purchases, p, fault);
      ok := r.Some?;
      if ok {
        purchases := r.value;
      }
    }

    /** `from('leads').select(...).eq('user_id', userId).order('created_at',
        {ascending: false})`, or null on a store error. */
    method SelectLeadsOf(userId: string, fault: bool) returns (rows: Option<seq<Lead>>)
      ensures rows == if fault then None else Some(OwnerListing(leads, userId))
    {
      rows := if fault then None else Some(OwnerListing(leads, userId));
    }

    /** `from('leads').insert(l).select().single()`: whether the store
        accepted it. */
    method InsertLeadRow(l: Lead, fault: bool) returns (ok: bool)
      modifies this`leads
      requires Valid()
      ensures Valid()
      ensures var r := InsertLead(old(leads), l, fault);
        && ok == r.Some?
        && leads == (if ok then r.value else old(leads))
    {
      var r := InsertLead(leads, l, fault);
      ok := r.Some?;
      if ok {
        leads := r.value;
      }
    }
  }
}
