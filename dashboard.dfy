/** The dashboard page: the client's list of leads, the transformations
    applied to it after each successful request (status update, delete,
    create, edit), its partition into the board's columns, and the page
    state driven by fetching, the dialogs and the lead form. */
module Dashboard {
  import opened Common
  import opened LeadForm
  import Tables
  import LeadsApi

  /** The board's columns, in display order; each status once. */
  const KanbanColumns: seq<string> := ["Leads", "Contacted", "Converted", "Lost"]

  // ------------------------------------------------------ list transforms

  /** The leads shown in one column: those with that status, in list
      order. */
  function LeadsByStatus(leads: seq<Lead>, status: string): seq<Lead>
  {
    if leads == [] then []
    else (if leads[0].status == status then [leads[0]] else []) + LeadsByStatus(leads[1..], status)
  }

  /** A column holds exactly the leads with its status. */
  lemma {:induction false} LeadsByStatusMembers(leads: seq<Lead>, status: string)
    ensures forall l :: l in LeadsByStatus(leads, status) <==> l in leads && l.status == status
  {
    if leads != [] {
      LeadsByStatusMembers(leads[1..], status);
      assert leads == [leads[0]] + leads[1..];
    }
  }

  /** The leads whose status is none of the columns; the board shows them
      nowhere. */
  function OffBoard(leads: seq<Lead>): seq<Lead>
  {
    if leads == [] then []
    else (if leads[0].status !in KanbanColumns then [leads[0]] else []) + OffBoard(leads[1..])
  }

  /** The leads off the board are exactly those whose status is no
      column's. */
  lemma {:induction false} OffBoardMembers(leads: seq<Lead>)
    ensures forall l :: l in OffBoard(leads) <==> l in leads && l.status !in KanbanColumns
  {
    if leads != [] {
      OffBoardMembers(leads[1..]);
      assert leads == [leads[0]] + leads[1..];
    }
  }

  /** Every card on the board, column after column. */
  function BoardCards(leads: seq<Lead>): seq<Lead>
  {
    LeadsByStatus(leads, "Leads") + LeadsByStatus(leads, "Contacted")
      + LeadsByStatus(leads, "Converted") + LeadsByStatus(leads, "Lost")
  }

  /** A lead is in a column exactly when its status is that column's, so
      a lead whose status is a column appears in exactly that one and a
      lead with any other status appears in none. */
  lemma ColumnsSeparateLeads(leads: seq<Lead>, l: Lead)
    requires l in leads
    ensures forall c | c in KanbanColumns :: l in LeadsByStatus(leads, c) <==> c == l.status
    ensures (exists c | c in KanbanColumns :: l in LeadsByStatus(leads, c)) <==> l.status in KanbanColumns
  {
    forall c | c in KanbanColumns {
      LeadsByStatusMembers(leads, c);
    }
  }

  /** The cards of a column, counted: one lead more at the head counts
      once more in its own column only. */
  lemma ColumnCountCons(x: Lead, rest: seq<Lead>, c: string)
    ensures multiset(LeadsByStatus([x] + rest, c)) ==
              multiset(LeadsByStatus(rest, c)) + (if x.status == c then multiset{x} else multiset{})
  {
    PrependTopsColumn(rest, x, c);
  }

  /** The statuses with a column. */
  lemma OnBoard(status: string)
    ensures status in KanbanColumns <==>
              status == "Leads" || status == "Contacted" || status == "Converted" || status == "Lost"
  {
  }

  /** The board counted column by column. */
  lemma BoardCardsCount(leads: seq<Lead>)
    ensures multiset(BoardCards(leads)) ==
              multiset(LeadsByStatus(leads, "Leads")) + multiset(LeadsByStatus(leads, "Contacted"))
              + multiset(LeadsByStatus(leads, "Converted")) + multiset(LeadsByStatus(leads, "Lost"))
  {
  }

  /** The count of the four columns after one lead more: the lead counts
      once more exactly when its status is one of them. */
  lemma ColumnsSumStep(x: Lead, l0: multiset<Lead>, c0: multiset<Lead>, v0: multiset<Lead>, o0: multiset<Lead>,
                       l1: multiset<Lead>, c1: multiset<Lead>, v1: multiset<Lead>, o1: multiset<Lead>)
    requires l1 == l0 + (if x.status == "Leads" then multiset{x} else multiset{})
    requires c1 == c0 + (if x.status == "Contacted" then multiset{x} else multiset{})
    requires v1 == v0 + (if x.status == "Converted" then multiset{x} else multiset{})
    requires o1 == o0 + (if x.status == "Lost" then multiset{x} else multiset{})
    ensures l1 + c1 + v1 + o1 == l0 + c0 + v0 + o0 + (if x.status in KanbanColumns then multiset{x} else multiset{})
  {
    OnBoard(x.status);
  }

  /** One lead more at the head adds it to the board when its status is
      a column's. */
  lemma BoardCardsCons(leads: seq<Lead>)
    requires leads != []
    ensures multiset(BoardCards(leads)) ==
              multiset(BoardCards(leads[1..])) + (if leads[0].status in KanbanColumns then multiset{leads[0]} else multiset{})
  {
    var x, rest := leads[0], leads[1..];
    assert leads == [x] + rest;
    ColumnCountCons(x, rest, "Leads");
    ColumnCountCons(x, rest, "Contacted");
    ColumnCountCons(x, rest, "Converted");
    ColumnCountCons(x, rest, "Lost");
    BoardCardsCount(rest);
    BoardCardsCount(leads);
    ColumnsSumStep(x,
      multiset(LeadsByStatus(rest, "Leads")), multiset(LeadsByStatus(rest, "Contacted")),
      multiset(LeadsByStatus(rest, "Converted")), multiset(LeadsByStatus(rest, "Lost")),
      multiset(LeadsByStatus(leads, "Leads")), multiset(LeadsByStatus(leads, "Contacted")),
      multiset(LeadsByStatus(leads, "Converted")), multiset(LeadsByStatus(leads, "Lost")));
  }

  /** One lead more at the head adds it to the leads off the board when
      its status is no column's. */
  lemma OffBoardCons(leads: seq<Lead>)
    requires leads != []
    ensures multiset(OffBoard(leads)) ==
              multiset(OffBoard(leads[1..])) + (if leads[0].status in KanbanColumns then multiset{} else multiset{leads[0]})
  {
  }

  /** A list counted as its head and its tail. */
  lemma LeadsCons(leads: seq<Lead>)
    requires leads != []
    ensures multiset(leads) == multiset{leads[0]} + multiset(leads[1..])
  {
    assert leads == [leads[0]] + leads[1..];
  }

  /** A lead more goes either to the board or off it, so board and
      off-board together count it once more. */
  lemma PartitionStep(onBoard: bool, x: Lead, m: multiset<Lead>,
                      b0: multiset<Lead>, o0: multiset<Lead>, b1: multiset<Lead>, o1: multiset<Lead>)
    requires b0 + o0 == m
    requires b1 == b0 + (if onBoard then multiset{x} else multiset{})
    requires o1 == o0 + (if onBoard then multiset{} else multiset{x})
    ensures b1 + o1 == multiset{x} + m
  {
  }

  /** The board and the off-board leads together are the list: each lead
      is shown exactly as many times as it is held. */
  lemma {:induction false} BoardPartition(leads: seq<Lead>)
    ensures multiset(BoardCards(leads)) + multiset(OffBoard(leads)) == multiset(leads)
  {
    if leads != [] {
      var x, rest := leads[0], leads[1..];
      BoardPartition(rest);
      BoardCardsCons(leads);
      OffBoardCons(leads);
      LeadsCons(leads);
      PartitionStep(x.status in KanbanColumns, x, multiset(rest),
        multiset(BoardCards(rest)), multiset(OffBoard(rest)),
        multiset(BoardCards(leads)), multiset(OffBoard(leads)));
    }
  }

  /** With every status a column's, no lead is off the board. */
  lemma {:induction false} OffBoardEmpty(leads: seq<Lead>)
    requires forall l | l in leads :: l.status in KanbanColumns
    ensures OffBoard(leads) == []
  {
    if leads != [] {
      assert leads[0] in leads;
      assert forall l | l in leads[1..] :: l in leads;
      OffBoardEmpty(leads[1..]);
    }
  }

  /** When every status is a column's, the board shows the whole list,
      each lead once per occurrence. */
  lemma BoardShowsAll(leads: seq<Lead>)
    requires forall l | l in leads :: l.status in KanbanColumns
    ensures multiset(BoardCards(leads)) == multiset(leads)
  {
    BoardPartition(leads);
    OffBoardEmpty(leads);
  }

  /** `map`: the lead with the given id gets the new status; the list keeps
      its length, its order and every other lead. */
  function UpdateStatus(leads: seq<Lead>, id: string, status: string): (r: seq<Lead>)
    ensures |r| == |leads|
    ensures forall i | 0 <= i < |leads| && leads[i].id != id :: r[i] == leads[i]
    ensures forall i | 0 <= i < |leads| && leads[i].id == id :: r[i].status == status && r[i].(status := leads[i].status) == leads[i]
  {
    seq(|leads|, i requires 0 <= i < |leads| => if leads[i].id == id then leads[i].(status := status) else leads[i])
  }

  /** After a status update the lead shows in the column of its new status
      and leaves every other column, whose other cards stay put. */
  lemma UpdateStatusMovesCard(leads: seq<Lead>, id: string, status: string, c: string)
    requires forall i, j | 0 <= i < j < |leads| :: leads[i].id != leads[j].id
    ensures forall l :: l in LeadsByStatus(UpdateStatus(leads, id, status), c) <==>
              || (l in leads && l.id != id && l.status == c)
              || (c == status && exists m | m in leads && m.id == id :: l == m.(status := status))
  {
    var r := UpdateStatus(leads, id, status);
    LeadsByStatusMembers(r, c);
    forall l ensures l in r <==> (l in leads && l.id != id) || (exists m | m in leads && m.id == id :: l == m.(status := status)) {
      if l in r {
        var k :| 0 <= k < |r| && r[k] == l;
        if leads[k].id == id {
          assert leads[k] in leads;
        }
      }
      if l in leads && l.id != id {
        var k :| 0 <= k < |leads| && leads[k] == l;
        assert r[k] == l;
      }
      if exists m | m in leads && m.id == id :: l == m.(status := status) {
        var m :| m in leads && m.id == id && l == m.(status := status);
        var k :| 0 <= k < |leads| && leads[k] == m;
        assert r[k] == l;
      }
    }
  }

  /** `filter`: the list without the leads with the given id. */
  function WithoutId(leads: seq<Lead>, id: string): seq<Lead>
  {
    if leads == [] then []
    else (if leads[0].id != id then [leads[0]] else []) + WithoutId(leads[1..], id)
  }

  /** The list without an id holds exactly the leads with another id. */
  lemma {:induction false} WithoutIdMembers(leads: seq<Lead>, id: string)
    ensures forall l :: l in WithoutId(leads, id) <==> l in leads && l.id != id
    ensures |WithoutId(leads, id)| <= |leads|
  {
    if leads != [] {
      WithoutIdMembers(leads[1..], id);
      assert leads == [leads[0]] + leads[1..];
    }
  }

  /** The list without an id, for a list with one lead more at the head. */
  lemma WithoutIdCons(x: Lead, rest: seq<Lead>, id: string)
    ensures WithoutId([x] + rest, id) == (if x.id != id then [x] else []) + WithoutId(rest, id)
  {
    assert ([x] + rest)[1..] == rest;
  }

  /** Deleting a lead takes its card out of its column and changes no
      column otherwise. */
  lemma {:induction false} WithoutIdColumns(leads: seq<Lead>, id: string, c: string)
    ensures LeadsByStatus(WithoutId(leads, id), c) == WithoutId(LeadsByStatus(leads, c), id)
  {
    if leads != [] {
      var x, rest := leads[0], leads[1..];
      assert leads == [x] + rest;
      WithoutIdColumns(rest, id, c);
      WithoutIdCons(x, rest, id);
      PrependTopsColumn(rest, x, c);
      if x.id != id {
        PrependTopsColumn(WithoutId(rest, id), x, c);
      }
      if x.status == c {
        WithoutIdCons(x, LeadsByStatus(rest, c), id);
        if x.id == id {
          assert WithoutId(leads, id) == WithoutId(rest, id);
          assert WithoutId(LeadsByStatus(leads, c), id) == WithoutId(LeadsByStatus(rest, c), id);
        }
      } else {
        assert LeadsByStatus(leads, c) == LeadsByStatus(rest, c);
        if x.id != id {
          assert LeadsByStatus([x] + WithoutId(rest, id), c) == LeadsByStatus(WithoutId(rest, id), c);
        } else {
          assert WithoutId(leads, id) == WithoutId(rest, id);
        }
      }
    }
  }

  /** Deleting an id no lead has leaves the list as it was, so deleting
      twice is deleting once. */
  lemma {:induction false} WithoutIdAbsent(leads: seq<Lead>, id: string)
    requires forall l | l in leads :: l.id != id
    ensures WithoutId(leads, id) == leads
  {
    if leads != [] {
      assert forall l | l in leads[1..] :: l in leads;
      WithoutIdAbsent(leads[1..], id);
      assert leads == [leads[0]] + leads[1..];
    }
  }

  /** `map`: the lead with the given id is replaced by the server's copy;
      the list keeps its length, its order and every other lead. */
  function ReplaceById(leads: seq<Lead>, id: string, updated: Lead): (r: seq<Lead>)
    ensures |r| == |leads|
    ensures forall i | 0 <= i < |leads| :: r[i] == if leads[i].id == id then updated else leads[i]
  {
    seq(|leads|, i requires 0 <= i < |leads| => if leads[i].id == id then updated else leads[i])
  }

  /** After an edit, no lead keeps the edited id except the server's copy,
      which is in the list whenever a lead had the id; an id no lead has
      leaves the list as it was. */
  lemma ReplaceByIdOutcome(leads: seq<Lead>, id: string, updated: Lead)
    ensures forall l | l in ReplaceById(leads, id, updated) && l.id == id :: l == updated
    ensures (exists l | l in leads :: l.id == id) ==> updated in ReplaceById(leads, id, updated)
    ensures (forall l | l in leads :: l.id != id) ==> ReplaceById(leads, id, updated) == leads
  {
    var r := ReplaceById(leads, id, updated);
    if l :| l in leads && l.id == id {
      var k :| 0 <= k < |leads| && leads[k] == l;
      assert r[k] == updated;
    }
  }

  /** With unique ids, replacing by id is replacing at the one position
      holding that id; with no lead holding it, nothing changes. */
  lemma ReplaceByIdAt(leads: seq<Lead>, k: nat, updated: Lead)
    requires k < |leads|
    requires forall i, j | 0 <= i < j < |leads| :: leads[i].id != leads[j].id
    ensures ReplaceById(leads, leads[k].id, updated) == leads[k := updated]
  {
  }

  /** A created lead goes on top of its column; the other columns do not
      change. */
  lemma PrependTopsColumn(leads: seq<Lead>, l: Lead, c: string)
    ensures LeadsByStatus([l] + leads, c) == (if l.status == c then [l] else []) + LeadsByStatus(leads, c)
  {
    assert ([l] + leads)[1..] == leads;
  }

  // ------------------------------------------------------------ page state

  /** The identity provider's client-side session state. */
  datatype AuthState = AuthState(isLoaded: bool, userId: Option<string>, sessionId: Option<string>)

  /** How a request for the list ended: a 2xx answer with the list, a
      non-2xx answer with its status text, or an exception (with the
      message of an `Error`, or a value without one). */
  datatype FetchOutcome = Fetched(data: seq<Lead>) | NotOk(statusText: string) | Threw(message: Option<string>)

  /** How a create or edit request ended: 2xx with the server's copy of the
      lead, or not. */
  datatype SaveResponse = Saved(lead: Lead) | SaveRejected(statusText: string)

  /** The error shown after a failed fetch. */
  function FetchError(outcome: FetchOutcome): (e: string)
    requires !outcome.Fetched?
    ensures outcome.NotOk? ==> e == "Failed to fetch leads: " + outcome.statusText
    ensures outcome.Threw? && outcome.message.Some? ==> e == outcome.message.value
    ensures outcome.Threw? && outcome.message.None? ==> e == "An unknown error occurred while fetching leads"
  {
    match outcome
    case NotOk(statusText) => "Failed to fetch leads: " + statusText
    case Threw(message) => if message.Some? then message.value else "An unknown error occurred while fetching leads"
  }

  /** The page's state. */
  class DashboardPage {
    var leads: seq<Lead>
    var loading: bool
    var error: Option<string>
    var isModalOpen: bool
    var selectedLead: Option<Lead>
    var isConfirmDeleteOpen: bool
    var leadToDelete: Option<string>

    /** The page as first rendered: no leads, loading, nothing open. */
    constructor ()
      ensures leads == [] && loading && error.None?
      ensures !isModalOpen && selectedLead.None? && !isConfirmDeleteOpen && leadToDelete.None?
    {
      leads := [];
      loading := true;
      error := None;
      isModalOpen := false;
      selectedLead := None;
      isConfirmDeleteOpen := false;
      leadToDelete := None;
    }

    /** The fetch run whenever the session state changes. Before the
        session is loaded it stops at once, still loading and without a
        request (the outcome is not looked at). Without a signed-in session
        it shows the sign-in error. Otherwise the list becomes what the
        endpoint returned, or the error is shown. Loading then ends. */
    method FetchLeads(auth: AuthState, outcome: FetchOutcome)
      modifies this`leads, this`loading, this`error
      ensures !auth.isLoaded ==> leads == old(leads) && loading && error.None?
      ensures auth.isLoaded && (!Truthy(auth.userId) || !Truthy(auth.sessionId)) ==>
                && leads == old(leads) && !loading
                && error == Some("Unauthorized: Please log in to view leads.")
      ensures auth.isLoaded && Truthy(auth.userId) && Truthy(auth.sessionId) ==>
                && !loading
                && leads == (if outcome.Fetched? then outcome.data else old(leads))
                && error == (if outcome.Fetched? then None else Some(FetchError(outcome)))
    {
      loading := true;
      error := None;
      if !auth.isLoaded {
        return;
      }
      if !Truthy(auth.userId) || !Truthy(auth.sessionId) {
        error := Some("Unauthorized: Please log in to view leads.");
        loading := false;
        return;
      }
      match outcome {
        case Fetched(data) =>
          leads := data;
        case NotOk(_) =>
          error := Some(FetchError(outcome));
        case Threw(_) =>
          error := Some(FetchError(outcome));
      }
      loading := false;
    }

    /** Marks a lead with a new status once the server accepted it; a
        failed request changes nothing. */
    method UpdateLeadStatus(leadId: string, newStatus: string, ok: bool)
      modifies this`leads
      ensures leads == if ok then UpdateStatus(old(leads), leadId, newStatus) else old(leads)
    {
      if ok {
        leads := UpdateStatus(leads, leadId, newStatus);
      }
    }

    /** Opens the form for a new lead. */
    method HandleAddLead()
      modifies this`selectedLead, this`isModalOpen
      ensures selectedLead.None? && isModalOpen
    {
      selectedLead := None;
      isModalOpen := true;
    }

    /** Opens the form on an existing lead. */
    method HandleEditLead(lead: Lead)
      modifies this`selectedLead, this`isModalOpen
      ensures selectedLead == Some(lead) && isModalOpen
    {
      selectedLead := Some(lead);
      isModalOpen := true;
    }

    /** Asks for confirmation before deleting a lead. */
    method HandleDeleteLead(leadId: string)
      modifies this`leadToDelete, this`isConfirmDeleteOpen
      ensures leadToDelete == Some(leadId) && isConfirmDeleteOpen
    {
      leadToDelete := Some(leadId);
      isConfirmDeleteOpen := true;
    }

    /** The confirmation dialog's cancel button. */
    method CancelDelete()
      modifies this`leadToDelete, this`isConfirmDeleteOpen
      ensures leadToDelete.None? && !isConfirmDeleteOpen
    {
      isConfirmDeleteOpen := false;
      leadToDelete := None;
    }

    /** The form's close request. */
    method CloseModal()
      modifies this`isModalOpen
      ensures !isModalOpen
    {
      isModalOpen := false;
    }

    /** The confirmed delete: with no lead chosen it does nothing; once the
        server accepted the delete the lead leaves the list and the dialog
        closes; a failed request changes nothing. */
    method ConfirmDeleteLead(ok: bool)
      modifies this`leads, this`isConfirmDeleteOpen, this`leadToDelete
      ensures !Truthy(old(leadToDelete)) || !ok ==>
                leads == old(leads) && isConfirmDeleteOpen == old(isConfirmDeleteOpen) && leadToDelete == old(leadToDelete)
      ensures Truthy(old(leadToDelete)) && ok ==>
                leads == WithoutId(old(leads), old(leadToDelete).value) && !isConfirmDeleteOpen && leadToDelete.None?
    {
      if !Truthy(leadToDelete) {
        return;
      }
      if ok {
        leads := WithoutId(leads, leadToDelete.value);
        isConfirmDeleteOpen := false;
        leadToDelete := None;
      }
    }

    /** The form's submit handler: an edit replaces the selected lead by
        the server's copy, a create puts the new lead first; a rejected
        request throws (the returned message) and changes nothing. */
    method HandleSubmitLead(response: SaveResponse) returns (thrown: Option<string>)
      modifies this`leads
      ensures response.SaveRejected? ==> leads == old(leads) && thrown == Some(
                (if selectedLead.Some? then "Failed to update lead: " else "Failed to create lead: ") + response.statusText)
      ensures response.Saved? ==> thrown.None?
      ensures response.Saved? && selectedLead.Some? ==> leads == ReplaceById(old(leads), selectedLead.value.id, response.lead)
      ensures response.Saved? && selectedLead.None? ==> leads == [response.lead] + old(leads)
    {
      match response {
        case SaveRejected(statusText) =>
          thrown := Some((if selectedLead.Some? then "Failed to update lead: " else "Failed to create lead: ") + statusText);
        case Saved(lead) =>
          thrown := None;
          if selectedLead.Some? {
            leads := ReplaceById(leads, selectedLead.value.id, lead);
          } else {
            leads := [lead] + leads;
          }
      }
    }
  }

  /** A whole submit from the form: the page saves the lead, the form shows
      the page's error or asks to be closed, and the page then closes it. */
  method SubmitLeadForm(page: DashboardPage, form: LeadFormModal, response: SaveResponse)
    modifies page`leads, page`isModalOpen, form`isSubmitting, form`error
    ensures !form.isSubmitting
    ensures response.Saved? ==> !page.isModalOpen && form.error.None?
    ensures response.SaveRejected? ==>
              && page.leads == old(page.leads) && page.isModalOpen == old(page.isModalOpen)
              && form.error == Some((if page.selectedLead.Some? then "Failed to update lead: " else "Failed to create lead: ")
                                    + response.statusText)
  {
    var thrown := page.HandleSubmitLead(response);
    var outcome := if thrown.Some? then Rejected(thrown) else Resolved;
    var submitted, callsOnClose := form.HandleSubmit(outcome);
    if callsOnClose {
      page.CloseModal();
    }
  }

  // ------------------------------------------------ from the form to the store

  /** The body the page posts for a form record. */
  function RequestBody(d: LeadFormData): LeadsApi.PostBody
  {
    LeadsApi.PostBody(d.name, d.companyName, d.email, d.status, d.source, d.notes, d.phone)
  }

  /** A form record that never held an empty string (which change events
      guarantee) is stored as it stands: every optional field as the form
      holds it, and the status as chosen or `Leads` when none was. */
  lemma CreatedLeadMatchesForm(ownerId: string, id: string, d: LeadFormData, now: int)
    requires NoEmptyValues(d) && Truthy(d.name)
    ensures var l := LeadsApi.NewLead(ownerId, id, RequestBody(d), now);
      && l.name == d.name.value
      && l.companyName == d.companyName && l.email == d.email && l.phone == d.phone
      && l.source == d.source && l.notes == d.notes
      && l.status == (if d.status.Some? then d.status.value else "Leads")
  {
    assert Get(d, Name) != Some("") && Get(d, CompanyName) != Some("") && Get(d, Email) != Some("");
    assert Get(d, Phone) != Some("") && Get(d, Source) != Some("") && Get(d, Notes) != Some("");
    assert Get(d, Status) != Some("");
  }

  /** The form for a new lead starts on the board's first column: the blank
      record as it stands is refused by POST for want of a name, and once a
      name is typed it creates a lead with that name in the first column and
      every optional field null. */
  lemma NewLeadFormOutcome(users: seq<Tables.User>, leads: seq<Tables.Lead>, userId: Option<string>,
                           u: Tables.User, name: string, id: string, now: int)
    requires Tables.UsersValid(users) && Truthy(userId) && u in users && u.clerkId == userId
    ensures var f := LeadsApi.PostFaults(false, false);
      LeadsApi.Post(users, leads, userId, LeadsApi.Object(RequestBody(Blank(KanbanColumns))), f, now)
        == LeadsApi.PostResult(LeadsApi.NameRequired, leads)
    ensures name != "" ==>
              var l := LeadsApi.NewLead(u.id, id, RequestBody(Changed(Blank(KanbanColumns), Name, name)), now);
              && l.name == name && l.status == KanbanColumns[0]
              && l.companyName.None? && l.email.None? && l.phone.None? && l.source.None? && l.notes.None?
  {
    Tables.SelectSingleExact(users, Tables.ByClerkId(userId.value), u);
  }
}
