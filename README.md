# CRM request decisions, modelled in Dafny

This project models how a small lead-tracking CRM decides requests. The CRM is a
Next.js application backed by a Supabase store, with identity from Clerk and
payments from LemonSqueezy. Six pieces are modelled:

- **The middleware** (`Middleware`). It classifies the route. It maps the
  signed-in Clerk identity to an internal `users` row (`Identity`): first by
  `clerk_id`, then by primary email. An unlinked row found by email is linked,
  and a row linked to another identity is refused. It then applies the purchase
  gate: an unresolved user goes to `/sign-in`, and a user with no purchase who
  asks for `/dashboard…` goes to `/`.
- **The leads endpoint** (`LeadsApi`). GET repeats the same resolution. It
  answers 404 when the user is unresolved, 500 when the purchase count fails and
  403 with no purchase. Otherwise it returns the caller's leads, newest first.
  POST finds the caller by `clerk_id` only, validates the body and inserts a lead.
- **The payment webhook** (`PaymentWebhook`, `LemonSqueezyEvent`). It checks, in
  order, the secret, the `X-Signature` header, the HMAC signature, the JSON body,
  the event kind and the payer email. It then appends one purchase, keyed by order
  id, linked to the user holding the payer's email when there is one.
- **The identity-sync webhook** (`ClerkWebhook`). It normalises a Clerk event or a
  direct `{clerk_id, email, full_name}` record and upserts it on `clerk_id`.
- **The dashboard page** (`Dashboard`): the list of leads the page holds, the
  board's columns, and how each successful request changes the list.
- **The lead form** (`LeadForm`): its record, the change and reset handlers, and
  the submit handler.

The store is a `Database` object (`Store`) whose three tables are fields. Every
write goes through a function of `Tables` that refuses a result breaking a unique
constraint, and every handler keeps the store's `Valid` invariant (all unique
constraints hold). That covers the primary keys, `users.email`, `users.clerk_id` and
`purchases.order_id`. Each handler is written twice:

- as a function from the tables before the request to the response and the tables
  after (`Gate`, `Get`, `Post`, `Receive`, `Sync`), about which the properties are
  proved;
- as a method on the `Database` that follows the source step by step and is
  proved equal to that function.

The two client components are classes whose fields are the component's state.
Their methods are the handlers.

Store errors are boolean fault inputs, one per store call. Clerk's answers are
inputs: the session's user id, and the primary email, which is null when there is
none or when the lookup throws. The clock is an input too (`now`), as is the HMAC
digest (`hmacHex`) and the JSON reading of the webhook body (`parse`).

## Model

| member | source | states |
|---|---|---|
| Common.NewKey | mnehmos-crm-suite/src/app/api/leads/route.ts:214-218 | a key the store generates for an inserted row is non-empty and differs from every key in use |
| LemonSqueezyEvent.DigitsRoundTrip | mnehmos-crm-suite/src/app/api/webhooks/lemonsqueezy/route.ts:102 | reading back the decimal digits written for a natural number gives the number |
| LemonSqueezyEvent.DecimalRoundTrip | mnehmos-crm-suite/src/app/api/webhooks/lemonsqueezy/route.ts:102 | parsing the string `toString()` writes for an order number gives the order number back |
| LemonSqueezyEvent.DecimalStringInjective | mnehmos-crm-suite/src/app/api/webhooks/lemonsqueezy/route.ts:102 | two order numbers with the same string are the same order number |
| LemonSqueezyEvent.OrderIdKeys | mnehmos-crm-suite/src/app/api/webhooks/lemonsqueezy/route.ts:102 | two events with order numbers get the same order id exactly when their order numbers are equal; an event without one is keyed by `data.id` |
| Tables.Where | mnehmos-crm-suite/src/middleware.ts:39-43 | an `.eq` filter on `users` selects exactly the rows whose column holds the value |
| Tables.WhereUnique | mnehmos-crm-suite/src/middleware.ts:39-43 | under the unique constraints, a filter on id, email or `clerk_id` selects at most one row |
| Tables.SelectSingleExact | mnehmos-crm-suite/src/middleware.ts:39-48 | with no store error, `.single()` returns a row exactly when that row holds the value; it reports "no rows" (PGRST116) exactly when no row holds it |
| Tables.SetClerkIdLinks | mnehmos-crm-suite/src/middleware.ts:68-73 | linking an unlinked row to an identity no row carries succeeds and changes only that row's `clerk_id` and `updated_at` |
| Tables.UpsertCandidateKeepsOthers | mnehmos-crm-suite/src/app/api/webhooks/clerk/route.ts:104-118 | the table an upsert on `clerk_id` proposes holds the same rows of other identities, or none, as before |
| Tables.UpsertCandidateRow | mnehmos-crm-suite/src/app/api/webhooks/clerk/route.ts:104-118 | the proposed table holds a row with the identity, the email, the full name (unless undefined) and the time, under the old row's key if there was one |
| Tables.UpsertByClerkIdKeyed | mnehmos-crm-suite/src/app/api/webhooks/clerk/route.ts:104-118 | after an accepted upsert exactly one row carries the identity, with the given values; rows of other identities are unchanged and no other row appears |
| Tables.UpsertByClerkIdIdempotent | mnehmos-crm-suite/src/app/api/webhooks/clerk/route.ts:104-118 | repeating an accepted upsert with the same values leaves the table as one upsert does |
| Tables.UpsertByClerkIdAccepts | mnehmos-crm-suite/src/app/api/webhooks/clerk/route.ts:104-123 | the upsert is accepted whenever no row of another identity, or of none, holds the email |
| Tables.UpsertByClerkIdRefuses | mnehmos-crm-suite/src/app/api/webhooks/clerk/route.ts:104-123 | the upsert is refused when a row of another identity, or of none, holds the email |
| Tables.InsertPurchaseOutcome | mnehmos-crm-suite/src/app/api/webhooks/lemonsqueezy/route.ts:145-150 | inserting a purchase fails exactly when its order id is already recorded; when it succeeds, exactly that row is appended |
| Tables.PurchaseCountZero | mnehmos-crm-suite/src/middleware.ts:98-109 | the exact purchase count of a user is 0 exactly when no purchase names the user |
| Tables.PurchaseCountAppend | mnehmos-crm-suite/src/app/api/webhooks/lemonsqueezy/route.ts:134-145 | appending a purchase adds one to its user's count and nothing to anyone else's |
| Tables.InsertLeadFresh | mnehmos-crm-suite/src/app/api/leads/route.ts:214-218 | a lead under a store-generated key is always accepted and appended |
| Tables.Owned | mnehmos-crm-suite/src/app/api/leads/route.ts:122-125 | `.eq('user_id', id)` selects exactly the leads owned by the user |
| Tables.InsertNewestFirst | mnehmos-crm-suite/src/app/api/leads/route.ts:126 | placing a lead in a newest-first list adds exactly that lead |
| Tables.InsertNewestFirstSorted | mnehmos-crm-suite/src/app/api/leads/route.ts:126 | placing a lead keeps a list sorted by `created_at` descending |
| Tables.InsertNewestFirstPermutes | mnehmos-crm-suite/src/app/api/leads/route.ts:126 | placing a lead adds it once to the multiset of the list |
| Tables.SortNewestFirstCorrect | mnehmos-crm-suite/src/app/api/leads/route.ts:126 | `.order('created_at', {ascending: false})` yields a list sorted newest first that is a permutation of its input |
| Tables.OwnerListingCorrect | mnehmos-crm-suite/src/app/api/leads/route.ts:122-126 | the owner's listing is newest first, is a permutation of the owner's rows, and holds no row of another user |
| Store.Database.SelectUser | mnehmos-crm-suite/src/middleware.ts:39-43 | a `.single()` select returns the table function's answer; a row it returns is in the table and matches the filter |
| Store.Database.LinkClerkId | mnehmos-crm-suite/src/middleware.ts:68-73 | the linking update writes the linked table and returns the row id, or writes nothing and returns null; the store's unique constraints hold afterwards |
| Store.Database.UpsertUser | mnehmos-crm-suite/src/app/api/webhooks/clerk/route.ts:104-118 | the upsert writes the upserted table when accepted and nothing otherwise; the store's unique constraints hold afterwards |
| Store.Database.CountPurchasesOf | mnehmos-crm-suite/src/middleware.ts:98-101 | the exact count of a user's purchases, or null on a store error |
| Store.Database.InsertPurchaseRow | mnehmos-crm-suite/src/app/api/webhooks/lemonsqueezy/route.ts:145 | the insert appends the purchase when accepted and writes nothing otherwise; the store's unique constraints hold afterwards |
| Store.Database.SelectLeadsOf | mnehmos-crm-suite/src/app/api/leads/route.ts:122-126 | the leads select returns the owner's listing, or null on a store error |
| Store.Database.InsertLeadRow | mnehmos-crm-suite/src/app/api/leads/route.ts:214-218 | the insert appends the lead when accepted and writes nothing otherwise; the store's unique constraints hold afterwards |
| Identity.ResolveUser | mnehmos-crm-suite/src/middleware.ts:36-87 | the step-by-step resolution returns the id and leaves the `users` table that the resolution function gives; the store's unique constraints hold afterwards |
| Identity.ResolveByClerkId | mnehmos-crm-suite/src/middleware.ts:39-46 | a user already carrying the identity is found by the first lookup, with no write, whatever the email |
| Identity.ResolveLinksUnclaimedEmail | mnehmos-crm-suite/src/middleware.ts:57-78 | with no row carrying the identity, the row holding the primary email with a null `clerk_id` is linked and returned; only its `clerk_id` and `updated_at` change |
| Identity.ResolveAcceptsSameId | mnehmos-crm-suite/src/middleware.ts:79-80 | a row found by email that already carries the same identity is returned without a write |
| Identity.ResolveConflictGrantsNothing | mnehmos-crm-suite/src/app/api/leads/route.ts:77-81 | when the primary email belongs to a row linked to another identity, nothing is resolved and nothing is written |
| Identity.ResolveOnlyLinks | mnehmos-crm-suite/src/middleware.ts:36-87 | a resolution keeps the table's length and every linked row; the only row it may change is the returned one, and only by setting its null `clerk_id` to the caller's identity |
| Identity.ResolveSound | mnehmos-crm-suite/src/middleware.ts:36-87 | a resolved id names a row that carries the caller's identity afterwards, and the constraints still hold |
| Identity.ResolveMonotonic | mnehmos-crm-suite/src/middleware.ts:39-46 | once an identity resolves, every later resolution of it returns the same user by the `clerk_id` lookup and writes nothing |
| Middleware.Handle | mnehmos-crm-suite/src/middleware.ts:21-122 | the middleware's decision and `users` table equal those of the gate function on the tables before the request; the store's unique constraints hold afterwards |
| Middleware.PublicAndProtectedDisjoint | mnehmos-crm-suite/src/middleware.ts:7-19 | no path is both public and protected |
| Middleware.PublicRoutePasses | mnehmos-crm-suite/src/middleware.ts:23-25 | a public route passes whoever asks, with no write |
| Middleware.UnauthenticatedPasses | mnehmos-crm-suite/src/middleware.ts:30-32 | a request without a signed-in identity passes, with no write |
| Middleware.UnlistedRoutePasses | mnehmos-crm-suite/src/middleware.ts:120-121 | a route neither public nor protected passes, with no write |
| Middleware.GateOnlyLinks | mnehmos-crm-suite/src/middleware.ts:36-87 | the only write the middleware makes is the linking of one unlinked row to the caller; the constraints still hold |
| Middleware.ConflictRedirectsToSignIn | mnehmos-crm-suite/src/middleware.ts:89-95 | a caller whose email belongs to a row linked to another identity is sent to `/sign-in`, with no write |
| Middleware.PurchaseGate | mnehmos-crm-suite/src/middleware.ts:98-116 | for a resolved user, a failed count passes (fails open); otherwise the user is sent to `/` exactly when they have no purchase and the path is under `/dashboard` |
| Middleware.LeadsApiNeverRedirectedHome | mnehmos-crm-suite/src/middleware.ts:109-116 | a leads API path is never purchase-redirected by the middleware |
| Middleware.LinkedPayingUserPasses | mnehmos-crm-suite/src/middleware.ts:35-121 | a linked user with a purchase passes a protected route, with no write |
| LeadsApi.HandleGet | mnehmos-crm-suite/src/app/api/leads/route.ts:8-146 | GET's answer and `users` table equal those of the GET function on the tables before the request; the store's unique constraints hold afterwards |
| LeadsApi.GetUnauthorized | mnehmos-crm-suite/src/app/api/leads/route.ts:13-16 | without a session GET answers 401, with no write |
| LeadsApi.GetNotFoundIffUnresolved | mnehmos-crm-suite/src/app/api/leads/route.ts:96-99 | GET answers 404 exactly when the resolution yields no user |
| LeadsApi.GetConflictGrantsNothing | mnehmos-crm-suite/src/app/api/leads/route.ts:77-81 | an email conflict answers 404, with no write |
| LeadsApi.GetGateOrder | mnehmos-crm-suite/src/app/api/leads/route.ts:103-116 | for a resolved user, a failed count answers 500, then no purchase answers 403, and until then the answer does not depend on the leads table |
| LeadsApi.GetListsOwnLeadsNewestFirst | mnehmos-crm-suite/src/app/api/leads/route.ts:122-136 | a 200 lists exactly the caller's leads, newest first, as a permutation of their rows |
| LeadsApi.GetAgreesWithMiddleware | mnehmos-crm-suite/src/app/api/leads/route.ts:18-99 | on a leads path GET answers 404 exactly when the middleware sends to `/sign-in`; both leave the same table, and a 200 is only given to a request the middleware passes |
| LeadsApi.GetAfterMiddlewareWritesNothing | mnehmos-crm-suite/src/app/api/leads/route.ts:20-29 | after the middleware has passed a request, GET resolves the same user by `clerk_id` and writes nothing |
| LeadsApi.NewLead | mnehmos-crm-suite/src/app/api/leads/route.ts:199-211 | the inserted lead has the caller as owner and the name as given; its status is the one given or `Leads`; each optional field is kept when truthy and null otherwise |
| LeadsApi.HandlePost | mnehmos-crm-suite/src/app/api/leads/route.ts:149-235 | POST's answer and `leads` table equal those of the POST function on the tables before the request; the store's unique constraints hold afterwards |
| LeadsApi.PostRequiresLinkedUser | mnehmos-crm-suite/src/app/api/leads/route.ts:159-174 | a caller whose identity no row carries gets 404 whatever the body, with no write; POST never links |
| LeadsApi.PostWritesOnlyOnCreate | mnehmos-crm-suite/src/app/api/leads/route.ts:213-225 | POST writes exactly when it answers 201, and then appends exactly the lead it returns |
| LeadsApi.PostCreates | mnehmos-crm-suite/src/app/api/leads/route.ts:195-225 | a linked caller with a named body gets 201 and a new lead of theirs under a fresh key; the status is stored unchecked |
| LeadsApi.PostRejectsBadBody | mnehmos-crm-suite/src/app/api/leads/route.ts:176-197 | a body that is not JSON, or one without a name, answers 400 with no write |
| PaymentWebhook.Utf8Length | mnehmos-crm-suite/src/app/api/webhooks/lemonsqueezy/route.ts:74-75 | the UTF-8 byte length of a string lies between its length and four times it |
| PaymentWebhook.Utf8LengthAscii | mnehmos-crm-suite/src/app/api/webhooks/lemonsqueezy/route.ts:74-75 | an ASCII string has as many UTF-8 bytes as characters |
| PaymentWebhook.AuthenticateAsWritten | mnehmos-crm-suite/src/app/api/webhooks/lemonsqueezy/route.ts:73-80 | the comparison as written throws exactly when the byte lengths differ, and verifies exactly when the signature is the digest |
| PaymentWebhook.Authenticate | mnehmos-crm-suite/src/app/api/webhooks/lemonsqueezy/route.ts:73-80 | the corrected comparison never throws and verifies exactly when the signature is the digest |
| PaymentWebhook.AuthenticateAgreesOnEqualLengths | mnehmos-crm-suite/src/app/api/webhooks/lemonsqueezy/route.ts:73-80 | the two comparisons agree whenever the byte lengths are equal; they differ only where the one as written throws |
| PaymentWebhook.ShortSignatureThrows | mnehmos-crm-suite/src/app/api/webhooks/lemonsqueezy/route.ts:77 | the signature `00` against a 64-character hexadecimal digest makes the comparison as written throw; the corrected one reports a mismatch |
| PaymentWebhook.ReceiveAsWrittenDiffers | mnehmos-crm-suite/src/app/api/webhooks/lemonsqueezy/route.ts:72-80 | the webhook as written answers as the corrected one, except that a signature of the wrong byte length crashes it (500, no write) where the corrected one answers 401 |
| PaymentWebhook.ShortSignatureCrashes | mnehmos-crm-suite/src/app/api/webhooks/lemonsqueezy/route.ts:77 | the signature `00` against a 64-character hexadecimal digest gets 500 from the webhook as written and 401 from the corrected one |
| PaymentWebhook.PurchaseRecordKeysOrder | mnehmos-crm-suite/src/app/api/webhooks/lemonsqueezy/route.ts:102-143 | the recorded purchase is keyed by its order: the order number reads back from the order id, and two events with order numbers share a key exactly when they are for the same order |
| PaymentWebhook.HandleWebhook | mnehmos-crm-suite/src/app/api/webhooks/lemonsqueezy/route.ts:56-164 | the webhook's answer and `purchases` table equal those of the webhook function on the tables before the request; the store's unique constraints hold afterwards |
| PaymentWebhook.ChecksInOrder | mnehmos-crm-suite/src/app/api/webhooks/lemonsqueezy/route.ts:57-80 | no secret answers 500, then no signature 400, then a signature other than the digest 401, each exactly in its case and with no write |
| PaymentWebhook.BodyAndEventChecks | mnehmos-crm-suite/src/app/api/webhooks/lemonsqueezy/route.ts:82-163 | after a verified signature, a body that is not JSON answers 400, and any event other than the two purchase events answers 200; neither writes |
| PaymentWebhook.NoRecordWithoutEmailOrLookup | mnehmos-crm-suite/src/app/api/webhooks/lemonsqueezy/route.ts:109-125 | a purchase event without payer email is acknowledged with 200, and a failed user lookup answers 500; neither writes |
| PaymentWebhook.WritesOnlyWhenProcessed | mnehmos-crm-suite/src/app/api/webhooks/lemonsqueezy/route.ts:133-153 | the webhook writes exactly when it answers "processed", and then appends exactly the event's purchase record |
| PaymentWebhook.ProcessLinksPayer | mnehmos-crm-suite/src/app/api/webhooks/lemonsqueezy/route.ts:115-145 | a new order is recorded; it is linked to the user holding the payer email, whose purchase count grows by one, or to no user when none holds it |
| PaymentWebhook.DuplicateOrderFails | mnehmos-crm-suite/src/app/api/webhooks/lemonsqueezy/route.ts:145-150 | an event whose order is already recorded answers 500 and writes nothing |
| PaymentWebhook.RedeliveryRecordsOnce | mnehmos-crm-suite/src/app/api/webhooks/lemonsqueezy/route.ts:145-150 | a processed request delivered again answers 500 and records nothing more |
| PaymentWebhook.ReceivePreservesValid | mnehmos-crm-suite/src/app/api/webhooks/lemonsqueezy/route.ts:145-150 | the webhook keeps order ids unique |
| ClerkWebhook.FullName | mnehmos-crm-suite/src/app/api/webhooks/clerk/route.ts:80-87 | the full name is both name parts joined by one space, or the one that is truthy, or undefined when neither is |
| ClerkWebhook.Normalize | mnehmos-crm-suite/src/app/api/webhooks/clerk/route.ts:70-98 | an accepted payload always carries a truthy `clerk_id` and email |
| ClerkWebhook.HandleSync | mnehmos-crm-suite/src/app/api/webhooks/clerk/route.ts:33-131 | the webhook's answer and `users` table equal those of the sync function on the table before the request; the store's unique constraints hold afterwards |
| ClerkWebhook.EventUsesFirstEmail | mnehmos-crm-suite/src/app/api/webhooks/clerk/route.ts:70-78 | an event is read from `data`: its id, its first email address and its joined name; a missing or empty address list answers 400 with no write |
| ClerkWebhook.DirectRecordUsedAsIs | mnehmos-crm-suite/src/app/api/webhooks/clerk/route.ts:94-98 | without an event id, a record with `clerk_id` and email is used as it is; otherwise the answer is 400 with no write |
| ClerkWebhook.IdsRequiredUnreachable | mnehmos-crm-suite/src/app/api/webhooks/clerk/route.ts:100-102 | the later check for `clerk_id` and email never answers any request |
| ClerkWebhook.SyncWritesOnlyOnSuccess | mnehmos-crm-suite/src/app/api/webhooks/clerk/route.ts:104-125 | only a 200 writes, and the constraints still hold after it |
| ClerkWebhook.SyncIsKeyedUpsert | mnehmos-crm-suite/src/app/api/webhooks/clerk/route.ts:104-118 | after a 200 exactly one row carries the identity, with the request's email and name; every row of another identity is unchanged |
| ClerkWebhook.SyncOutcome | mnehmos-crm-suite/src/app/api/webhooks/clerk/route.ts:104-123 | with no store error a normalised request succeeds exactly when no row of another identity holds its email; otherwise it answers 500 with no write |
| ClerkWebhook.SyncIdempotent | mnehmos-crm-suite/src/app/api/webhooks/clerk/route.ts:104-118 | delivering the same event twice leaves the table as one delivery does |
| LeadForm.Changed | mnehmos-crm-suite/src/components/LeadFormModal.tsx:88-96 | a change event sets the named field to the value, or to null when it is empty, and keeps every other field |
| LeadForm.ChangedOverrides | mnehmos-crm-suite/src/components/LeadFormModal.tsx:88-96 | a second change of a field overrides the first |
| LeadForm.ChangedCommutes | mnehmos-crm-suite/src/components/LeadFormModal.tsx:88-96 | changes of different fields commute |
| LeadForm.ChangedKeepsNoEmptyValues | mnehmos-crm-suite/src/components/LeadFormModal.tsx:94 | change events never store the empty string |
| LeadForm.FromLeadRoundTrip | mnehmos-crm-suite/src/components/LeadFormModal.tsx:62-72 | filling the form from a lead loses nothing: the unedited record describes the lead itself, and a record with a name and a status is recovered from the lead it describes |
| LeadForm.EditChangesOneField | mnehmos-crm-suite/src/components/LeadFormModal.tsx:62-96 | editing one optional field of a lead's record describes the lead with only that field changed, under the same id |
| Dashboard.NewLeadFormOutcome | mnehmos-crm-suite/src/components/LeadFormModal.tsx:47-58 | the new-lead form as first shown is refused by POST for want of a name; once a name is typed it creates a lead with that name, in the board's first column, with every optional field null |
| LeadForm.LeadFormModal.constructor | mnehmos-crm-suite/src/components/LeadFormModal.tsx:47-58 | the form starts with the blank record, not submitting and without error |
| LeadForm.LeadFormModal.SyncWithLead | mnehmos-crm-suite/src/components/LeadFormModal.tsx:61-86 | the effect fills the record from the lead, or resets it to the blank record |
| LeadForm.LeadFormModal.HandleChange | mnehmos-crm-suite/src/components/LeadFormModal.tsx:88-96 | a change event replaces the record by its changed version |
| LeadForm.LeadFormModal.HandleSubmit | mnehmos-crm-suite/src/components/LeadFormModal.tsx:98-111 | a submit hands over the record unchanged; it asks to close exactly when the handler resolves, otherwise shows the error; submitting ends either way |
| Dashboard.LeadsByStatusMembers | mnehmos-crm-suite/src/app/dashboard/page.tsx:196-198 | a column holds exactly the leads with its status |
| Dashboard.OffBoardMembers | mnehmos-crm-suite/src/app/dashboard/page.tsx:230-240 | the leads shown in no column are exactly those whose status is none of the four |
| Dashboard.ColumnsSeparateLeads | mnehmos-crm-suite/src/app/dashboard/page.tsx:230-240 | a lead shows in exactly the column of its status, and in none when its status is not a column |
| Dashboard.BoardPartition | mnehmos-crm-suite/src/app/dashboard/page.tsx:230-240 | the board's cards and the leads off the board together are the list, each lead as often as it is held |
| Dashboard.BoardShowsAll | mnehmos-crm-suite/src/app/dashboard/page.tsx:230-240 | when every status is a column, the board shows every lead of the list exactly once per occurrence |
| Dashboard.UpdateStatus | mnehmos-crm-suite/src/app/dashboard/page.tsx:106-110 | the status update keeps length and order, gives the new status to the leads with the id, and changes nothing else |
| Dashboard.UpdateStatusMovesCard | mnehmos-crm-suite/src/app/dashboard/page.tsx:106-110 | after a status update the lead shows only in the column of its new status; other cards stay |
| Dashboard.WithoutIdMembers | mnehmos-crm-suite/src/app/dashboard/page.tsx:145 | the delete filter keeps exactly the leads with another id |
| Dashboard.WithoutIdColumns | mnehmos-crm-suite/src/app/dashboard/page.tsx:145 | deleting takes the card out of its column and changes no column otherwise |
| Dashboard.WithoutIdAbsent | mnehmos-crm-suite/src/app/dashboard/page.tsx:145 | deleting an id no lead has leaves the list as it was, so deleting twice is deleting once |
| Dashboard.ReplaceByIdOutcome | mnehmos-crm-suite/src/app/dashboard/page.tsx:172-174 | after an edit no lead keeps the edited id except the server's copy, which is in the list whenever a lead had the id; an id no lead has leaves the list as it was |
| Dashboard.ReplaceByIdAt | mnehmos-crm-suite/src/app/dashboard/page.tsx:172-174 | with unique ids, the edit replaces exactly the one position holding the id |
| Dashboard.PrependTopsColumn | mnehmos-crm-suite/src/app/dashboard/page.tsx:192 | a created lead heads the column of its status, and the other columns do not change |
| Dashboard.DashboardPage.constructor | mnehmos-crm-suite/src/app/dashboard/page.tsx:26-32 | the page starts with no leads, loading, no error and no dialog open |
| Dashboard.DashboardPage.FetchLeads | mnehmos-crm-suite/src/app/dashboard/page.tsx:37-88 | before the session loads the page keeps loading; without a session it shows the sign-in error; otherwise it holds the fetched list or shows the error, and loading ends |
| Dashboard.DashboardPage.UpdateLeadStatus | mnehmos-crm-suite/src/app/dashboard/page.tsx:92-115 | an accepted status change updates the list; a failed one changes nothing |
| Dashboard.DashboardPage.HandleAddLead | mnehmos-crm-suite/src/app/dashboard/page.tsx:117-120 | the form opens with no lead selected |
| Dashboard.DashboardPage.HandleEditLead | mnehmos-crm-suite/src/app/dashboard/page.tsx:122-125 | the form opens on the chosen lead |
| Dashboard.DashboardPage.HandleDeleteLead | mnehmos-crm-suite/src/app/dashboard/page.tsx:127-130 | the confirmation opens for the chosen lead |
| Dashboard.DashboardPage.CancelDelete | mnehmos-crm-suite/src/app/dashboard/page.tsx:338-341 | cancelling closes the confirmation and forgets the lead |
| Dashboard.DashboardPage.CloseModal | mnehmos-crm-suite/src/app/dashboard/page.tsx:324 | the form's close request closes it |
| Dashboard.DashboardPage.ConfirmDeleteLead | mnehmos-crm-suite/src/app/dashboard/page.tsx:132-152 | with no lead chosen, or a failed request, nothing changes; an accepted delete removes the lead and closes the confirmation |
| Dashboard.DashboardPage.HandleSubmitLead | mnehmos-crm-suite/src/app/dashboard/page.tsx:154-194 | a saved edit replaces the lead by the server's copy and a saved create prepends it; a rejected request throws the matching message and changes nothing |
| Dashboard.SubmitLeadForm | mnehmos-crm-suite/src/app/dashboard/page.tsx:322-328 | a saved submit closes the form without error; a rejected one keeps the list and the form, which shows the page's message |
| Dashboard.CreatedLeadMatchesForm | mnehmos-crm-suite/src/app/dashboard/page.tsx:177-183 | a form record posted to create a lead is stored field for field as the form holds it, with the status chosen or `Leads` |

## Left out

- Network, rendering and logging are not modelled: `fetch`, JSX, `console.*`, and
  the early `return null` of a closed form.
- Clerk's services (`auth()`, `getAuth`, `clerkClient().users.getUser`,
  `useAuth`) are inputs. A failed `getUser` is the same as a user without a
  primary email: both leave the id unresolved.
- HMAC-SHA256 is the input function `hmacHex`. JSON parsing is the input `parse`
  (webhook) or a datatype of body shapes (the other handlers). A field holding a
  JSON value that is not a string, such as `name: 5`, is not modelled.
- The middleware's `config.matcher`, which skips static files, is not part of
  this model. Route patterns are matched as prefixes (`(.*)`) or exact paths,
  with no trailing-slash or query handling.
- Timestamps are integers, and `new Date()` is the input `now`. Only their order
  matters.
- `LemonSqueezyEvent.DecimalString` writes every integer in plain digits. It does
  not model the exponent notation JavaScript uses from 1e21 upwards, nor a
  fractional order number.
- `Tables.SortNewestFirst` keeps the table order of leads with equal
  `created_at`. The store leaves that order unspecified.
- The PATCH and DELETE endpoints (`api/leads/[id]/route.ts`) are not part of this
  model. The dashboard receives their outcome as an input.
- `Dashboard.DashboardPage.FetchLeads` takes the fetched list as full client
  leads. The GET endpoint does not select `phone`, so on the real page `phone` is
  undefined in every fetched lead and the edit form shows it empty.
- Concurrency between requests, and React's batching and ordering of state
  updates, are not modelled. Each handler runs to completion against the tables
  as they are.
- PaymentWebhook.HandleWebhook: it uses the corrected signature comparison, as does
  `PaymentWebhook.Receive`, so a signature of the wrong byte length gets 401 where
  the source fails with 500. `PaymentWebhook.ReceiveAsWritten` keeps the source's
  behaviour beside it (see Findings).
- PaymentWebhook.ChecksInOrder: its 401 clause is about the corrected webhook. The
  source answers a signature of the wrong byte length with 500 instead.

## Findings

| source | as written | input that shows it | evidently intended | confidence | as-written member | corrected member |
|---|---|---|---|---|---|---|
| mnehmos-crm-suite/src/app/api/webhooks/lemonsqueezy/route.ts:73-80 | `crypto.timingSafeEqual(digest, receivedSignature)` throws when the two buffers differ in byte length. Nothing catches it there, so the request fails with 500 (`PaymentWebhook.ReceiveAsWritten`, `PaymentWebhook.ShortSignatureCrashes`) | header `X-Signature: 00` with any body, against the 64-character hexadecimal digest | a signature of the wrong length is an invalid signature and is answered 401 | high; not executed | PaymentWebhook.AuthenticateAsWritten | PaymentWebhook.Authenticate |
