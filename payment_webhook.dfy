/** The payment provider's webhook: an ordered chain of checks (secret,
    signature, body, event kind, payer email), then the purchase record built
    from the event and appended to `purchases`, linked to the user holding the
    payer's email when there is one. */
module PaymentWebhook {
  import opened Common
  import opened Tables
  import opened Store
  import opened LemonSqueezyEvent

  /** The answers of the webhook, each with its HTTP status. */
  datatype WebhookResponse =
    | SecretMissing          // 500, no signing secret configured
    | SignatureMissing       // 400, no `X-Signature` header
    | SignatureInvalid       // 401
    | PayloadInvalid         // 400, the body is not JSON
    | Crashed                // 500, an exception escaped the handler
    | EventIgnored           // 200, an event kind that records nothing
    | ProcessingFailed       // 500, an exception caught while processing
    | EmailMissing           // 200, acknowledged without a record
    | UserLookupFailed       // 500
    | InsertFailed           // 500, including an order already recorded
    | Processed              // 200
  {
    function Code(): int
    {
      match this
      case SecretMissing => 500
      case SignatureMissing => 400
      case SignatureInvalid => 401
      case PayloadInvalid => 400
      case Crashed => 500
      case EventIgnored => 200
      case ProcessingFailed => 500
      case EmailMissing => 200
      case UserLookupFailed => 500
      case InsertFailed => 500
      case Processed => 200
    }
  }

  /** The raw body read as JSON: not JSON at all; JSON without `meta` (reading
      `meta.event_name` throws); JSON with an event name but without
      `data.attributes`; or a full payload. */
  datatype ParsedBody = NotJson | NoMeta | NoData(eventName: string) | Json(payload: Payload)

  /** Store errors injected into the user lookup and the insert. */
  datatype WebhookFaults = WebhookFaults(lookup: bool, insert: bool)

  /** The answer and the `purchases` table after the request. */
  datatype WebhookResult = WebhookResult(response: WebhookResponse, purchases: seq<Purchase>)

  /** What comparing the computed digest with the received signature gives. */
  datatype Verdict = Verified | Mismatch | Throws

  // ------------------------------------------------------ signature check

  /** The number of bytes of the UTF-8 encoding of a string. */
  function Utf8Length(s: string): (n: nat)
    ensures |s| <= n <= 4 * |s|
  {
    if s == [] then 0
    else
      var c := s[0] as int;
      (if c < 0x80 then 1 else if c < 0x800 then 2 else if c < 0x1_0000 then 3 else 4) + Utf8Length(s[1..])
  }

  /** A string of ASCII characters is as long in UTF-8 bytes as in
      characters. */
  lemma {:induction false} Utf8LengthAscii(s: string)
    requires forall i | 0 <= i < |s| :: s[i] as int < 0x80
    ensures Utf8Length(s) == |s|
  {
    if s != [] {
      Utf8LengthAscii(s[1..]);
    }
  }

  /** The signature check as written: both strings are turned into their
      UTF-8 bytes and compared with a constant-time comparison that throws
      when the byte lengths differ. `hmacHex` is HMAC-SHA256 of the body
      under the secret, in hexadecimal. Equal byte sequences are equal
      strings, since UTF-8 encodes distinct strings distinctly. */
  function AuthenticateAsWritten(secret: string, rawBody: string, signature: string,
                                 hmacHex: (string, string) -> string): (v: Verdict)
    ensures v == Throws <==> Utf8Length(hmacHex(secret, rawBody)) != Utf8Length(signature)
    ensures v == Verified <==> hmacHex(secret, rawBody) == signature
  {
    var digest := hmacHex(secret, rawBody);
    if Utf8Length(digest) != Utf8Length(signature) then Throws
    else if digest == signature then Verified
    else Mismatch
  }

  /** The signature check as evidently intended: any signature other than
      the digest is a mismatch, whatever its length. */
  function Authenticate(secret: string, rawBody: string, signature: string,
                        hmacHex: (string, string) -> string): (v: Verdict)
    ensures v != Throws
    ensures v == Verified <==> hmacHex(secret, rawBody) == signature
  {
    if hmacHex(secret, rawBody) == signature then Verified else Mismatch
  }

  /** The two checks agree on every signature of the digest's byte length;
      they differ only where the one as written throws. */
  lemma AuthenticateAgreesOnEqualLengths(secret: string, rawBody: string, signature: string,
                                         hmacHex: (string, string) -> string)
    ensures Utf8Length(hmacHex(secret, rawBody)) == Utf8Length(signature) ==>
              AuthenticateAsWritten(secret, rawBody, signature, hmacHex) == Authenticate(secret, rawBody, signature, hmacHex)
    ensures AuthenticateAsWritten(secret, rawBody, signature, hmacHex) != Authenticate(secret, rawBody, signature, hmacHex) ==>
              AuthenticateAsWritten(secret, rawBody, signature, hmacHex) == Throws
  {
  }

  /** A forged signature of the wrong length, such as `00` against a
      64-character hexadecimal digest, makes the check as written throw, so
      the request is answered 500 instead of 401. */
  lemma ShortSignatureThrows(secret: string, rawBody: string, hmacHex: (string, string) -> string)
    requires |hmacHex(secret, rawBody)| == 64
    requires forall i | 0 <= i < 64 :: hmacHex(secret, rawBody)[i] as int < 0x80
    ensures AuthenticateAsWritten(secret, rawBody, "00", hmacHex) == Throws
    ensures Authenticate(secret, rawBody, "00", hmacHex) == Mismatch
  {
    Utf8LengthAscii(hmacHex(secret, rawBody));
    Utf8LengthAscii("00");
  }

  // ------------------------------------------------------------ the record

  /** The purchase recorded for an event: the derived order id and product
      name, the payer's email, the amount, currency and status as sent, the
      user found for the email (or null), and the whole payload. */
  function PurchaseRecord(payload: Payload, userId: Option<string>): (p: Purchase)
    requires payload.data.attributes.userEmail.Some?
    ensures p.orderId == OrderId(payload.data) && p.userId == userId
    ensures p.userEmail == payload.data.attributes.userEmail.value
    ensures p.productName == ProductName(payload.data.attributes)
    ensures p.totalAmount == payload.data.attributes.total && p.currency == payload.data.attributes.currency
    ensures p.status == payload.data.attributes.status && p.rawPayload == payload
  {
    var attributes := payload.data.attributes;
    Purchase(OrderId(payload.data), userId, attributes.userEmail.value, ProductName(attributes),
             attributes.total, attributes.currency, attributes.status, payload)
  }

  /** The record is keyed by the order: the order number can be read back
      from its order id, and two events carrying order numbers give records
      with the same key exactly when they are for the same order. */
  lemma PurchaseRecordKeysOrder(p1: Payload, p2: Payload, u1: Option<string>, u2: Option<string>)
    requires p1.data.attributes.userEmail.Some? && p2.data.attributes.userEmail.Some?
    ensures p1.data.attributes.orderNumber.Some? ==>
              ParseDecimal(PurchaseRecord(p1, u1).orderId) == p1.data.attributes.orderNumber
    ensures p1.data.attributes.orderNumber.Some? && p2.data.attributes.orderNumber.Some? ==>
              (PurchaseRecord(p1, u1).orderId == PurchaseRecord(p2, u2).orderId <==>
               p1.data.attributes.orderNumber == p2.data.attributes.orderNumber)
  {
    if p1.data.attributes.orderNumber.Some? {
      DecimalRoundTrip(p1.data.attributes.orderNumber.value);
    }
    OrderIdKeys(p1.data, p2.data);
  }

  /** `userData?.id || null`: the id of the row `.single()` found, null
      when there was none. */
  function LinkedUser(q: Single<User>): Option<string>
  {
    if q.Row? && q.row.id != "" then Some(q.row.id) else None
  }

  /** The processing of a purchase event, from the payer email on. */
  function Process(users: seq<User>, purchases: seq<Purchase>, payload: Payload, f: WebhookFaults): WebhookResult
  {
    var email := payload.data.attributes.userEmail;
    if !Truthy(email) then WebhookResult(EmailMissing, purchases)
    else
      var q := SelectSingle(users, ByEmail(email.value), f.lookup);
      if q.Failed? then WebhookResult(UserLookupFailed, purchases)
      else
        match InsertPurchase(purchases, PurchaseRecord(payload, LinkedUser(q)), f.insert)
        case Some(inserted) => WebhookResult(Processed, inserted)
        case None => WebhookResult(InsertFailed, purchases)
  }

  /** The webhook, as a function of the tables before the request. `secret`
      is the configured signing secret, `signature` the `X-Signature`
      header, `parse` the JSON reading of the body. */
  function Receive(users: seq<User>, purchases: seq<Purchase>, secret: Option<string>, rawBody: string,
                   signature: Option<string>, hmacHex: (string, string) -> string,
                   parse: string -> ParsedBody, f: WebhookFaults): WebhookResult
  {
    if !Truthy(secret) then WebhookResult(SecretMissing, purchases)
    else if !Truthy(signature) then WebhookResult(SignatureMissing, purchases)
    else if Authenticate(secret.value, rawBody, signature.value, hmacHex) != Verified then
      WebhookResult(SignatureInvalid, purchases)
    else
      match parse(rawBody)
      case NotJson => WebhookResult(PayloadInvalid, purchases)
      case NoMeta => WebhookResult(Crashed, purchases)
      case NoData(eventName) =>
        if IsPurchaseEvent(eventName) then WebhookResult(ProcessingFailed, purchases)
        else WebhookResult(EventIgnored, purchases)
      case Json(payload) =>
        if IsPurchaseEvent(payload.eventName) then Process(users, purchases, payload, f)
        else WebhookResult(EventIgnored, purchases)
  }

  /** The webhook as written: the comparison at the signature check may
      throw, and nothing there catches it, so the request fails with 500.
      Everywhere else it is `Receive`. */
  function ReceiveAsWritten(users: seq<User>, purchases: seq<Purchase>, secret: Option<string>, rawBody: string,
                            signature: Option<string>, hmacHex: (string, string) -> string,
                            parse: string -> ParsedBody, f: WebhookFaults): WebhookResult
  {
    if Truthy(secret) && Truthy(signature) && AuthenticateAsWritten(secret.value, rawBody, signature.value, hmacHex) == Throws
    then WebhookResult(Crashed, purchases)
    else Receive(users, purchases, secret, rawBody, signature, hmacHex, parse, f)
  }

  /** The webhook as written answers as the corrected one, except that a
      signature of the wrong byte length crashes it (500) where the
      corrected one answers 401; neither then writes. */
  lemma ReceiveAsWrittenDiffers(users: seq<User>, purchases: seq<Purchase>, secret: Option<string>, rawBody: string,
                                signature: Option<string>, hmacHex: (string, string) -> string,
                                parse: string -> ParsedBody, f: WebhookFaults)
    ensures var w := ReceiveAsWritten(users, purchases, secret, rawBody, signature, hmacHex, parse, f);
      var c := Receive(users, purchases, secret, rawBody, signature, hmacHex, parse, f);
      w != c ==> w == WebhookResult(Crashed, purchases) && c == WebhookResult(SignatureInvalid, purchases)
  {
    var w := ReceiveAsWritten(users, purchases, secret, rawBody, signature, hmacHex, parse, f);
    if w != Receive(users, purchases, secret, rawBody, signature, hmacHex, parse, f) {
      AuthenticateAgreesOnEqualLengths(secret.value, rawBody, signature.value, hmacHex);
    }
  }

  /** The forged signature `00` against a 64-character hexadecimal digest
      crashes the webhook as written (500) and is answered 401 by the
      corrected one. */
  lemma ShortSignatureCrashes(users: seq<User>, purchases: seq<Purchase>, secret: string, rawBody: string,
                              hmacHex: (string, string) -> string, parse: string -> ParsedBody, f: WebhookFaults)
    requires secret != ""
    requires |hmacHex(secret, rawBody)| == 64
    requires forall i | 0 <= i < 64 :: hmacHex(secret, rawBody)[i] as int < 0x80
    ensures ReceiveAsWritten(users, purchases, Some(secret), rawBody, Some("00"), hmacHex, parse, f).response.Code() == 500
    ensures Receive(users, purchases, Some(secret), rawBody, Some("00"), hmacHex, parse, f).response.Code() == 401
  {
    ShortSignatureThrows(secret, rawBody, hmacHex);
  }

  /** The webhook against the store; it never writes `users`. */
  method HandleWebhook(db: Database, secret: Option<string>, rawBody: string, signature: Option<string>,
                       hmacHex: (string, string) -> string, parse: string -> ParsedBody, f: WebhookFaults)
    returns (response: WebhookResponse)
    modifies db`purchases
    requires db.Valid()
    ensures db.Valid()
    ensures WebhookResult(response, db.purchases) ==
              Receive(db.users, old(db.purchases), secret, rawBody, signature, hmacHex, parse, f)
  {
    if !Truthy(secret) {
      return SecretMissing;
    }
    if !Truthy(signature) {
      return SignatureMissing;
    }
    if Authenticate(secret.value, rawBody, signature.value, hmacHex) != Verified {
      return SignatureInvalid;
    }
    var parsed := parse(rawBody);
    if parsed.NotJson? {
      return PayloadInvalid;
    }
    if parsed.NoMeta? {
      return Crashed;
    }
    if parsed.NoData? {
      return if IsPurchaseEvent(parsed.eventName) then ProcessingFailed else EventIgnored;
    }
    var payload := parsed.payload;
    if !IsPurchaseEvent(payload.eventName) {
      return EventIgnored;
    }
    var userEmail := payload.data.attributes.userEmail;
    if !Truthy(userEmail) {
      return EmailMissing;
    }
    var userData := db.SelectUser(ByEmail(userEmail.value), f.lookup);
    if userData.Failed? {
      return UserLookupFailed;
    }
    var ok := db.InsertPurchaseRow(PurchaseRecord(payload, LinkedUser(userData)), f.insert);
    if !ok {
      return InsertFailed;
    }
    return Processed;
  }

  // ------------------------------------------------------------ properties

  /** The first three checks run in order and write nothing: no secret
      answers 500, then no signature 400, then a signature other than the
      digest 401; a request passing all three is never answered by them. */
  lemma ChecksInOrder(users: seq<User>, purchases: seq<Purchase>, secret: Option<string>, rawBody: string,
                      signature: Option<string>, hmacHex: (string, string) -> string,
                      parse: string -> ParsedBody, f: WebhookFaults)
    ensures var w := Receive(users, purchases, secret, rawBody, signature, hmacHex, parse, f);
      && (w.response == SecretMissing <==> !Truthy(secret))
      && (w.response == SignatureMissing <==> Truthy(secret) && !Truthy(signature))
      && (w.response == SignatureInvalid <==>
            Truthy(secret) && Truthy(signature) && hmacHex(secret.value, rawBody) != signature.value)
      && (w.response in {SecretMissing, SignatureMissing, SignatureInvalid} ==> w.purchases == purchases)
  {
  }

  /** After a verified signature, a body that is not JSON answers 400, and
      any event kind other than the two purchase events answers 200; neither
      writes. */
  lemma BodyAndEventChecks(users: seq<User>, purchases: seq<Purchase>, secret: string, rawBody: string,
                           hmacHex: (string, string) -> string, parse: string -> ParsedBody, f: WebhookFaults)
    requires secret != "" && hmacHex(secret, rawBody) != ""
    ensures var w := Receive(users, purchases, Some(secret), rawBody, Some(hmacHex(secret, rawBody)), hmacHex, parse, f);
      && (parse(rawBody).NotJson? ==> w == WebhookResult(PayloadInvalid, purchases))
      && (parse(rawBody).Json? && !IsPurchaseEvent(parse(rawBody).payload.eventName) ==>
            w == WebhookResult(EventIgnored, purchases))
  {
  }

  /** A purchase event without a payer email is acknowledged with 200 and
      records nothing; a failed user lookup answers 500 and records
      nothing. */
  lemma NoRecordWithoutEmailOrLookup(users: seq<User>, purchases: seq<Purchase>, payload: Payload, f: WebhookFaults)
    ensures !Truthy(payload.data.attributes.userEmail) ==>
              Process(users, purchases, payload, f) == WebhookResult(EmailMissing, purchases)
    ensures Truthy(payload.data.attributes.userEmail) && f.lookup ==>
              Process(users, purchases, payload, f) == WebhookResult(UserLookupFailed, purchases)
  {
  }

  /** The webhook writes exactly when it answers `Processed`, and then
      appends exactly one purchase: the record of the event. */
  lemma WritesOnlyWhenProcessed(users: seq<User>, purchases: seq<Purchase>, secret: Option<string>, rawBody: string,
                                signature: Option<string>, hmacHex: (string, string) -> string,
                                parse: string -> ParsedBody, f: WebhookFaults)
    ensures var w := Receive(users, purchases, secret, rawBody, signature, hmacHex, parse, f);
      && (w.response == Processed <==> w.purchases != purchases)
      && (w.response == Processed ==>
            parse(rawBody).Json? &&
            exists userId: Option<string> :: w.purchases == purchases + [PurchaseRecord(parse(rawBody).payload, userId)])
  {
    var w := Receive(users, purchases, secret, rawBody, signature, hmacHex, parse, f);
    if w.response == Processed {
      var payload := parse(rawBody).payload;
      var q := SelectSingle(users, ByEmail(payload.data.attributes.userEmail.value), f.lookup);
      assert w.purchases == purchases + [PurchaseRecord(payload, LinkedUser(q))];
      assert |w.purchases| == |purchases| + 1;
    }
  }

  /** A paying user is linked: when a row holds the payer's email, the
      purchase carries that user's id and their purchase count grows by
      one; with no such row the purchase is still recorded, with a null
      user (no user row is created). */
  lemma ProcessLinksPayer(users: seq<User>, purchases: seq<Purchase>, payload: Payload)
    requires UsersValid(users) && PurchasesValid(purchases)
    requires Truthy(payload.data.attributes.userEmail)
    requires forall q | q in purchases :: q.orderId != OrderId(payload.data)
    ensures var email := payload.data.attributes.userEmail.value;
      var w := Process(users, purchases, payload, WebhookFaults(false, false));
      && w.response == Processed
      && PurchasesValid(w.purchases)
      && (forall u | u in users && u.email == email ::
            && w.purchases == purchases + [PurchaseRecord(payload, Some(u.id))]
            && PurchaseCount(w.purchases, u.id) == PurchaseCount(purchases, u.id) + 1)
      && ((forall u | u in users :: u.email != email) ==>
            w.purchases == purchases + [PurchaseRecord(payload, None)])
  {
    var email := payload.data.attributes.userEmail.value;
    var q := SelectSingle(users, ByEmail(email), false);
    var p := PurchaseRecord(payload, LinkedUser(q));
    InsertPurchaseOutcome(purchases, p);
    forall u | u in users && u.email == email
      ensures purchases + [p] == purchases + [PurchaseRecord(payload, Some(u.id))]
      ensures PurchaseCount(purchases + [p], u.id) == PurchaseCount(purchases, u.id) + 1
    {
      SelectSingleExact(users, ByEmail(email), u);
      var k :| 0 <= k < |users| && users[k] == u;
      PurchaseCountAppend(purchases, p, u.id);
    }
    if forall u | u in users :: u.email != email {
      var v: User :| true;
      SelectSingleExact(users, ByEmail(email), v);
    }
  }

  /** Redelivery is not idempotent: an event whose order is already
      recorded (the provider sending it again, say) fails the insert and is
      answered 500, and the table is unchanged. */
  lemma DuplicateOrderFails(users: seq<User>, purchases: seq<Purchase>, payload: Payload, f: WebhookFaults)
    requires PurchasesValid(purchases)
    requires Truthy(payload.data.attributes.userEmail) && !f.lookup
    requires exists q | q in purchases :: q.orderId == OrderId(payload.data)
    ensures Process(users, purchases, payload, f) == WebhookResult(InsertFailed, purchases)
  {
    var q := SelectSingle(users, ByEmail(payload.data.attributes.userEmail.value), f.lookup);
    InsertPurchaseOutcome(purchases, PurchaseRecord(payload, LinkedUser(q)));
  }

  /** Delivering the same request twice records it at most once: once the
      first delivery is processed, the second answers 500 and writes
      nothing. */
  lemma RedeliveryRecordsOnce(users: seq<User>, purchases: seq<Purchase>, secret: Option<string>, rawBody: string,
                              signature: Option<string>, hmacHex: (string, string) -> string,
                              parse: string -> ParsedBody, f: WebhookFaults, g: WebhookFaults)
    requires PurchasesValid(purchases) && !g.lookup
    requires Receive(users, purchases, secret, rawBody, signature, hmacHex, parse, f).response == Processed
    ensures var first := Receive(users, purchases, secret, rawBody, signature, hmacHex, parse, f).purchases;
      Receive(users, first, secret, rawBody, signature, hmacHex, parse, g) == WebhookResult(InsertFailed, first)
  {
    var payload := parse(rawBody).payload;
    var first := Receive(users, purchases, secret, rawBody, signature, hmacHex, parse, f).purchases;
    var q := SelectSingle(users, ByEmail(payload.data.attributes.userEmail.value), f.lookup);
    var p := PurchaseRecord(payload, LinkedUser(q));
    assert first == purchases + [p];
    assert p in first && p.orderId == OrderId(payload.data);
    DuplicateOrderFails(users, first, payload, g);
  }

  /** The webhook keeps `order_id` unique. */
  lemma ReceivePreservesValid(users: seq<User>, purchases: seq<Purchase>, secret: Option<string>, rawBody: string,
                              signature: Option<string>, hmacHex: (string, string) -> string,
                              parse: string -> ParsedBody, f: WebhookFaults)
    requires PurchasesValid(purchases)
    ensures PurchasesValid(Receive(users, purchases, secret, rawBody, signature, hmacHex, parse, f).purchases)
  {
  }
}
