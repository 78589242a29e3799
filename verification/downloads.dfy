/**
 * The two `/download-photo/:photoId/:orderId/:customerEmail` handlers: the
 * authorization gate, which checks order, item and original file before it
 * asks storage for a signed URL, and the counter-based quota variant
 * registered later on the same path. Signed-URL generation is a foreign call:
 * the gate receives it as a function, the quota variant as the outcome of the
 * call for this request.
 */
module Downloads {
  import opened Base
  import opened Orders

  predicate IsHexOrDash(c: char) {
    ('0' <= c <= '9') || ('a' <= c <= 'f') || ('A' <= c <= 'F') || c == '-'
  }

  /** `/^[0-9a-fA-F-]{36}$/`: 36 characters, each a hex digit or a dash. */
  predicate IdShaped(s: string) {
    |s| == 36 && forall i :: 0 <= i < |s| ==> IsHexOrDash(s[i])
  }

  datatype GateResult =
    | MissingParameters                 // 400
    | MalformedIds                      // 400
    | NotAuthorized                     // 403: no paid order with this id and email
    | NotInOrder                        // 403: the photo is not part of the order
    | OriginalMissing                   // 404
    | SigningFailed(path: string)       // 500
    | Redirect(path: string, url: string)

  /** A row of `orders` with this id, this email and status paid. */
  predicate PaidOrderOf(t: Tables, orderId: string, customerEmail: string) {
    orderId in t.orders && t.orders[orderId].customerEmail == customerEmail && t.orders[orderId].status == Paid
  }

  /** The original file recorded for a photo; empty when the photo is unknown. */
  function OriginalFilePath(t: Tables, photoId: string): string {
    if photoId in t.photos then t.photos[photoId].originalFilePath else ""
  }

  /** The gate. The item lookup expects a single row, so a photo listed twice
      in the same order is refused like an absent one. */
  function DownloadGate(t: Tables, photoId: string, orderId: string, customerEmail: string,
                        sign: string -> Option<string>): GateResult
  {
    if photoId == "" || orderId == "" || customerEmail == "" then MissingParameters
    else if !IdShaped(photoId) || !IdShaped(orderId) then MalformedIds
    else if !PaidOrderOf(t, orderId, customerEmail) then NotAuthorized
    else if ItemRowCount(t.items, orderId, photoId) != 1 then NotInOrder
    else if OriginalFilePath(t, photoId) == "" then OriginalMissing
    else
      var path := OriginalFilePath(t, photoId);
      match sign(path)
      case None => SigningFailed(path)
      case Some(url) => if url == "" then SigningFailed(path) else Redirect(path, url)
  }

  /** All the checks the gate makes before it asks for a signed URL. */
  predicate GatePasses(t: Tables, photoId: string, orderId: string, customerEmail: string) {
    && photoId != "" && orderId != "" && customerEmail != ""
    && IdShaped(photoId) && IdShaped(orderId)
    && PaidOrderOf(t, orderId, customerEmail)
    && ItemRowCount(t.items, orderId, photoId) == 1
    && OriginalFilePath(t, photoId) != ""
  }

  /** A signed URL is requested exactly when every check passes, and only for
      the photo's own original file; a redirect carries the URL storage gave. */
  lemma {:induction false} GateSignsOnlyAfterChecks(t: Tables, photoId: string, orderId: string, customerEmail: string,
                                 sign: string -> Option<string>)
    ensures var r := DownloadGate(t, photoId, orderId, customerEmail, sign);
      ((r.SigningFailed? || r.Redirect?) <==> GatePasses(t, photoId, orderId, customerEmail))
      && ((r.SigningFailed? || r.Redirect?) ==> r.path == t.photos[photoId].originalFilePath)
      && (r.Redirect? ==> sign(r.path) == Some(r.url) && r.url != "")
  {
  }

  /** The checks run in order: ids well formed, then order, then item, then file. */
  lemma {:induction false} GateCheckOrder(t: Tables, photoId: string, orderId: string, customerEmail: string,
                       sign: string -> Option<string>)
    requires photoId != "" && orderId != "" && customerEmail != ""
    requires IdShaped(photoId) && IdShaped(orderId)
    ensures var r := DownloadGate(t, photoId, orderId, customerEmail, sign);
      && (!PaidOrderOf(t, orderId, customerEmail) <==> r == NotAuthorized)
      && (PaidOrderOf(t, orderId, customerEmail) && ItemRowCount(t.items, orderId, photoId) != 1 <==> r == NotInOrder)
      && ((PaidOrderOf(t, orderId, customerEmail) && ItemRowCount(t.items, orderId, photoId) == 1
           && OriginalFilePath(t, photoId) == "") <==> r == OriginalMissing)
  {
  }

  /** The gate never looks at `download_expires_at`: an order past its download
      window is served exactly like one within it. */
  lemma {:induction false} GateIgnoresExpiry(t: Tables, photoId: string, orderId: string, customerEmail: string,
                          sign: string -> Option<string>, expiry: Option<int>)
    requires orderId in t.orders
    ensures var t' := t.(orders := t.orders[orderId := t.orders[orderId].(downloadExpiresAt := expiry)]);
      DownloadGate(t', photoId, orderId, customerEmail, sign) == DownloadGate(t, photoId, orderId, customerEmail, sign)
  {
  }

  // ----- quota variant -----

  const MAX_DESCARGAS: int := 3

  datatype QuotaResult = LimitReached | PhotoNotFound | QuotaServerError | QuotaRedirect(url: string)

  predicate QuotaMatch(d: DownloadRecord, orderId: string, userId: string) {
    d.orderId == orderId && d.userId == Some(userId)
  }

  /** The `descargas` rows the quota variant matches: same order, user id equal
      to the email in the path. */
  function QuotaRows(descargas: seq<DownloadRecord>, orderId: string, userId: string): (r: seq<DownloadRecord>)
    ensures |r| <= |descargas|
    ensures forall x :: x in r <==> x in descargas && QuotaMatch(x, orderId, userId)
  {
    if descargas == [] then []
    else if QuotaMatch(descargas[0], orderId, userId) then [descargas[0]] + QuotaRows(descargas[1..], orderId, userId)
    else QuotaRows(descargas[1..], orderId, userId)
  }

  /** The counter update, applied to every matching row. */
  function SetCounter(descargas: seq<DownloadRecord>, orderId: string, userId: string, value: int): (r: seq<DownloadRecord>)
    ensures |r| == |descargas|
    ensures forall i :: 0 <= i < |r| ==>
      r[i] == if QuotaMatch(descargas[i], orderId, userId) then descargas[i].(contador := value) else descargas[i]
  {
    if descargas == [] then []
    else
      var head := if QuotaMatch(descargas[0], orderId, userId) then descargas[0].(contador := value) else descargas[0];
      [head] + SetCounter(descargas[1..], orderId, userId, value)
  }

  /** The counter the variant reads: the single matching row's, or 0 when the
      lookup does not find exactly one row. */
  function Counter(t: Tables, orderId: string, userId: string): int {
    var rows := QuotaRows(t.descargas, orderId, userId);
    if |rows| == 1 then rows[0].contador else 0
  }

  /** The quota handler. `signed` is the outcome of the signed-URL call for
      this request (None: the call failed, which the handler rethrows as 500). */
  function QuotaDownload(t: Tables, photoId: string, orderId: string, customerEmail: string,
                         signed: Option<string>): (Tables, QuotaResult)
  {
    var rows := QuotaRows(t.descargas, orderId, customerEmail);
    if |rows| == 1 && rows[0].contador >= MAX_DESCARGAS then (t, LimitReached)
    else
      var t1 := QuotaPrepared(t, orderId, customerEmail);
      if photoId !in t1.photos then (t1, PhotoNotFound)
      else match signed
        case None => (t1, QuotaServerError)
        case Some(url) =>
          (t1.(descargas := SetCounter(t1.descargas, orderId, customerEmail, Counter(t, orderId, customerEmail) + 1)),
           QuotaRedirect(url))
  }

  lemma {:induction false} QuotaRowsAppend(descargas: seq<DownloadRecord>, d: DownloadRecord, orderId: string, userId: string)
    ensures QuotaRows(descargas + [d], orderId, userId)
         == QuotaRows(descargas, orderId, userId) + (if QuotaMatch(d, orderId, userId) then [d] else [])
  {
    if descargas == [] {
      assert descargas + [d] == [d];
    } else {
      assert (descargas + [d])[1..] == descargas[1..] + [d];
      QuotaRowsAppend(descargas[1..], d, orderId, userId);
    }
  }

  lemma {:induction false} QuotaRowsSetCounter(descargas: seq<DownloadRecord>, orderId: string, userId: string, value: int)
    ensures var r := QuotaRows(SetCounter(descargas, orderId, userId, value), orderId, userId);
      |r| == |QuotaRows(descargas, orderId, userId)|
      && forall i :: 0 <= i < |r| ==> r[i].contador == value
  {
    if descargas != [] {
      var s := SetCounter(descargas, orderId, userId, value);
      assert s[1..] == SetCounter(descargas[1..], orderId, userId, value);
      QuotaRowsSetCounter(descargas[1..], orderId, userId, value);
    }
  }

  /** At the limit the request is refused and nothing is written. */
  lemma {:induction false} QuotaLimit(t: Tables, photoId: string, orderId: string, customerEmail: string, signed: Option<string>)
    requires |QuotaRows(t.descargas, orderId, customerEmail)| == 1
    requires Counter(t, orderId, customerEmail) >= MAX_DESCARGAS
    ensures QuotaDownload(t, photoId, orderId, customerEmail, signed) == (t, LimitReached)
  {
  }

  /** A missing counter row is inserted before the photo is looked up, so even a
      request for an unknown photo leaves a zero counter behind. */
  lemma {:induction false} QuotaInsertsBeforeLookup(t: Tables, photoId: string, orderId: string, customerEmail: string, signed: Option<string>)
    requires |QuotaRows(t.descargas, orderId, customerEmail)| == 0
    requires photoId !in t.photos
    ensures var r := QuotaDownload(t, photoId, orderId, customerEmail, signed);
      r.1 == PhotoNotFound
      && QuotaRows(r.0.descargas, orderId, customerEmail) == [DownloadRecord(orderId, None, Some(customerEmail), 0)]
  {
    QuotaRowsAppend(t.descargas, DownloadRecord(orderId, None, Some(customerEmail), 0), orderId, customerEmail);
  }

  /** At most one counter row for the pair, holding a value within the quota. */
  predicate QuotaInvariant(t: Tables, orderId: string, userId: string) {
    var rows := QuotaRows(t.descargas, orderId, userId);
    |rows| <= 1 && (|rows| == 1 ==> 0 <= rows[0].contador <= MAX_DESCARGAS)
  }

  /** The tables after the lookup step of a request under the limit: exactly
      one matching row, still holding the counter that was read. */
  function QuotaPrepared(t: Tables, orderId: string, customerEmail: string): Tables {
    if |QuotaRows(t.descargas, orderId, customerEmail)| == 1 then t
    else t.(descargas := t.descargas + [DownloadRecord(orderId, None, Some(customerEmail), 0)])
  }

  lemma {:induction false} QuotaPreparedRows(t: Tables, orderId: string, customerEmail: string)
    requires QuotaInvariant(t, orderId, customerEmail)
    ensures var rows := QuotaRows(QuotaPrepared(t, orderId, customerEmail).descargas, orderId, customerEmail);
      |rows| == 1 && rows[0].contador == Counter(t, orderId, customerEmail)
      && 0 <= Counter(t, orderId, customerEmail) <= MAX_DESCARGAS
  {
    if |QuotaRows(t.descargas, orderId, customerEmail)| != 1 {
      QuotaRowsAppend(t.descargas, DownloadRecord(orderId, None, Some(customerEmail), 0), orderId, customerEmail);
    }
  }

  /** One request keeps the invariant; a redirect raises the counter by exactly
      one and every other outcome leaves it where it was. */
  lemma {:induction false} QuotaStep(t: Tables, photoId: string, orderId: string, customerEmail: string, signed: Option<string>)
    requires QuotaInvariant(t, orderId, customerEmail)
    ensures var r := QuotaDownload(t, photoId, orderId, customerEmail, signed);
      QuotaInvariant(r.0, orderId, customerEmail)
      && (r.1.QuotaRedirect? ==> Counter(r.0, orderId, customerEmail) == Counter(t, orderId, customerEmail) + 1)
      && (!r.1.QuotaRedirect? ==> Counter(r.0, orderId, customerEmail) == Counter(t, orderId, customerEmail))
  {
    var rows := QuotaRows(t.descargas, orderId, customerEmail);
    if !(|rows| == 1 && rows[0].contador >= MAX_DESCARGAS) {
      var c := Counter(t, orderId, customerEmail);
      assert 0 <= c < MAX_DESCARGAS;
      var t1 := QuotaPrepared(t, orderId, customerEmail);
      QuotaPreparedRows(t, orderId, customerEmail);
      var r := QuotaDownload(t, photoId, orderId, customerEmail, signed);
      if photoId in t1.photos && signed.Some? {
        var t2 := t1.(descargas := SetCounter(t1.descargas, orderId, customerEmail, c + 1));
        assert r == (t2, QuotaRedirect(signed.value));
        QuotaRowsSetCounter(t1.descargas, orderId, customerEmail, c + 1);
        assert Counter(t2, orderId, customerEmail) == c + 1;
      } else {
        assert r.0 == t1 && !r.1.QuotaRedirect?;
      }
    }
  }

  datatype QuotaRequest = QuotaRequest(photoId: string, signed: Option<string>)

  /** A run of requests for the same order and path email: the final tables and
      how many requests were redirected to a download. */
  function QuotaRun(t: Tables, orderId: string, customerEmail: string, reqs: seq<QuotaRequest>): (Tables, nat)
  {
    if reqs == [] then (t, 0)
    else
      var last := reqs[|reqs| - 1];
      var before := QuotaRun(t, orderId, customerEmail, reqs[..|reqs| - 1]);
      var step := QuotaDownload(before.0, last.photoId, orderId, customerEmail, last.signed);
      (step.0, before.1 + if step.1.QuotaRedirect? then 1 else 0)
  }

  /** The quota holds: from a state that satisfies the invariant, however many
      requests arrive, at most MAX_DESCARGAS minus the current counter succeed. */
  lemma {:induction false} QuotaBounded(t: Tables, orderId: string, customerEmail: string, reqs: seq<QuotaRequest>)
    requires QuotaInvariant(t, orderId, customerEmail)
    ensures var r := QuotaRun(t, orderId, customerEmail, reqs);
      QuotaInvariant(r.0, orderId, customerEmail)
      && Counter(r.0, orderId, customerEmail) == Counter(t, orderId, customerEmail) + r.1
      && r.1 <= MAX_DESCARGAS - Counter(t, orderId, customerEmail)
  {
    if reqs != [] {
      var last := reqs[|reqs| - 1];
      var before := QuotaRun(t, orderId, customerEmail, reqs[..|reqs| - 1]);
      QuotaBounded(t, orderId, customerEmail, reqs[..|reqs| - 1]);
      QuotaStep(before.0, last.photoId, orderId, customerEmail, last.signed);
    }
  }
}
