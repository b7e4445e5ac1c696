/** The verification pipeline of the Cash App web-receipt verifier as pure functions:
    what each stage decides from its inputs, and which `setResponse` call it ends in.
    The class in module CashApp is proved to do exactly this. */
module ReceiptRules {
  import opened Wrappers
  import opened PhpStrings

  // ---------------------------------------------------------------------------
  // Constants of the verifier

  /** The provider base every receipt URL must contain. */
  const RECEIPT_BASE_URL := "https://cash.app/payments/"
  /** The endpoint the JSON receipt is fetched from, followed by the token. */
  const RECEIPT_JSON_BASE_URL := "https://cash.app/receipt-json/f/"

  /** Values of the response's `type` property. */
  const SUCCESS := "success"
  const ERROR := "error"

  const USERNAME_REQUIRED := "CashApp `username` is required"
  const REFERENCE_REQUIRED := "CashApp payment `reference` is required"
  const INVALID_URL := "Invalid web receipt URL"
  const FETCH_FAILED := "Failed to verify web receipt, please provide a valid receipt"
  const UNMATCHED := "Failed to verify web receipt, Unmatched notes or host."
  const VERIFIED := "Web Receipt Verified Successfully."

  /** Shortest transaction token accepted. */
  const MIN_TOKEN_LENGTH := 15
  /** Number of leading token characters that must not all be equal. */
  const UNIFORM_PREFIX := 5
  /** Index of the detail row whose value is the payer's username. */
  const PAYER_ROW := 3

  // ---------------------------------------------------------------------------
  // The outside world

  /** The decoded JSON receipt: its `notes` and the `value` of each `detail_rows` entry
      (None where the entry has no `value`). */
  datatype Receipt = Receipt(notes: string, detailRows: seq<Option<string>>)

  /** What the HTTP GET of the JSON endpoint ends in: an exception with its message, or a
      response with its status code and decoded body. */
  datatype FetchOutcome = Threw(message: string) | Responded(status: int, body: Receipt)

  /** The library URL functions: `filter_var(url, FILTER_VALIDATE_URL)` as a truth value,
      and `parse_url(url)['path']` (None when parse_url fails or there is no path). */
  datatype UrlLib = UrlLib(isValidUrl: string -> bool, pathOf: string -> Option<string>)

  // ---------------------------------------------------------------------------
  // The response object

  /** The arguments of one `setResponse(type, message, data)` call; `data` None stands for
      the default empty array. */
  datatype Reply = Reply(kind: string, message: string, data: Option<Receipt>)

  /** The properties of the shared response object; None is a property never set. */
  datatype ResponseState = ResponseState(kind: Option<string>, message: Option<string>, data: Option<Receipt>)

  /** The response object of a freshly constructed verifier (an empty stdClass). */
  const INITIAL_RESPONSE := ResponseState(None, None, None)

  /** `setResponse`: overwrites `type` and `message`, and `data` only for non-empty data. */
  function Apply(s: ResponseState, reply: Reply): (t: ResponseState)
    ensures t.kind == Some(reply.kind) && t.message == Some(reply.message)
    ensures reply.data.None? ==> t.data == s.data
    ensures reply.data.Some? ==> t.data == reply.data
  {
    ResponseState(Some(reply.kind), Some(reply.message), if reply.data.Some? then reply.data else s.data)
  }

  function Failure(message: string): Reply {
    Reply(ERROR, message, None)
  }

  // ---------------------------------------------------------------------------
  // Stage 1: preconditions

  /** `verifyNoteAndUserName`: the username is checked first, then the reference. */
  function Precheck(username: string, reference: string): (r: Outcome<string>)
    ensures r.Pass? <==> !Empty(username) && !Empty(reference)
    ensures Empty(username) ==> r == Fail(USERNAME_REQUIRED)
    ensures r.Fail? ==> r.error in {USERNAME_REQUIRED, REFERENCE_REQUIRED}
  {
    if Empty(username) then Fail(USERNAME_REQUIRED)
    else if Empty(reference) then Fail(REFERENCE_REQUIRED)
    else Pass
  }

  // ---------------------------------------------------------------------------
  // Stage 2: receipt URL validation

  /** The segments of `explode('/', trim(path, '/'))`. */
  function PathSegments(path: string): (segs: seq<string>)
    ensures |segs| >= 1
    ensures forall k :: 0 <= k < |segs| ==> '/' !in segs[k]
    ensures |segs| >= 2 <==> '/' in Trim(path, '/')
  {
    Explode('/', Trim(path, '/'))
  }

  /** `$pathSegments[1]`, None when the key is missing. */
  function TokenSegment(path: string): (r: Option<string>)
    ensures r.Some? <==> '/' in Trim(path, '/')
    ensures r.Some? ==> '/' !in r.value
  {
    var segs := PathSegments(path);
    if |segs| > 1 then Some(segs[1]) else None
  }

  /** `count(array_count_values(str_split(substr(token, 0, 5)))) === 1`. */
  predicate UniformPrefix(token: string): (b: bool)
    ensures |token| >= UNIFORM_PREFIX ==>
      (b <==> forall i :: 0 < i < UNIFORM_PREFIX ==> token[i] == token[0])
  {
    var five := Prefix(token, UNIFORM_PREFIX);
    OneDistinctIff(five);
    |DistinctChars(five)| == 1
  }

  /** `validateReceipt`: the token the URL yields, or the error it is rejected with. */
  function ValidateUrl(url: string, lib: UrlLib): (r: Result<string, string>)
    ensures r.Err? ==> r.error == INVALID_URL
    ensures r.Ok? ==> !Empty(url) && lib.isValidUrl(url) && StrContains(url, RECEIPT_BASE_URL)
    ensures r.Ok? ==> |r.value| >= MIN_TOKEN_LENGTH && '/' !in r.value && !UniformPrefix(r.value)
  {
    if Empty(url) || !lib.isValidUrl(url) || !StrContains(url, RECEIPT_BASE_URL) then
      Err(INVALID_URL)
    else
      var path := lib.pathOf(url);
      if path.None? || Empty(path.value) then
        Err(INVALID_URL)
      else
        var segment := TokenSegment(path.value);
        if segment.None? || Empty(segment.value) || |segment.value| < MIN_TOKEN_LENGTH then
          Err(INVALID_URL)
        else if UniformPrefix(segment.value) then
          Err(INVALID_URL)
        else
          Ok(segment.value)
  }

  // ---------------------------------------------------------------------------
  // Stages 3 and 4: fetch dispatch and claim matching

  /** The URL the JSON receipt of `token` is fetched from. */
  function JsonUrl(token: string): (r: string)
    ensures StartsWith(r, RECEIPT_JSON_BASE_URL) && r[|RECEIPT_JSON_BASE_URL|..] == token
  {
    RECEIPT_JSON_BASE_URL + token
  }

  /** `$result->detail_rows[3]->value`, None when the row or its value is missing. */
  function PayerIdentity(receipt: Receipt): (r: Option<string>)
    ensures |receipt.detailRows| <= PAYER_ROW ==> r == None
    ensures |receipt.detailRows| > PAYER_ROW ==> r == receipt.detailRows[PAYER_ROW]
  {
    if |receipt.detailRows| > PAYER_ROW then receipt.detailRows[PAYER_ROW] else None
  }

  /** The guard of `validateResponse`: notes match case-insensitively and are not empty,
      the payer row matches case-sensitively and is not empty. */
  predicate ClaimMatches(receipt: Receipt, username: string, reference: string): (b: bool)
    ensures b ==> PayerIdentity(receipt) == Some(username) && !Empty(username)
    ensures b ==> StrToLower(receipt.notes) == StrToLower(reference) && !Empty(reference)
  {
    var notes := StrToLower(receipt.notes);
    var payer := PayerIdentity(receipt);
    !Empty(notes) && notes == StrToLower(reference)
    && payer.Some? && !Empty(payer.value) && payer.value == username
  }

  /** `validateResponse`: the `setResponse` call it makes. */
  function MatchReply(receipt: Receipt, username: string, reference: string): (r: Reply)
    ensures r.kind == SUCCESS <==> ClaimMatches(receipt, username, reference)
    ensures r.kind == SUCCESS ==> r.message == VERIFIED && r.data == Some(receipt)
    ensures r.kind != SUCCESS ==> r == Reply(ERROR, UNMATCHED, None)
  {
    if ClaimMatches(receipt, username, reference) then Reply(SUCCESS, VERIFIED, Some(receipt))
    else Failure(UNMATCHED)
  }

  /** The `try` block of `verify` once the fetch has ended in `outcome`. */
  function Dispatch(outcome: FetchOutcome, username: string, reference: string): (r: Reply)
    ensures outcome.Threw? ==> r == Reply(ERROR, outcome.message, None)
    ensures r.data.Some? <==> r.kind == SUCCESS
    ensures r.kind == SUCCESS ==>
      outcome.Responded? && outcome.status == 200 && r.data == Some(outcome.body)
  {
    match outcome
    case Threw(message) => Failure(message)
    case Responded(status, body) =>
      if status == 200 then MatchReply(body, username, reference) else Failure(FETCH_FAILED)
  }

  // ---------------------------------------------------------------------------
  // The whole pipeline

  /** The last `setResponse` call one `verify(url)` makes. */
  function Verdict(username: string, reference: string, url: string, lib: UrlLib,
                   http: string -> FetchOutcome): (r: Reply)
    ensures r.data.Some? <==> r.kind == SUCCESS
    ensures r.kind != SUCCESS ==> r.kind == ERROR
    ensures r.kind == SUCCESS ==> Precheck(username, reference).Pass? && ValidateUrl(url, lib).Ok?
  {
    match Precheck(username, reference)
    case Fail(message) => Failure(message)
    case Pass =>
      match ValidateUrl(url, lib)
      case Err(message) => Failure(message)
      case Ok(token) => Dispatch(http(JsonUrl(token)), username, reference)
  }

  /** `_RECEIPT_TRX` after one `verify(url)`: the new token when validation is reached and
      passes, otherwise what it was. */
  function StoredToken(previous: Option<string>, username: string, reference: string,
                       url: string, lib: UrlLib): (r: Option<string>)
    ensures r == previous
      || (r.Some? && Precheck(username, reference).Pass? && ValidateUrl(url, lib) == Ok(r.value))
    ensures r.Some? && r != previous ==> |r.value| >= MIN_TOKEN_LENGTH
  {
    if Precheck(username, reference).Fail? then previous
    else match ValidateUrl(url, lib)
      case Err(_) => previous
      case Ok(token) => Some(token)
  }
}
