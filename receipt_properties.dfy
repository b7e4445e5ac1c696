/** What the verifier promises, proved about the pipeline of module ReceiptRules (and,
    through the contracts of module CashApp, about the object itself). */
module ReceiptProperties {
  import opened Wrappers
  import opened PhpStrings
  import opened ReceiptRules
  import CashApp

  // ---------------------------------------------------------------------------
  // Stage 1: preconditions

  /** An empty username wins over everything else, and no token is stored. */
  lemma UsernameRequired(username: string, reference: string, url: string, lib: UrlLib,
                         http: string -> FetchOutcome, previous: Option<string>)
    requires Empty(username)
    ensures Verdict(username, reference, url, lib, http) == Failure(USERNAME_REQUIRED)
    ensures StoredToken(previous, username, reference, url, lib) == previous
  {
  }

  /** With a username present, an empty reference is the error, and no token is stored. */
  lemma ReferenceRequired(username: string, reference: string, url: string, lib: UrlLib,
                          http: string -> FetchOutcome, previous: Option<string>)
    requires !Empty(username) && Empty(reference)
    ensures Verdict(username, reference, url, lib, http) == Failure(REFERENCE_REQUIRED)
    ensures StoredToken(previous, username, reference, url, lib) == previous
  {
  }

  /** An early failure ends the pipeline: the transport is never consulted, the error has no
      data, and the stored token stays as it was. */
  lemma EarlyFailureSkipsFetch(username: string, reference: string, url: string, lib: UrlLib,
                               http1: string -> FetchOutcome, http2: string -> FetchOutcome,
                               previous: Option<string>)
    requires Precheck(username, reference).Fail? || ValidateUrl(url, lib).Err?
    ensures Verdict(username, reference, url, lib, http1) == Verdict(username, reference, url, lib, http2)
    ensures Verdict(username, reference, url, lib, http1).kind == ERROR
    ensures Verdict(username, reference, url, lib, http1).data == None
    ensures StoredToken(previous, username, reference, url, lib) == previous
  {
  }

  // ---------------------------------------------------------------------------
  // Stage 2: receipt URL validation

  /** The conditions under which a receipt URL passes, stated without the validator's own
      control flow: containment by position, the token as the second path segment, and the
      forgery filter as "some of the first five characters differ". */
  ghost predicate AcceptableUrl(url: string, lib: UrlLib) {
    && !Empty(url)
    && lib.isValidUrl(url)
    && (exists i :: OccursAt(url, RECEIPT_BASE_URL, i))
    && lib.pathOf(url).Some?
    && !Empty(lib.pathOf(url).value)
    && '/' in Trim(lib.pathOf(url).value, '/')
    && var token := PathSegments(lib.pathOf(url).value)[1];
       |token| >= MIN_TOKEN_LENGTH && exists i :: 0 < i < UNIFORM_PREFIX && token[i] != token[0]
  }

  /** Every rejection is "Invalid web receipt URL"; the URL is accepted exactly under
      AcceptableUrl, and then the token is path segment 1. */
  lemma ValidateUrlSpec(url: string, lib: UrlLib)
    ensures ValidateUrl(url, lib).Err? ==> ValidateUrl(url, lib).error == INVALID_URL
    ensures ValidateUrl(url, lib).Ok? <==> AcceptableUrl(url, lib)
    ensures ValidateUrl(url, lib).Ok? ==>
      ValidateUrl(url, lib).value == PathSegments(lib.pathOf(url).value)[1]
  {
    StrContainsIff(url, RECEIPT_BASE_URL);
  }

  /** What a stored token always satisfies: long enough, a single path segment, and not
      starting with five equal characters; the URL contained the provider base. */
  lemma TokenInvariant(url: string, lib: UrlLib)
    requires ValidateUrl(url, lib).Ok?
    ensures var token := ValidateUrl(url, lib).value;
      |token| >= MIN_TOKEN_LENGTH && '/' !in token
      && (exists i :: 0 < i < UNIFORM_PREFIX && token[i] != token[0])
      && exists i :: OccursAt(url, RECEIPT_BASE_URL, i)
  {
    ValidateUrlSpec(url, lib);
  }

  /** The path of a canonical receipt link yields its token as segment 1. */
  lemma CanonicalPathSegment(token: string)
    requires token != [] && '/' !in token
    ensures TokenSegment("/payments/" + token) == Some(token)
  {
    var path := "/payments/" + token;
    assert LeadingRun(path[1..], '/') == 0;
    assert LeadingRun(path, '/') == 1;
    var t := path[1..];
    assert t == "payments/" + token;
    assert t[|t| - 1] == token[|token| - 1];
    assert TrailingRun(t, '/') == 0;
    assert Trim(path, '/') == t;
    assert Implode('/', ["payments", token]) == t;
    ExplodeImplode('/', ["payments", token]);
  }

  /** A URL that passes the first three checks and whose path is /payments/<token> is
      accepted with that token when the token passes the length and forgery checks. */
  lemma PaymentsPathAccepted(url: string, token: string, lib: UrlLib)
    requires !Empty(url) && lib.isValidUrl(url) && StrContains(url, RECEIPT_BASE_URL)
    requires lib.pathOf(url) == Some("/payments/" + token)
    requires '/' !in token && |token| >= MIN_TOKEN_LENGTH
    requires exists i :: 0 < i < UNIFORM_PREFIX && token[i] != token[0]
    ensures ValidateUrl(url, lib) == Ok(token)
  {
    CanonicalPathSegment(token);
    assert ("/payments/" + token)[1] == 'p';
  }

  /** A link of the form https://cash.app/payments/<token> whose path the URL library reports
      as /payments/<token> is accepted with that token, when the token passes the length and
      forgery checks. */
  lemma CanonicalUrlAccepted(token: string, lib: UrlLib)
    requires '/' !in token && |token| >= MIN_TOKEN_LENGTH
    requires exists i :: 0 < i < UNIFORM_PREFIX && token[i] != token[0]
    requires lib.isValidUrl(RECEIPT_BASE_URL + token)
    requires lib.pathOf(RECEIPT_BASE_URL + token) == Some("/payments/" + token)
    ensures ValidateUrl(RECEIPT_BASE_URL + token, lib) == Ok(token)
  {
    var url := RECEIPT_BASE_URL + token;
    assert StartsWith(url, RECEIPT_BASE_URL);
    PaymentsPathAccepted(url, token, lib);
  }

  /** Five equal leading characters reject a canonical link however long its token is. */
  lemma UniformTokenRejected(token: string, lib: UrlLib)
    requires '/' !in token && |token| >= UNIFORM_PREFIX
    requires forall i :: 0 < i < UNIFORM_PREFIX ==> token[i] == token[0]
    requires lib.pathOf(RECEIPT_BASE_URL + token) == Some("/payments/" + token)
    ensures ValidateUrl(RECEIPT_BASE_URL + token, lib) == Err(INVALID_URL)
  {
    CanonicalPathSegment(token);
    assert ("/payments/" + token)[1] == 'p';
  }

  /** The provider base is looked for anywhere in the URL, not only at its start: a link on
      another host that merely carries the base in its query is accepted when the URL
      library calls it valid and reports a /payments/<token> path. */
  lemma BaseNeedNotBePrefix(token: string, lib: UrlLib)
    requires '/' !in token && |token| >= MIN_TOKEN_LENGTH
    requires exists i :: 0 < i < UNIFORM_PREFIX && token[i] != token[0]
    requires var url := "https://pay.example/payments/" + token + "?r=" + RECEIPT_BASE_URL;
      lib.isValidUrl(url) && lib.pathOf(url) == Some("/payments/" + token)
    ensures var url := "https://pay.example/payments/" + token + "?r=" + RECEIPT_BASE_URL;
      !StartsWith(url, RECEIPT_BASE_URL) && ValidateUrl(url, lib) == Ok(token)
  {
    var url := "https://pay.example/payments/" + token + "?r=" + RECEIPT_BASE_URL;
    var at := |url| - |RECEIPT_BASE_URL|;
    assert url[at..at + |RECEIPT_BASE_URL|] == RECEIPT_BASE_URL;
    assert OccursAt(url, RECEIPT_BASE_URL, at);
    StrContainsIff(url, RECEIPT_BASE_URL);
    assert url[8] == 'p' != RECEIPT_BASE_URL[8];
    assert url[0] == 'h';
    PaymentsPathAccepted(url, token, lib);
  }

  // ---------------------------------------------------------------------------
  // Stage 3: fetch dispatch

  /** After validation the transport is asked for exactly the JSON URL of the token that was
      stored, and nothing else it could answer matters. */
  lemma FetchOnlyAtJsonUrl(username: string, reference: string, url: string, lib: UrlLib,
                           http1: string -> FetchOutcome, http2: string -> FetchOutcome,
                           previous: Option<string>)
    requires Precheck(username, reference).Pass? && ValidateUrl(url, lib).Ok?
    requires var token := ValidateUrl(url, lib).value;
      http1("https://cash.app/receipt-json/f/" + token) == http2("https://cash.app/receipt-json/f/" + token)
    ensures Verdict(username, reference, url, lib, http1) == Verdict(username, reference, url, lib, http2)
    ensures StoredToken(previous, username, reference, url, lib) == Some(ValidateUrl(url, lib).value)
  {
  }

  /** A status other than 200 is the fixed fetch error; an exception's message is passed on
      unchanged; neither carries data. */
  lemma DispatchErrors(username: string, reference: string, status: int, body: Receipt, message: string)
    ensures status != 200 ==>
      Dispatch(Responded(status, body), username, reference) == Reply(ERROR, FETCH_FAILED, None)
    ensures Dispatch(Threw(message), username, reference) == Reply(ERROR, message, None)
  {
  }

  // ---------------------------------------------------------------------------
  // Stage 4: claim matching

  /** Once the preconditions hold, the emptiness tests of the matcher are implied by the
      comparisons: the claim matches exactly when the notes equal the reference ignoring
      case and the payer row equals the username. */
  lemma ClaimMatchesAfterPrecheck(receipt: Receipt, username: string, reference: string)
    requires Precheck(username, reference).Pass?
    ensures ClaimMatches(receipt, username, reference) <==>
      StrToLower(receipt.notes) == StrToLower(reference) && PayerIdentity(receipt) == Some(username)
  {
  }

  /** The notes comparison ignores ASCII case; the username comparison does not. */
  lemma MatchExamples()
    ensures var rent := Receipt("rent", [None, None, None, Some("alice")]);
      MatchReply(rent, "alice", "RENT") == Reply(SUCCESS, VERIFIED, Some(rent))
    ensures MatchReply(Receipt("rent", [None, None, None, Some("bob")]), "alice", "RENT") == Failure(UNMATCHED)
    ensures MatchReply(Receipt("rent", [None, None, None, Some("Alice")]), "alice", "RENT") == Failure(UNMATCHED)
    ensures MatchReply(Receipt("rent", [None, None, Some("alice")]), "alice", "RENT") == Failure(UNMATCHED)
  {
  }

  // ---------------------------------------------------------------------------
  // The whole pipeline

  /** `verify` succeeds exactly when the preconditions hold, the URL is accepted, the JSON
      URL of its token answers 200 and the decoded receipt matches the claim; it then
      carries that receipt. Every other outcome is an error without data. */
  lemma VerdictSuccessIff(username: string, reference: string, url: string, lib: UrlLib,
                          http: string -> FetchOutcome)
    ensures var v := Verdict(username, reference, url, lib, http);
      v.kind == SUCCESS <==>
        && Precheck(username, reference).Pass?
        && ValidateUrl(url, lib).Ok?
        && var o := http(JsonUrl(ValidateUrl(url, lib).value));
           o.Responded? && o.status == 200 && ClaimMatches(o.body, username, reference)
    ensures var v := Verdict(username, reference, url, lib, http);
      v.kind == SUCCESS ==>
        v.message == VERIFIED && v.data == Some(http(JsonUrl(ValidateUrl(url, lib).value)).body)
    ensures var v := Verdict(username, reference, url, lib, http);
      v.kind != SUCCESS ==> v.kind == ERROR && v.data == None
  {
  }

  /** The message of every error `verify` produces is one of the fixed messages, or the text
      of the exception the transport threw. */
  lemma ErrorMessages(username: string, reference: string, url: string, lib: UrlLib,
                      http: string -> FetchOutcome)
    ensures var v := Verdict(username, reference, url, lib, http);
      v.kind == ERROR ==>
        v.message in {USERNAME_REQUIRED, REFERENCE_REQUIRED, INVALID_URL, FETCH_FAILED, UNMATCHED}
        || (ValidateUrl(url, lib).Ok? && http(JsonUrl(ValidateUrl(url, lib).value)) == Threw(v.message))
  {
  }

  // ---------------------------------------------------------------------------
  // The shared response object

  /** An error reply overwrites `type` and `message` and leaves `data` alone, so a receipt
      attached by an earlier success survives a later failure on the same verifier. */
  lemma StaleDataSurvivesError(previous: ResponseState, receipt: Receipt, message: string)
    ensures var s := Apply(Apply(previous, Reply(SUCCESS, VERIFIED, Some(receipt))), Failure(message));
      s.kind == Some(ERROR) && s.message == Some(message) && s.data == Some(receipt)
  {
  }

  /** Verifying the same URL twice against the same transport leaves the same response and
      the same stored token as verifying it once. */
  lemma VerifyIdempotent(state: ResponseState, previous: Option<string>, username: string,
                         reference: string, url: string, lib: UrlLib, http: string -> FetchOutcome)
    ensures var v := Verdict(username, reference, url, lib, http);
      Apply(Apply(state, v), v) == Apply(state, v)
    ensures var once := StoredToken(previous, username, reference, url, lib);
      StoredToken(once, username, reference, url, lib) == once
  {
  }

  /** A caller of the object sees the same: a second identical `verify` returns the same
      response object, left in the same state as after the first. */
  method VerifyTwice(v: CashApp.WebReceiptVerifier, url: string, lib: UrlLib, http: string -> FetchOutcome)
    returns (r1: CashApp.Response, first: ResponseState, r2: CashApp.Response, second: ResponseState)
    modifies v, v.response
    ensures r1 == r2 == v.response
    ensures first == second
    ensures first == Apply(old(v.response.State()), Verdict(v.username, v.reference, url, lib, http))
  {
    r1 := v.Verify(url, lib, http);
    first := r1.State();
    r2 := v.Verify(url, lib, http);
    second := r2.State();
  }
}
