/** The verifier object: its fields, the shared response object it hands back, and its
    methods, each proved to change the state as the pure pipeline in ReceiptRules says. */
module CashApp {
  import opened Wrappers
  import opened PhpStrings
  import opened ReceiptRules

  /** The stdClass response object; each property stays None until first set. */
  class Response {
    var kind: Option<string>
    var message: Option<string>
    var data: Option<Receipt>

    constructor ()
      ensures State() == INITIAL_RESPONSE
    {
      kind, message, data := None, None, None;
    }

    /** The properties as one value. */
    function State(): ResponseState
      reads this
    {
      ResponseState(kind, message, data)
    }
  }

  class WebReceiptVerifier {
    const username: string
    const reference: string
    /** `_RECEIPT`: the URL of the last `verify` call; None before the first. */
    var receipt: Option<string>
    /** `_RECEIPT_TRX`: the last token that passed validation; None before any did. */
    var receiptTrx: Option<string>
    /** `_RESPONSE`: one object for the whole life of the verifier, returned by every `verify`. */
    const response: Response

    constructor (username: string, reference: string)
      ensures this.username == username && this.reference == reference
      ensures receipt == None && receiptTrx == None
      ensures fresh(response) && response.State() == INITIAL_RESPONSE
    {
      this.username := username;
      this.reference := reference;
      receipt := None;
      receiptTrx := None;
      response := new Response();
    }

    /** Checks the claim against the receipt at `url`. The library URL functions and the
        HTTP transport are arguments; the result is the shared response object itself. */
    method Verify(url: string, lib: UrlLib, http: string -> FetchOutcome) returns (r: Response)
      modifies this, response
      ensures r == response
      ensures receipt == Some(url)
      ensures receiptTrx == StoredToken(old(receiptTrx), username, reference, url, lib)
      ensures response.State() == Apply(old(response.State()), Verdict(username, reference, url, lib, http))
    {
      receipt := Some(url);
      var ok := VerifyNoteAndUserName();
      if ok {
        ok := ValidateReceipt(lib);
      }
      if !ok {
        return response;
      }
      var validatorUrl := JsonUrl(receiptTrx.value);
      var outcome := http(validatorUrl);
      match outcome {
        case Threw(message) =>
          SetResponse(ERROR, message, None);
        case Responded(status, body) =>
          if status == 200 {
            ValidateResponse(body);
          } else {
            SetResponse(ERROR, FETCH_FAILED, None);
          }
      }
      r := response;
    }

    /** `validateReceipt`: checks `_RECEIPT` and stores its token when it passes. */
    method ValidateReceipt(lib: UrlLib) returns (ok: bool)
      requires receipt.Some?
      modifies this`receiptTrx, response
      ensures ok <==> ValidateUrl(receipt.value, lib).Ok?
      ensures receiptTrx == if ok then Some(ValidateUrl(receipt.value, lib).value) else old(receiptTrx)
      ensures response.State() ==
        if ok then old(response.State()) else Apply(old(response.State()), Failure(INVALID_URL))
    {
      var url := receipt.value;
      if Empty(url) || !lib.isValidUrl(url) || !StrContains(url, RECEIPT_BASE_URL) {
        SetResponse(ERROR, INVALID_URL, None);
        return false;
      }
      var path := lib.pathOf(url);
      if path.None? || Empty(path.value) {
        SetResponse(ERROR, INVALID_URL, None);
        return false;
      }
      var segment := TokenSegment(path.value);
      if segment.None? || Empty(segment.value) || |segment.value| < MIN_TOKEN_LENGTH {
        SetResponse(ERROR, INVALID_URL, None);
        return false;
      }
      var token := segment.value;
      if UniformPrefix(token) {
        SetResponse(ERROR, INVALID_URL, None);
        return false;
      }
      receiptTrx := Some(token);
      return true;
    }

    /** `validateResponse`: matches a decoded receipt against the username and reference. */
    method ValidateResponse(result: Receipt)
      modifies response
      ensures response.State() == Apply(old(response.State()), MatchReply(result, username, reference))
    {
      var notes := StrToLower(result.notes);
      var expected := StrToLower(reference);
      var payer := PayerIdentity(result);
      if Empty(notes) || notes != expected || payer.None? || Empty(payer.value) || payer.value != username {
        SetResponse(ERROR, UNMATCHED, None);
        return;
      }
      SetResponse(SUCCESS, VERIFIED, Some(result));
    }

    /** `verifyNoteAndUserName`: the username must be set, then the reference. */
    method VerifyNoteAndUserName() returns (ok: bool)
      modifies response
      ensures ok <==> Precheck(username, reference).Pass?
      ensures response.State() ==
        match Precheck(username, reference)
        case Pass => old(response.State())
        case Fail(message) => Apply(old(response.State()), Failure(message))
    {
      if Empty(username) {
        SetResponse(ERROR, USERNAME_REQUIRED, None);
        return false;
      }
      if Empty(reference) {
        SetResponse(ERROR, REFERENCE_REQUIRED, None);
        return false;
      }
      return true;
    }

    /** `setResponse`: `type` and `message` are always overwritten, `data` only by a receipt. */
    method SetResponse(kind: string, message: string, data: Option<Receipt>)
      modifies response
      ensures response.State() == Apply(old(response.State()), Reply(kind, message, data))
      ensures unchanged(this)
    {
      response.kind := Some(kind);
      response.message := Some(message);
      if data.Some? {
        response.data := data;
      }
    }
  }
}
