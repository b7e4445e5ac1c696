# Cash App web-receipt verifier, modelled in Dafny

`WebReceiptVerifier` checks a claimed Cash App payment. The object is built with the payer's
declared username and the expected payment reference. `verify(url)` then runs a fixed,
short-circuiting pipeline:

1. The username must be non-empty, and then the reference (PHP `empty`, so `""` and `"0"` count as empty).
2. The receipt URL must be non-empty and a valid URL. It must contain `https://cash.app/payments/`
   somewhere. Its path must be non-empty, and segment 1 of the `/`-split, `/`-trimmed path
   must be at least 15 bytes long and must not begin with five equal characters. That
   segment is stored as the transaction token.
3. The JSON receipt is fetched from `https://cash.app/receipt-json/f/<token>`. A status other
   than 200 is a fixed error. An exception's message is passed on unchanged.
4. The receipt's notes must equal the reference, ignoring ASCII case. Detail row 3 must equal
   the username exactly. Neither may be empty.

Every stage reports through `setResponse` into a single response object. The verifier
keeps that object and returns it from every call. `setResponse` always overwrites `type`
and `message`, but it writes `data` only when it is given a receipt.

Layout:

- `wrappers.dfy` (module `Wrappers`): `Option`, `Result`, `Outcome`.
- `php_strings.dfy` (module `PhpStrings`): the PHP built-ins the verifier uses: `empty`,
  `strtolower`, `str_contains`, `trim`, `explode` (with `implode`, its inverse, used only in
  the proofs), `substr`, and the distinct-character count behind
  `count(array_count_values(str_split(...)))`. Each has a contract of its own.
  `str_contains`, `trim`, `explode` and the distinct-character count also have lemmas that
  state their meaning in an independent form.
- `receipt_rules.dfy` (module `ReceiptRules`): the constants, the decoded receipt, and the
  outside world as values. Each stage is a pure function. `Verdict` is the last `setResponse`
  call of one `verify`, `StoredToken` is the new `_RECEIPT_TRX`, and `Apply` is what
  `setResponse` does to the response object.
- `web_receipt_verifier.dfy` (module `CashApp`): the classes `Response` and `WebReceiptVerifier`.
  The class has the source's state fields and its methods other than `httpRequest`; the two
  base URLs are constants of `ReceiptRules`. Each method states its new state in terms of
  `ReceiptRules`.
- `receipt_properties.dfy` (module `ReceiptProperties`): the properties, as lemmas over
  `ReceiptRules`, and one client method of the class.

The outside world is passed in as arguments:

- `UrlLib` carries `filter_var(..., FILTER_VALIDATE_URL)` as a truth-valued function and
  `parse_url(...)['path']` as a function returning `Option<string>`.
- `http: string -> FetchOutcome` stands for the Guzzle GET followed by `json_decode`. It yields
  either `Threw(message)` or `Responded(status, receipt)`.
- A decoded receipt is `Receipt(notes, detailRows)`, where each row's `value` is an
  `Option<string>`.

Two behaviours of the code are worth stating outright:

- The provider base `https://cash.app/payments/` may occur anywhere in the URL; it need not
  start it. `BaseNeedNotBePrefix` shows a link on another host, carrying the base in its
  query, being accepted.
- `data` written by an earlier successful `verify` stays on the shared response object after
  a later error, which overwrites only `type` and `message` (`StaleDataSurvivesError`).

## Model

| member | source | states |
|---|---|---|
| `CashApp.Response.constructor` | src/WebReceiptVerifier.php:39 | a fresh response object has no `type`, `message` or `data` |
| `CashApp.WebReceiptVerifier.constructor` | src/WebReceiptVerifier.php:37-42 | stores username and reference; `_RECEIPT` and `_RECEIPT_TRX` unset; fresh empty response |
| `CashApp.WebReceiptVerifier.Verify` | src/WebReceiptVerifier.php:50-76 | returns the shared response object; `_RECEIPT` becomes the URL; `_RECEIPT_TRX` becomes `StoredToken`; the response becomes `Apply(old response, Verdict(...))` |
| `CashApp.WebReceiptVerifier.ValidateReceipt` | src/WebReceiptVerifier.php:83-127 | passes exactly when `ValidateUrl` yields a token, which is then stored; otherwise the token is kept and the response gets the invalid-URL error |
| `CashApp.WebReceiptVerifier.ValidateResponse` | src/WebReceiptVerifier.php:135-153 | the response becomes `Apply(old response, MatchReply(receipt, username, reference))` |
| `CashApp.WebReceiptVerifier.VerifyNoteAndUserName` | src/WebReceiptVerifier.php:160-176 | passes exactly when `Precheck` passes; otherwise the response gets the precheck's message; nothing else changes |
| `CashApp.WebReceiptVerifier.SetResponse` | src/WebReceiptVerifier.php:187-195 | `type` and `message` are overwritten; `data` is written only for a receipt; nothing else on the verifier changes |
| `ReceiptRules.Apply` | src/WebReceiptVerifier.php:187-195 | the new `type` and `message` are the given ones; `data` is kept when none is given and replaced when one is |
| `ReceiptRules.Precheck` | src/WebReceiptVerifier.php:160-176 | passes exactly when neither username nor reference is PHP-empty; an empty username always gives the username message; every failure is one of the two fixed messages |
| `ReceiptRules.PathSegments` | src/WebReceiptVerifier.php:105 | at least one segment; no segment contains `/`; there is a segment 1 exactly when the trimmed path contains `/` |
| `ReceiptRules.TokenSegment` | src/WebReceiptVerifier.php:105-108 | `$pathSegments[1]` exists exactly when the trimmed path contains `/`, and holds no `/` |
| `ReceiptRules.ValidateUrl` | src/WebReceiptVerifier.php:83-127 | every rejection is "Invalid web receipt URL"; an accepted URL is non-empty, valid and contains the base; its token has at least 15 bytes, no `/`, and no uniform five-character prefix |
| `ReceiptRules.PayerIdentity` | src/WebReceiptVerifier.php:145-146 | no payer when there are at most three detail rows; otherwise the value of row 3 (None when that row has no `value`) |
| `ReceiptRules.JsonUrl` | src/WebReceiptVerifier.php:59 | the fetch URL starts with `https://cash.app/receipt-json/f/`, and what follows it is exactly the token |
| `ReceiptRules.ClaimMatches` | src/WebReceiptVerifier.php:137-146 | a match means row 3 is exactly the (non-empty) username and the notes equal the (non-empty) reference ignoring case |
| `ReceiptRules.MatchReply` | src/WebReceiptVerifier.php:135-153 | success exactly when the claim matches, with the verified message and the receipt as data; otherwise the unmatched error without data |
| `ReceiptRules.Dispatch` | src/WebReceiptVerifier.php:58-73 | an exception gives its message without data; data is attached exactly on success; success needs status 200 and attaches the fetched body |
| `ReceiptRules.Verdict` | src/WebReceiptVerifier.php:50-76 | data is attached exactly on success; every other result is an error; success needs the precheck and the URL validation to pass |
| `ReceiptRules.StoredToken` | src/WebReceiptVerifier.php:54 | the stored token is unchanged, or it is the token of a URL accepted after a passing precheck (line 124), which has at least 15 bytes |
| `PhpStrings.Empty` | src/WebReceiptVerifier.php:87 | PHP `empty` on a string: "" is empty; only strings of at most one byte are empty; a one-byte string is empty exactly when it is "0" |
| `PhpStrings.StrContains` | src/WebReceiptVerifier.php:89 | containment implies the needle is no longer than the haystack; a prefix is always contained |
| `PhpStrings.Trim` | src/WebReceiptVerifier.php:105 | no longer than the input; neither starts nor ends with the trimmed character; a string without it is unchanged |
| `PhpStrings.Implode` | src/WebReceiptVerifier.php:105 | the inverse of the `explode` at this line, used only to state what `explode` does: the join starts with the first piece, and with two pieces or more it contains the delimiter |
| `PhpStrings.DistinctChars` | src/WebReceiptVerifier.php:118 | a character is among the keys of `array_count_values(str_split(s))` exactly when it occurs in `s` |
| `PhpStrings.StrToLower` | src/WebReceiptVerifier.php:137-138 | same length; each byte is ASCII-lower-cased and nothing else changes |
| `PhpStrings.StrToLowerEmpty` | src/WebReceiptVerifier.php:143 | a lower-cased string is PHP-empty exactly when the original is |
| `PhpStrings.StrContainsIff` | src/WebReceiptVerifier.php:89 | `str_contains` holds exactly when the needle occurs at some position of the haystack |
| `PhpStrings.TrimSpec` | src/WebReceiptVerifier.php:105 | `trim(s, '/')` is a contiguous middle of `s`; only `/` is cut on either side; the result neither starts nor ends with `/` |
| `PhpStrings.Explode` | src/WebReceiptVerifier.php:105 | at least one piece; no piece contains the delimiter; there is a second piece exactly when the delimiter occurs |
| `PhpStrings.ImplodeExplode` | src/WebReceiptVerifier.php:105 | joining the pieces of `explode` with the delimiter gives the original string back |
| `PhpStrings.ExplodeImplode` | src/WebReceiptVerifier.php:105 | splitting a join of delimiter-free pieces gives back those pieces |
| `PhpStrings.Prefix` | src/WebReceiptVerifier.php:115 | `substr(s, 0, n)` is a prefix of `s` of length min(n, strlen(s)) |
| `PhpStrings.OneDistinctIff` | src/WebReceiptVerifier.php:118 | a string has exactly one distinct character exactly when it is non-empty and all its characters are equal |
| `ReceiptProperties.UsernameRequired` | src/WebReceiptVerifier.php:160-166 | an empty username gives the username-required error whatever the reference, URL and transport; no token is stored |
| `ReceiptProperties.ReferenceRequired` | src/WebReceiptVerifier.php:168-172 | with a username, an empty reference gives the reference-required error; no token is stored |
| `ReceiptProperties.EarlyFailureSkipsFetch` | src/WebReceiptVerifier.php:54-56 | when the precheck or URL validation fails, the result does not depend on the transport, is an error without data, and the stored token is unchanged |
| `ReceiptRules.UniformPrefix` | src/WebReceiptVerifier.php:113-118 | for a token of at least five bytes, the forgery filter fires exactly when its first five characters are equal |
| `ReceiptProperties.ValidateUrlSpec` | src/WebReceiptVerifier.php:83-127 | every rejection is "Invalid web receipt URL"; acceptance is exactly the listed conditions (non-empty, valid, contains the base, non-empty path, a segment 1 of at least 15 bytes, not five equal leading characters); the token is path segment 1 |
| `ReceiptProperties.TokenInvariant` | src/WebReceiptVerifier.php:104-124 | an accepted token has at least 15 bytes, contains no `/`, does not start with five equal characters, and its URL contains the base |
| `ReceiptProperties.CanonicalPathSegment` | src/WebReceiptVerifier.php:105-114 | for a non-empty token without `/`, the path `/payments/<token>` yields `<token>` as segment 1 |
| `ReceiptProperties.PaymentsPathAccepted` | src/WebReceiptVerifier.php:96-126 | a URL that passes the first three checks and whose path the URL library reports as `/payments/<token>` is accepted with that token, when the token has no `/`, is long enough and is not uniform |
| `ReceiptProperties.CanonicalUrlAccepted` | src/WebReceiptVerifier.php:83-127 | `https://cash.app/payments/<token>` with a long enough, non-uniform, slash-free token is accepted with that token when the URL library calls it valid and reports the path `/payments/<token>` |
| `ReceiptProperties.UniformTokenRejected` | src/WebReceiptVerifier.php:113-121 | `https://cash.app/payments/<token>`, with a token of at least five bytes, without `/` and starting with five equal characters, is rejected whatever its length, when the URL library reports the path `/payments/<token>` |
| `ReceiptProperties.BaseNeedNotBePrefix` | src/WebReceiptVerifier.php:86-93 | the URL `https://pay.example/payments/<token>?r=https://cash.app/payments/`, on another host and carrying the base only in its query, does not start with the base yet is accepted with `<token>` when the URL library calls it valid and reports the path `/payments/<token>` |
| `ReceiptProperties.FetchOnlyAtJsonUrl` | src/WebReceiptVerifier.php:58-61 | after validation, the result depends on the transport only at `https://cash.app/receipt-json/f/` + token, and that token is stored |
| `ReceiptProperties.DispatchErrors` | src/WebReceiptVerifier.php:63-73 | a non-200 status gives the fixed fetch error; an exception gives its own message unchanged; neither carries data |
| `ReceiptProperties.ClaimMatchesAfterPrecheck` | src/WebReceiptVerifier.php:137-150 | once the precheck passes, the claim matches exactly when the notes equal the reference ignoring case and detail row 3 equals the username |
| `ReceiptProperties.MatchExamples` | src/WebReceiptVerifier.php:137-152 | notes "rent" match reference "RENT"; the payer "bob" or "Alice" does not match "alice"; nor does a receipt with only three rows |
| `ReceiptProperties.VerdictSuccessIff` | src/WebReceiptVerifier.php:50-76 | success exactly when the precheck passes, the URL is accepted, the JSON URL answers 200, and the receipt matches; success carries that receipt; anything else is an error without data |
| `ReceiptProperties.ErrorMessages` | src/WebReceiptVerifier.php:54-73 | an error's message is one of the five fixed messages or the text of the exception the transport threw |
| `ReceiptProperties.StaleDataSurvivesError` | src/WebReceiptVerifier.php:187-195 | after a success, a later error overwrites `type` and `message` but keeps the earlier receipt as `data` |
| `ReceiptProperties.VerifyIdempotent` | src/WebReceiptVerifier.php:50-76 | applying the same verdict twice leaves the response and the stored token as applying it once |
| `ReceiptProperties.VerifyTwice` | src/WebReceiptVerifier.php:50-76 | two identical `verify` calls on one object both return the verifier's own response object, and leave it in the same state |

## Left out

- `httpRequest` (Guzzle network I/O) and `json_decode` are not modelled. The transport is the
  `http` argument and returns an already-decoded receipt. With Guzzle's defaults, 4xx and
  5xx answers arrive as exceptions, which an `http` argument expresses as `Threw`.
- The internals of `filter_var(FILTER_VALIDATE_URL)` and `parse_url` are library URL grammars.
  They enter only as the two functions of `UrlLib`.
- A body that does not decode to an object, or a `notes` or `value` field that is not a
  string, makes PHP raise an uncaught `TypeError` or coerce the value. Neither is modelled:
  the receipt always has string notes and optional string values.
- `strtolower` is modelled as ASCII lower-casing, whatever the locale. Characters stand for
  single bytes, so there is no multi-byte or Unicode handling.
- `example.php` only constructs a verifier and prints its result; it is not part of this model.
