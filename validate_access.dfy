/**
 * The access-code check on the backend (backend/lambda/validateAccess.py): the
 * request body is parsed, the submitted code is normalised and looked up in a
 * comma-separated list of codes held in the secret store. Every outcome is a
 * status code and a small JSON body; the handler never raises.
 */
module ValidateAccessLambda {
  import opened Wrappers
  import opened Json
  import Text

  /** What reading the secret gives: its text, a client error from the secret store, or any other failure. */
  datatype SecretLookup = SecretString(text: string) | ClientFailure | OtherFailure

  datatype ReplyBody =
    | ErrorBody(error: string)
    | Verdict(valid: bool, message: string)

  datatype Reply = Reply(status: int, body: ReplyBody)

  const MISSING_BODY := "Missing request body"
  const INVALID_JSON := "Invalid JSON"
  const CODE_REQUIRED := "Access code required"
  const NOT_CONFIGURED := "Access codes not configured"
  const INTERNAL_ERROR := "Internal server error"
  const GRANTED := "Access granted"
  const INVALID_CODE := "Invalid access code"

  /** The code starts and ends with a double quote (a single '"' does both). */
  predicate Quoted(s: string) {
    |s| >= 1 && s[0] == '"' && s[|s| - 1] == '"'
  }

  /**
   * Strip the code, then drop one surrounding pair of double quotes if there is
   * one. The text inside the quotes is not stripped again.
   */
  function NormaliseCode(code: string): (r: string)
    ensures !Quoted(Text.Strip(code)) ==> r == Text.Strip(code)
    ensures Quoted(Text.Strip(code)) ==> |r| == if |Text.Strip(code)| >= 2 then |Text.Strip(code)| - 2 else 0
    ensures Quoted(Text.Strip(code)) && |Text.Strip(code)| >= 2 ==> Text.Strip(code) == "\"" + r + "\""
  {
    var s := Text.Strip(code);
    if Quoted(s) then (if |s| >= 2 then QuotesAround(s); s[1..|s| - 1] else "") else s
  }

  /** A quoted text of two or more characters is its inside wrapped in the two quotes. */
  lemma QuotesAround(s: string)
    requires Quoted(s) && |s| >= 2
    ensures s == "\"" + s[1..|s| - 1] + "\""
  {
    assert s == [s[0]] + s[1..|s| - 1] + [s[|s| - 1]];
  }

  /** `[code.strip() for code in secret.split(',')]`. */
  function AllowList(secret: string): (codes: seq<string>)
    ensures |codes| == |Text.Split(secret, ',')|
    ensures forall i :: 0 <= i < |codes| ==> codes[i] == Text.Strip(Text.Split(secret, ',')[i])
  {
    StripAll(Text.Split(secret, ','))
  }

  function StripAll(parts: seq<string>): (r: seq<string>)
    ensures |r| == |parts|
    ensures forall i :: 0 <= i < |r| ==> r[i] == Text.Strip(parts[i])
  {
    seq(|parts|, i requires 0 <= i < |parts| => Text.Strip(parts[i]))
  }

  /** The code the request carries, when the body is an object whose `accessCode` (default '') is a string. */
  function SubmittedCode(request: Value): Option<string> {
    if request.JObj? then
      match PyGet(request.fields, "accessCode", JStr(""))
      case JStr(code) => Some(code)
      case _ => None     // `.strip()` on a non-string raises
    else None            // `.get` on a non-dict raises
  }

  /**
   * `lambda_handler`, as a decision over the raw body (`None` when the event has
   * none), the JSON parser and what the secret store returns.
   */
  function Handle(body: Option<string>, parse: string -> Option<Value>, secret: SecretLookup): (r: Reply)
    ensures body.None? || body.value == "" ==> r == Reply(400, ErrorBody(MISSING_BODY))
    ensures r.status == 200 ==> r.body == Verdict(true, GRANTED)
    ensures r.status == 401 ==> r.body == Verdict(false, INVALID_CODE)
    ensures r.status in {200, 400, 401, 500}
  {
    if body.None? || body.value == "" then Reply(400, ErrorBody(MISSING_BODY))
    else match parse(body.value)
      case None => Reply(400, ErrorBody(INVALID_JSON))
      case Some(request) =>
        match SubmittedCode(request)
        case None => Reply(500, ErrorBody(INTERNAL_ERROR))
        case Some(raw) =>
          var code := NormaliseCode(raw);
          if code == "" then Reply(400, ErrorBody(CODE_REQUIRED))
          else match secret
            case ClientFailure => Reply(500, ErrorBody(NOT_CONFIGURED))
            case OtherFailure => Reply(500, ErrorBody(INTERNAL_ERROR))
            case SecretString(text) =>
              if code in AllowList(text) then Reply(200, Verdict(true, GRANTED))
              else Reply(401, Verdict(false, INVALID_CODE))
  }

  /**
   * The rest of the error chain, in order: a body that is not JSON, a request
   * the handler cannot read a string code from, and, only for a non-empty
   * code, the two ways reading the secret fails.
   */
  lemma ErrorChain(body: string, parse: string -> Option<Value>, secret: SecretLookup)
    requires body != ""
    ensures parse(body).None? ==> Handle(Some(body), parse, secret) == Reply(400, ErrorBody(INVALID_JSON))
    ensures parse(body).Some? && SubmittedCode(parse(body).value).None? ==>
              Handle(Some(body), parse, secret) == Reply(500, ErrorBody(INTERNAL_ERROR))
    ensures parse(body).Some? && SubmittedCode(parse(body).value).Some? &&
            NormaliseCode(SubmittedCode(parse(body).value).value) != "" ==>
              (secret == ClientFailure ==> Handle(Some(body), parse, secret) == Reply(500, ErrorBody(NOT_CONFIGURED))) &&
              (secret == OtherFailure ==> Handle(Some(body), parse, secret) == Reply(500, ErrorBody(INTERNAL_ERROR)))
  {
  }

  /** A lone '"' normalises to the empty code. */
  lemma LoneQuoteIsEmpty()
    ensures NormaliseCode("\"") == ""
  {
    QuotesOnlyAreEmpty("\"");
  }

  /** An empty pair of quotes normalises to the empty code. */
  lemma EmptyQuotesAreEmpty()
    ensures NormaliseCode("\"\"") == ""
  {
    QuotesOnlyAreEmpty("\"\"");
  }

  /** A code of one or two characters that is quoted holds nothing but quotes. */
  lemma QuotesOnlyAreEmpty(q: string)
    requires Quoted(q) && |q| <= 2
    ensures NormaliseCode(q) == ""
  {
    assert Text.Trimmed(q);
    Text.StripTrimmed(q);
  }

  /** Quotes are removed once and what they enclose is kept as it is, spaces included. */
  lemma QuotedCodeKeepsInside(inner: string)
    ensures NormaliseCode("\"" + inner + "\"") == inner
  {
    var q := "\"" + inner + "\"";
    assert Text.Trimmed(q);
    Text.StripTrimmed(q);
    assert q[1..|q| - 1] == inner;
  }

  /**
   * A code the browser sends is already trimmed; unless it is wrapped in quotes,
   * the handler compares it unchanged.
   */
  lemma TrimmedCodeIsKept(code: string)
    requires Text.Trimmed(code) && !Quoted(code)
    ensures NormaliseCode(code) == code
  {
    Text.StripTrimmed(code);
  }

  /** An empty code is refused before the secret store is consulted: the result does not depend on it. */
  lemma EmptyCodeIgnoresSecret(body: string, parse: string -> Option<Value>, raw: string,
                               secret1: SecretLookup, secret2: SecretLookup)
    requires body != "" && parse(body).Some? && SubmittedCode(parse(body).value) == Some(raw)
    requires NormaliseCode(raw) == ""
    ensures Handle(Some(body), parse, secret1) == Handle(Some(body), parse, secret2) == Reply(400, ErrorBody(CODE_REQUIRED))
  {
  }

  /**
   * The code is accepted exactly when one part of the secret's comma-separated
   * list (`parts`), once stripped, equals the normalised code.
   */
  lemma AcceptedIffListed(body: string, parse: string -> Option<Value>, raw: string, secret: string, parts: seq<string>)
    requires body != "" && parse(body).Some? && SubmittedCode(parse(body).value) == Some(raw)
    requires parts == Text.Split(secret, ',')
    ensures Handle(Some(body), parse, SecretString(secret)).status == 200 <==>
            NormaliseCode(raw) != "" && exists i :: 0 <= i < |parts| && Text.Strip(parts[i]) == NormaliseCode(raw)
  {
    CodeLookup(body, parse, raw, secret);
    StripAllIff(parts, NormaliseCode(raw));
  }

  /** Once a string code has been read, the reply depends only on the normalised code and the allow-list. */
  lemma CodeLookup(body: string, parse: string -> Option<Value>, raw: string, secret: string)
    requires body != "" && parse(body).Some? && SubmittedCode(parse(body).value) == Some(raw)
    ensures Handle(Some(body), parse, SecretString(secret)) ==
            if NormaliseCode(raw) == "" then Reply(400, ErrorBody(CODE_REQUIRED))
            else if NormaliseCode(raw) in AllowList(secret) then Reply(200, Verdict(true, GRANTED))
            else Reply(401, Verdict(false, INVALID_CODE))
  {
  }

  /** A code is among the stripped parts exactly when some part strips to it. */
  lemma StripAllIff(parts: seq<string>, code: string)
    ensures code in StripAll(parts) <==> exists i :: 0 <= i < |parts| && Text.Strip(parts[i]) == code
  {
    var codes := StripAll(parts);
    if code in codes {
      var i :| 0 <= i < |codes| && codes[i] == code;
      assert Text.Strip(parts[i]) == code;
    } else {
      forall i | 0 <= i < |parts|
        ensures Text.Strip(parts[i]) != code
      {
        assert codes[i] == Text.Strip(parts[i]);
      }
    }
  }

  /** No entry of the allow-list holds a comma. */
  lemma NoCommaInAllowList(secret: string)
    ensures forall c :: c in AllowList(secret) ==> ',' !in c
  {
    var parts := Text.Split(secret, ',');
    var codes := AllowList(secret);
    Text.SplitPartsLackSeparator(secret, ',');
    forall i | 0 <= i < |codes|
      ensures ',' !in codes[i]
    {
      Text.StripKeepsAbsence(parts[i], ',');
    }
  }

  /** So a code containing a comma is never accepted. */
  lemma CommaCodeNeverAccepted(body: string, parse: string -> Option<Value>, raw: string, secret: string)
    requires body != "" && parse(body).Some? && SubmittedCode(parse(body).value) == Some(raw)
    requires ',' in NormaliseCode(raw)
    ensures Handle(Some(body), parse, SecretString(secret)) == Reply(401, Verdict(false, INVALID_CODE))
  {
    NoCommaInAllowList(secret);
    assert NormaliseCode(raw) !in AllowList(secret);
  }
}
