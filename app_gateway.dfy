/**
 * The access gate of the demo site (app-gateway.js): on every page load the
 * visitor is let in when the durable store holds an unexpired identity token,
 * or when the volatile store records a grant by access code; otherwise the
 * access-code dialog is shown. A correct access code, checked by the backend,
 * records the grant and appends an audit entry to a log capped at ten
 * entries. A visit counter is kept alongside.
 */
module AppGateway {
  import opened Wrappers
  import opened Json
  import Text
  import Numbers
  import opened Browser

  const ID_TOKEN := "idToken"
  const SESSION_ACCESS := "sessionAccess"
  const GRANTED := "granted"
  const SYSTEM_LOGS := "systemLogs"
  const SYSTEM_VISITS := "systemVisits"
  const LAST_VISIT := "lastVisit"
  /** The audit log keeps this many of the most recent entries. */
  const MAX_LOGS := 10
  /** At most this many characters of the user agent go into an audit entry. */
  const USER_AGENT_LIMIT := 100
  const INVALID_CODE_MESSAGE := "Invalid access code"

  /**
   * The payload decoder: base64 decoding of a token segment, JSON parsing of
   * the result and reading its `exp` field, as the `>` comparison sees it.
   * None when any of these throws or yields nothing to compare.
   */
  type ExpDecoder = string -> Option<int>

  // ---------------------------------------------------------------------------
  // Token expiry

  /**
   * `isTokenValid`: the second '.'-separated segment decodes to an expiry that
   * lies strictly after the current second; any failure counts as invalid.
   */
  function IsTokenValid(token: string, nowMs: nat, decode: ExpDecoder): bool
  {
    var segments := Text.Split(token, '.');
    |segments| >= 2 &&
    match decode(segments[1])
    case Some(exp) => exp > nowMs / 1000
    case None => false
  }

  /** For a compact token `header.payload.signature`, validity is exactly "the payload's expiry is still ahead". */
  lemma CompactTokenValidity(header: string, payload: string, signature: string, nowMs: nat, decode: ExpDecoder)
    requires '.' !in header && '.' !in payload && '.' !in signature
    ensures IsTokenValid(header + "." + payload + "." + signature, nowMs, decode) <==>
            (decode(payload).Some? && decode(payload).value > nowMs / 1000)
  {
    var token := header + "." + payload + "." + signature;
    assert token == Text.Join([header, payload, signature], '.') by {
      assert Text.Join([signature], '.') == signature;
      assert [header, payload, signature][1..] == [payload, signature];
      assert [payload, signature][1..] == [signature];
    }
    SplitJoin([header, payload, signature], '.');
  }

  /** Splitting a join of separator-free parts recovers the parts. */
  lemma {:induction false} SplitJoin(parts: seq<string>, sep: char)
    requires |parts| >= 1
    requires forall i :: 0 <= i < |parts| ==> sep !in parts[i]
    ensures Text.Split(Text.Join(parts, sep), sep) == parts
  {
    if |parts| > 1 {
      var rest := parts[1..];
      forall i | 0 <= i < |rest|
        ensures sep !in rest[i]
      {
        assert rest[i] == parts[i + 1];
      }
      SplitJoin(rest, sep);
      var tail := Text.Join(rest, sep);
      assert Text.Join(parts, sep) == parts[0] + [sep] + tail;
      SplitPrefix(parts[0], tail, sep);
      assert [parts[0]] + rest == parts;
    } else {
      Text.SplitWithoutSeparator(parts[0], sep);
    }
  }

  /** A separator-free `head` followed by the separator splits off as the first part. */
  lemma {:induction false} SplitPrefix(head: string, tail: string, sep: char)
    requires sep !in head
    ensures Text.Split(head + [sep] + tail, sep) == [head] + Text.Split(tail, sep)
  {
    var s := head + [sep] + tail;
    if head == [] {
      assert s == [sep] + tail;
      assert s[1..] == tail;
      assert Text.Split(s, sep) == [""] + Text.Split(tail, sep);
    } else {
      assert s[1..] == head[1..] + [sep] + tail;
      SplitPrefix(head[1..], tail, sep);
      var rest := Text.Split(s[1..], sep);
      assert rest == [head[1..]] + Text.Split(tail, sep);
      assert s[0] == head[0] != sep;
      assert Text.Split(s, sep) == [[s[0]] + rest[0]] + rest[1..];
      assert rest[1..] == Text.Split(tail, sep);
      assert [s[0]] + head[1..] == head;
    }
  }

  /** A token expiring in the current second is already invalid. */
  lemma ExpiringNowIsInvalid(header: string, payload: string, signature: string, nowMs: nat, decode: ExpDecoder)
    requires '.' !in header && '.' !in payload && '.' !in signature
    requires decode(payload) == Some(nowMs / 1000)
    ensures !IsTokenValid(header + "." + payload + "." + signature, nowMs, decode)
  {
    CompactTokenValidity(header, payload, signature, nowMs, decode);
  }

  /** A string without a '.' has no payload segment and is never valid. */
  lemma NoSegmentsIsInvalid(token: string, nowMs: nat, decode: ExpDecoder)
    requires '.' !in token
    ensures !IsTokenValid(token, nowMs, decode)
  {
    Text.SplitWithoutSeparator(token, '.');
  }

  /** Once a token has expired it stays expired as time goes on. */
  lemma ExpiryIsPermanent(token: string, earlierMs: nat, laterMs: nat, decode: ExpDecoder)
    requires earlierMs <= laterMs
    requires !IsTokenValid(token, earlierMs, decode)
    ensures !IsTokenValid(token, laterMs, decode)
  {
  }

  // ---------------------------------------------------------------------------
  // Access decision

  datatype AccessState = Anonymous | SessionGranted | Authenticated

  /** The stored identity token is present, non-empty and unexpired. */
  predicate HasValidIdToken(local: map<string, string>, nowMs: nat, decode: ExpDecoder) {
    ID_TOKEN in local && local[ID_TOKEN] != "" && IsTokenValid(local[ID_TOKEN], nowMs, decode)
  }

  predicate SessionIsGranted(session: map<string, string>) {
    SESSION_ACCESS in session && session[SESSION_ACCESS] == GRANTED
  }

  /**
   * The visitor's state, recomputed from the two stores: a valid identity token
   * dominates a session grant, which dominates nothing.
   */
  function Access(local: map<string, string>, session: map<string, string>, nowMs: nat, decode: ExpDecoder): (s: AccessState)
    ensures s == Authenticated <==> HasValidIdToken(local, nowMs, decode)
    ensures s == SessionGranted <==> !HasValidIdToken(local, nowMs, decode) && SessionIsGranted(session)
  {
    if HasValidIdToken(local, nowMs, decode) then Authenticated
    else if SessionIsGranted(session) then SessionGranted
    else Anonymous
  }

  /**
   * `checkAccess`: true when the visitor may proceed; otherwise the access
   * dialog is shown and the result is false. Nothing else changes.
   */
  method CheckAccess(page: Page, nowMs: nat, decode: ExpDecoder) returns (allowed: bool)
    modifies page`dialogShown
    ensures allowed <==> Access(page.localStore, page.sessionStore, nowMs, decode) != Anonymous
    ensures page.dialogShown == (old(page.dialogShown) || !allowed)
  {
    var idToken := if ID_TOKEN in page.localStore then Some(page.localStore[ID_TOKEN]) else None;
    if idToken.Some? && idToken.value != "" && IsTokenValid(idToken.value, nowMs, decode) {
      return true;
    }
    var sessionAccess := if SESSION_ACCESS in page.sessionStore then Some(page.sessionStore[SESSION_ACCESS]) else None;
    if sessionAccess == Some(GRANTED) {
      return true;
    }
    page.dialogShown := true;
    return false;
  }

  /** A valid identity token lets the visitor in whatever the volatile store says. */
  lemma TokenTakesPrecedence(local: map<string, string>, session1: map<string, string>,
                             session2: map<string, string>, nowMs: nat, decode: ExpDecoder)
    requires HasValidIdToken(local, nowMs, decode)
    ensures Access(local, session1, nowMs, decode) == Access(local, session2, nowMs, decode) == Authenticated
  {
  }

  /** A new tab starts with an empty volatile store: a grant by access code alone does not carry over. */
  lemma NewTabForgetsSessionGrant(local: map<string, string>, nowMs: nat, decode: ExpDecoder)
    requires !HasValidIdToken(local, nowMs, decode)
    ensures Access(local, map[], nowMs, decode) == Anonymous
  {
  }

  // ---------------------------------------------------------------------------
  // Access-code challenge

  datatype GateOutcome =
    | EmptyCode           // nothing but whitespace was entered: no request
    | Granted             // the backend accepted the code
    | Rejected(message: Value)  // shown in the dialog: the backend's message or the default
    | ConnectionError     // anything thrown on the way

  /** The message shown for a rejected code: the reply's `message` if truthy, else the default. */
  function RejectionMessage(result: Value): (m: Value)
    ensures JsTruthy(Prop(result, "message")) ==> Some(m) == Prop(result, "message")
    ensures !JsTruthy(Prop(result, "message")) ==> m == JStr(INVALID_CODE_MESSAGE)
  {
    var message := Prop(result, "message");
    if JsTruthy(message) then message.value else JStr(INVALID_CODE_MESSAGE)
  }

  /** The backend accepted the code: the request succeeded and the reply's `valid` is truthy. */
  predicate Accepts(reply: FetchReply) {
    reply.Reply? && reply.ok && reply.body.Some? && reply.body.value != JNull &&
    JsTruthy(Prop(reply.body.value, "valid"))
  }

  /**
   * `validateAccess`: trims the entered code; an empty code sends nothing and
   * changes nothing. Otherwise the code is sent (`request`) and `reply` is the
   * backend's answer. Only an accepting reply writes: `sessionAccess` becomes
   * "granted" and one "demo" audit entry is recorded. Every other reply leaves
   * both stores as they were.
   */
  method ValidateAccess(page: Page, entered: string, reply: FetchReply, codec: Codec,
                        timestamp: string, userAgent: string)
    returns (request: Option<string>, outcome: GateOutcome)
    modifies page`sessionStore, page`localStore
    ensures request == (if Text.Strip(entered) == "" then None else Some(Text.Strip(entered)))
    ensures request.None? ==> outcome == EmptyCode
    ensures !(request.Some? && Accepts(reply)) ==>
              page.sessionStore == old(page.sessionStore) && page.localStore == old(page.localStore)
    ensures request.Some? && Accepts(reply) ==>
              page.sessionStore == old(page.sessionStore)[SESSION_ACCESS := GRANTED] &&
              page.localStore == AfterTrack(old(page.localStore), "demo", codec, timestamp, userAgent)
    ensures request.Some? && Accepts(reply) ==>
              outcome == (if TrackSucceeds(old(page.localStore), codec) then Granted else ConnectionError)
    ensures request.Some? && reply.Reply? && reply.body.Some? && reply.body.value != JNull && !Accepts(reply) ==>
              outcome == Rejected(RejectionMessage(reply.body.value))
    ensures request.Some? && (reply.NetworkFailure? || reply.body.None? || reply.body == Some(JNull)) ==>
              outcome == ConnectionError
  {
    var code := Text.Strip(entered);
    if code == "" {
      return None, EmptyCode;
    }
    request := Some(code);
    match reply {
      case NetworkFailure =>
        outcome := ConnectionError;
      case Reply(ok, body) =>
        if body.None? || body.value == JNull {
          // response.json() rejected, or `result.valid` / `result.message` read from null
          outcome := ConnectionError;
        } else if ok && JsTruthy(Prop(body.value, "valid")) {
          page.sessionStore := page.sessionStore[SESSION_ACCESS := GRANTED];
          var logged := TrackAccess(page, "demo", codec, timestamp, userAgent);
          outcome := if logged then Granted else ConnectionError;
        } else {
          outcome := Rejected(RejectionMessage(body.value));
        }
    }
  }

  /** After an accepted code the gate lets the visitor in, without another request. */
  lemma GrantOpensGate(local: map<string, string>, session: map<string, string>, nowMs: nat, decode: ExpDecoder)
    ensures Access(local, session[SESSION_ACCESS := GRANTED], nowMs, decode) != Anonymous
  {
  }

  // ---------------------------------------------------------------------------
  // Audit log and visit counter

  /** The text `trackAccess` parses: the stored log, or "[]" when absent or empty. */
  function StoredLogText(local: map<string, string>): string {
    if SYSTEM_LOGS in local && local[SYSTEM_LOGS] != "" then local[SYSTEM_LOGS] else "[]"
  }

  /** `trackAccess` can proceed only when the stored log parses to an array. */
  predicate TrackSucceeds(local: map<string, string>, codec: Codec) {
    var parsed := codec.parse(StoredLogText(local));
    parsed.Some? && parsed.value.JArr?
  }

  /** `navigator.userAgent.substring(0, 100)`. */
  function Truncate(s: string, limit: nat): (r: string)
    ensures |r| == if |s| <= limit then |s| else limit
    ensures r == s[..|r|]
  {
    if |s| <= limit then s else s[..limit]
  }

  function LogEntry(kind: string, timestamp: string, userAgent: string): Value {
    JObj(map["type" := JStr(kind), "timestamp" := JStr(timestamp),
             "userAgent" := JStr(Truncate(userAgent, USER_AGENT_LIMIT))])
  }

  /** Keep only the `MAX_LOGS` most recent entries. */
  function Cap(logs: seq<Value>): seq<Value> {
    if |logs| > MAX_LOGS then logs[|logs| - MAX_LOGS..] else logs
  }

  /** The durable store after `trackAccess`; unchanged when it throws. */
  function AfterTrack(local: map<string, string>, kind: string, codec: Codec,
                      timestamp: string, userAgent: string): map<string, string>
  {
    if TrackSucceeds(local, codec) then
      var logs := codec.parse(StoredLogText(local)).value.items;
      local[SYSTEM_LOGS := codec.stringify(JArr(Cap(logs + [LogEntry(kind, timestamp, userAgent)])))]
    else local
  }

  /**
   * `trackAccess`: appends an entry to the stored log, drops the oldest entries
   * beyond ten and writes the log back. `ok` is false when it throws (the log
   * text does not parse, or parses to something other than an array); then
   * nothing is written.
   */
  method TrackAccess(page: Page, kind: string, codec: Codec, timestamp: string, userAgent: string)
    returns (ok: bool)
    modifies page`localStore
    ensures ok == TrackSucceeds(old(page.localStore), codec)
    ensures page.localStore == AfterTrack(old(page.localStore), kind, codec, timestamp, userAgent)
  {
    var parsed := codec.parse(StoredLogText(page.localStore));
    if parsed.None? || !parsed.value.JArr? {
      return false;
    }
    var logs := parsed.value.items;
    logs := logs + [LogEntry(kind, timestamp, userAgent)];
    if |logs| > MAX_LOGS {
      logs := logs[|logs| - MAX_LOGS..];
    }
    page.localStore := page.localStore[SYSTEM_LOGS := codec.stringify(JArr(logs))];
    return true;
  }

  /**
   * One append under the cap: at most ten entries, the new one last, before it
   * the most recent earlier entries in their original order.
   */
  lemma CapAppend(logs: seq<Value>, entry: Value)
    ensures var r := Cap(logs + [entry]);
      |r| == (if |logs| + 1 > MAX_LOGS then MAX_LOGS else |logs| + 1) &&
      r[|r| - 1] == entry && r[..|r| - 1] == logs[|logs| - (|r| - 1)..]
  {
    var r := Cap(logs + [entry]);
    if |logs| + 1 > MAX_LOGS {
      assert r == (logs + [entry])[|logs| + 1 - MAX_LOGS..];
      assert r[..|r| - 1] == logs[|logs| + 1 - MAX_LOGS..];
    } else {
      assert r[..|r| - 1] == logs;
    }
  }

  /**
   * The log read back after tracking is the earlier log with the new entry
   * appended and capped: at most ten entries, the new one last.
   */
  lemma TrackedLogReadBack(local: map<string, string>, kind: string, codec: Codec,
                           timestamp: string, userAgent: string)
    requires Lawful(codec) && TrackSucceeds(local, codec)
    ensures var after := AfterTrack(local, kind, codec, timestamp, userAgent);
      var back := codec.parse(StoredLogText(after));
      var logs := codec.parse(StoredLogText(local)).value.items;
      back == Some(JArr(Cap(logs + [LogEntry(kind, timestamp, userAgent)]))) &&
      1 <= |back.value.items| <= MAX_LOGS &&
      back.value.items[|back.value.items| - 1] == LogEntry(kind, timestamp, userAgent)
  {
    var logs := codec.parse(StoredLogText(local)).value.items;
    var capped := Cap(logs + [LogEntry(kind, timestamp, userAgent)]);
    CapAppend(logs, LogEntry(kind, timestamp, userAgent));
    var after := AfterTrack(local, kind, codec, timestamp, userAgent);
    assert after[SYSTEM_LOGS] == codec.stringify(JArr(capped)) != "";
  }

  /** The log after tracking each of `entries` in turn, starting from `logs`. */
  function TrackAll(logs: seq<Value>, entries: seq<Value>): seq<Value>
    decreases |entries|
  {
    if entries == [] then logs else TrackAll(Cap(logs + [entries[0]]), entries[1..])
  }

  /** Capping early changes nothing: only the last ten of everything survive. */
  lemma CapAbsorbs(logs: seq<Value>, more: seq<Value>)
    ensures Cap(Cap(logs) + more) == Cap(logs + more)
  {
    if |logs| > MAX_LOGS {
      var c := Cap(logs);
      if |c + more| > MAX_LOGS {
        assert (c + more)[|c + more| - MAX_LOGS..] == (logs + more)[|logs + more| - MAX_LOGS..];
      }
    }
  }

  /** Tracking entries one by one keeps exactly the ten most recent of all of them, oldest evicted first. */
  lemma {:induction false} TrackAllKeepsMostRecent(logs: seq<Value>, entries: seq<Value>)
    requires |logs| <= MAX_LOGS
    ensures TrackAll(logs, entries) == Cap(logs + entries)
    decreases |entries|
  {
    if entries == [] {
      assert logs + entries == logs;
    } else {
      var capped := Cap(logs + [entries[0]]);
      TrackAllKeepsMostRecent(capped, entries[1..]);
      CapAbsorbs(logs + [entries[0]], entries[1..]);
      SplitFirst(logs, entries);
    }
  }

  lemma SplitFirst(logs: seq<Value>, entries: seq<Value>)
    requires entries != []
    ensures logs + [entries[0]] + entries[1..] == logs + entries
  {
    assert [entries[0]] + entries[1..] == entries;
  }

  /** Twelve entries tracked from an empty log: the first two are gone, the other ten remain in order. */
  lemma TwelveTracksKeepLastTen(entries: seq<Value>)
    requires |entries| == 12
    ensures TrackAll([], entries) == entries[2..]
  {
    TrackAllKeepsMostRecent([], entries);
    assert [] + entries == entries;
  }

  /** JavaScript `parseInt(s)` in base ten: leading whitespace, an optional sign, the longest digit prefix; None is NaN. */
  function JsParseInt(s: string): (r: Option<int>)
  {
    var t := Text.TrimLeft(s);
    var unsigned := if |t| > 0 && (t[0] == '-' || t[0] == '+') then t[1..] else t;
    var digits := DigitPrefix(unsigned);
    if digits == [] then None
    else
      var magnitude: int := Numbers.DigitsValue(digits);
      Some(if |t| > 0 && t[0] == '-' then -magnitude else magnitude)
  }

  /** The longest prefix of `s` made of ASCII digits. */
  function DigitPrefix(s: string): (r: string)
    ensures Numbers.AllDigits(r) && |r| <= |s| && r == s[..|r|]
    ensures |r| < |s| ==> !Numbers.IsDigit(s[|r|])
  {
    if s != [] && Numbers.IsDigit(s[0]) then [s[0]] + DigitPrefix(s[1..]) else []
  }

  /** The counter text `trackVisit` writes: `parseInt(stored || '0') + 1`, or "NaN". */
  function NextVisitText(local: map<string, string>): string {
    var stored := if SYSTEM_VISITS in local && local[SYSTEM_VISITS] != "" then local[SYSTEM_VISITS] else "0";
    match JsParseInt(stored)
    case Some(n) => Numbers.IntToString(n + 1)
    case None => "NaN"
  }

  /** `trackVisit`: increments the visit counter and records the time of this visit. */
  method TrackVisit(page: Page, timestamp: string)
    modifies page`localStore
    ensures page.localStore == old(page.localStore)[SYSTEM_VISITS := NextVisitText(old(page.localStore))]
                                                   [LAST_VISIT := timestamp]
  {
    var stored := if SYSTEM_VISITS in page.localStore && page.localStore[SYSTEM_VISITS] != ""
                  then page.localStore[SYSTEM_VISITS] else "0";
    var parsed := JsParseInt(stored);
    var visits := if parsed.Some? then Numbers.IntToString(parsed.value + 1) else "NaN";
    page.localStore := page.localStore[SYSTEM_VISITS := visits];
    page.localStore := page.localStore[LAST_VISIT := timestamp];
  }

  /** A counter stored as the decimal text of n becomes the decimal text of n + 1. */
  lemma VisitCounterCounts(local: map<string, string>, n: nat)
    requires SYSTEM_VISITS in local && local[SYSTEM_VISITS] == Numbers.NatToString(n)
    ensures NextVisitText(local) == Numbers.IntToString(n + 1)
  {
    JsParseIntOfNat(n);
  }

  /** An absent counter counts as zero, so the first visit stores "1". */
  lemma FirstVisitCountsOne(local: map<string, string>)
    requires SYSTEM_VISITS !in local
    ensures NextVisitText(local) == "1"
  {
    JsParseIntOfNat(0);
  }

  /** `parseInt` reads back the decimal text of a natural number. */
  lemma JsParseIntOfNat(n: nat)
    ensures JsParseInt(Numbers.NatToString(n)) == Some(n)
  {
    var s := Numbers.NatToString(n);
    assert Text.TrimLeft(s) == s;
    assert !(s[0] == '-' || s[0] == '+');
    DigitPrefixOfDigits(s);
    Numbers.DigitsOfNat(n);
  }

  lemma {:induction false} DigitPrefixOfDigits(s: string)
    requires Numbers.AllDigits(s)
    ensures DigitPrefix(s) == s
  {
    if s != [] {
      DigitPrefixOfDigits(s[1..]);
    }
  }

  /**
   * `revokeAccess` (for testing): forgets the audit log and the visit counter
   * and reloads the page. The tokens and the session grant are kept.
   */
  method RevokeAccess(page: Page)
    modifies page`localStore, page`reloads
    ensures page.localStore == old(page.localStore) - {SYSTEM_LOGS, SYSTEM_VISITS, LAST_VISIT}
    ensures page.reloads == old(page.reloads) + 1
  {
    page.localStore := page.localStore - {SYSTEM_LOGS};
    page.localStore := page.localStore - {SYSTEM_VISITS};
    page.localStore := page.localStore - {LAST_VISIT};
    page.reloads := page.reloads + 1;
  }

  /** `clearAccess` delegates to `revokeAccess`. */
  method ClearAccess(page: Page)
    modifies page`localStore, page`reloads
    ensures page.localStore == old(page.localStore) - {SYSTEM_LOGS, SYSTEM_VISITS, LAST_VISIT}
    ensures page.reloads == old(page.reloads) + 1
  {
    RevokeAccess(page);
  }

  /** Revoking leaves the access decision exactly as it was: the keys it removes play no part in it. */
  lemma RevokeKeepsAccess(local: map<string, string>, session: map<string, string>, nowMs: nat, decode: ExpDecoder)
    ensures Access(local - {SYSTEM_LOGS, SYSTEM_VISITS, LAST_VISIT}, session, nowMs, decode) ==
            Access(local, session, nowMs, decode)
  {
    var revoked := local - {SYSTEM_LOGS, SYSTEM_VISITS, LAST_VISIT};
    assert (ID_TOKEN in revoked) == (ID_TOKEN in local);
  }
}
