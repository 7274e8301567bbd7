/**
 * The quote-submission lambda (backend/lambda/submitQuote.py): it checks the
 * request, looks for an earlier quote under the same composite key, computes
 * the instant premium with its own copy of the rules, and publishes the request
 * to the topic for the workers.
 */
module SubmitQuote {
  import opened Wrappers
  import opened Json
  import Text
  import PremiumRules
  import opened QuoteStore

  /**
   * `calculate_premium`: the three rules inlined in one dispatch, 0 for any
   * other type. None when a rule raises.
   */
  function CalculatePremium(insuranceType: Value, details: Value): (r: Option<int>)
    ensures insuranceType !in {JStr("auto"), JStr("home"), JStr("life")} ==> r == Some(0)
  {
    if insuranceType == JStr("auto") then
      if !details.JObj? then None
      else
        var vehicleType :- PremiumRules.LowerField(details.fields, "vehicleType");
        var year :- PremiumRules.IntField(details.fields, "year", 2020);
        var history :- PremiumRules.LowerField(details.fields, "drivingHistory");
        Some(500 + (if vehicleType == "suv" then 100 else 0)
                 + (if year < 2020 then 75 else 0)
                 + (if Text.Contains(history, "accident") then 150 else 0))
    else if insuranceType == JStr("home") then
      if !details.JObj? then None
      else
        var squareFootage :- PremiumRules.IntField(details.fields, "squareFootage", 0);
        var yearBuilt :- PremiumRules.IntField(details.fields, "yearBuilt", 2025);
        var security :- PremiumRules.LowerField(details.fields, "securitySystem");
        Some(400 + (if squareFootage > 2000 then 100 else 0)
                 + (if yearBuilt < 2000 then 100 else 0)
                 + (if security == "no" then 75 else 0))
    else if insuranceType == JStr("life") then
      if !details.JObj? then None
      else
        var age :- PremiumRules.IntField(details.fields, "age", 0);
        var smoker :- PremiumRules.LowerField(details.fields, "smoker");
        var health :- PremiumRules.LowerField(details.fields, "health");
        Some(300 + (if age > 50 then 100 else 0)
                 + (if smoker == "yes" then 150 else 0)
                 + (if health == "poor" then 200 else 0))
    else Some(0)
  }

  /** The copy agrees with the instant-quote rules for each of the three types, failures included. */
  lemma CopiedRulesAgree(details: Value)
    ensures CalculatePremium(JStr("auto"), details) == PremiumRules.AutoPremium(details)
    ensures CalculatePremium(JStr("home"), details) == PremiumRules.HomePremium(details)
    ensures CalculatePremium(JStr("life"), details) == PremiumRules.LifePremium(details)
  {
  }

  /** Hence the instant quote of the calculate endpoint and of the submit endpoint coincide on every accepted type. */
  lemma SubmitQuotesLikeCalculator(insuranceType: string, details: Value)
    requires insuranceType in {"auto", "home", "life"}
    ensures CalculatePremium(JStr(insuranceType), details) ==
            PremiumRules.RuleFor(JStr(insuranceType), details).value
  {
    CopiedRulesAgree(details);
  }

  const INTERNAL_ERROR := "Internal server error"
  const MISSING_TYPE := "Missing insuranceType"
  const NO_TOPIC := "SNS Topic ARN not configured"

  /** The reply body; the `message` text each kind carries is `MessageOf` below. */
  datatype SubmitBody =
    | Message(message: string)
    | Duplicate(insuranceType: Value)
    | Submitted(premiumAmount: int, insuranceType: Value, customerName: Value)

  datatype Reply = Reply(status: int, body: SubmitBody)

  /** `body.get("insuranceType")` on a request body that is a dict. */
  function TypeOf(body: Value): Value
    requires body.JObj?
  {
    PyGet(body.fields, "insuranceType", JNull)
  }

  /** `body.get('details', {})`. */
  function DetailsOf(body: Value): Value
    requires body.JObj?
  {
    PyGet(body.fields, "details", JObj(map[]))
  }

  /** `f"{body.get('email')}#{insurance_type}"`. */
  function CompositeKey(fields: map<string, Value>, insuranceType: Value): string {
    PyStr(PyGet(fields, "email", JNull)) + "#" + PyStr(insuranceType)
  }

  function DuplicateMessage(insuranceType: Value): string {
    "We have already received your " + PyStr(insuranceType) +
    " insurance request and it's being processed. An agent will contact you within 24 hours to provide a customized quote."
  }

  /** `insurance_type.capitalize()` followed by the success text; the type is a string once published. */
  function SubmittedMessage(insuranceType: Value): string {
    Text.Capitalize(PyStr(insuranceType)) + " quote request submitted successfully!"
  }

  /** The `message` field of a reply body. */
  function MessageOf(b: SubmitBody): string {
    match b
    case Message(m) => m
    case Duplicate(t) => DuplicateMessage(t)
    case Submitted(_, t, _) => SubmittedMessage(t)
  }

  /**
   * The reply `lambda_handler` gives, as a decision over the table it reads,
   * the request body after `json.loads` (None when it is missing or not JSON),
   * the topic setting, and whether the table lookup or the publish raises.
   */
  function Outcome(items: map<string, Item>, body: Option<Value>, topicArn: Option<string>,
                   lookupFails: bool, publishFails: bool): (r: Reply)
    ensures r.body.Submitted? ==> body.Some? && body.value.JObj? && TypeOf(body.value).JStr?
    // the only other outcome is the generic failure
    ensures r.status in {200, 400, 500}
    ensures r.status == 200 <==> r.body.Submitted? || r.body.Duplicate?
  {
    if body.None? || !body.value.JObj? then Reply(500, Message(INTERNAL_ERROR))
    else
      var insuranceType := TypeOf(body.value);
      if !PyTruthy(insuranceType) then Reply(400, Message(MISSING_TYPE))
      else if topicArn.None? || topicArn.value == "" then Reply(500, Message(NO_TOPIC))
      else if !lookupFails && CompositeKey(body.value.fields, insuranceType) in items then
        Reply(200, Duplicate(insuranceType))
      else match CalculatePremium(insuranceType, DetailsOf(body.value))
        case None => Reply(500, Message(INTERNAL_ERROR))
        case Some(premium) =>
          // the message attribute must be a string: anything else is refused before sending
          if !insuranceType.JStr? || publishFails then Reply(500, Message(INTERNAL_ERROR))
          else Reply(200, Submitted(premium, insuranceType,
                                    PyGet(body.value.fields, "name", JNull)))
  }

  /**
   * The checks, in order: a body that is not an object, then a falsy type
   * (400), then a missing topic (500, before the table is read), then, when the
   * lookup works, an existing key gives the duplicate reply.
   */
  lemma ChecksInOrder(items: map<string, Item>, body: Option<Value>, topicArn: Option<string>,
                      lookupFails: bool, publishFails: bool)
    ensures var r := Outcome(items, body, topicArn, lookupFails, publishFails);
      ((body.None? || !body.value.JObj?) ==> r == Reply(500, Message(INTERNAL_ERROR))) &&
      (body.Some? && body.value.JObj? && !PyTruthy(TypeOf(body.value)) ==>
         r == Reply(400, Message(MISSING_TYPE))) &&
      (body.Some? && body.value.JObj? && PyTruthy(TypeOf(body.value)) &&
       (topicArn.None? || topicArn.value == "") ==>
         r == Reply(500, Message(NO_TOPIC))) &&
      (body.Some? && body.value.JObj? && PyTruthy(TypeOf(body.value)) &&
       topicArn.Some? && topicArn.value != "" && !lookupFails &&
       CompositeKey(body.value.fields, TypeOf(body.value)) in items ==>
         r == Reply(200, Duplicate(TypeOf(body.value))))
  {
  }

  /**
   * A submitted reply carries the request's type and name and the premium the
   * copied rules compute; it happens exactly when every check passes, the rules
   * do not raise, the type is a string and the publish goes through.
   */
  lemma SubmittedIff(items: map<string, Item>, body: Option<Value>, topicArn: Option<string>,
                     lookupFails: bool, publishFails: bool)
    ensures var r := Outcome(items, body, topicArn, lookupFails, publishFails);
      r.body.Submitted? <==>
        body.Some? && body.value.JObj? && TypeOf(body.value).JStr? && TypeOf(body.value).s != "" &&
        topicArn.Some? && topicArn.value != "" &&
        (lookupFails || CompositeKey(body.value.fields, TypeOf(body.value)) !in items) &&
        CalculatePremium(TypeOf(body.value), DetailsOf(body.value)).Some? && !publishFails
    ensures var r := Outcome(items, body, topicArn, lookupFails, publishFails);
      r.body.Submitted? ==>
        r.body.insuranceType == TypeOf(body.value) &&
        r.body.customerName == PyGet(body.value.fields, "name", JNull) &&
        CalculatePremium(TypeOf(body.value), DetailsOf(body.value)) == Some(r.body.premiumAmount)
  {
  }

  /**
   * `lambda_handler`: the table is only read, and the request is published
   * once, exactly when the reply is a submission.
   */
  method Submit(backend: Backend, body: Option<Value>, topicArn: Option<string>,
                lookupFails: bool, publishFails: bool) returns (reply: Reply)
    modifies backend`published
    ensures reply == Outcome(old(backend.items), body, topicArn, lookupFails, publishFails)
    ensures backend.items == old(backend.items)
    ensures reply.body.Submitted? ==>
      backend.published == old(backend.published) + [Publication(body.value, TypeOf(body.value).s)]
    ensures !reply.body.Submitted? ==> backend.published == old(backend.published)
  {
    if body.None? || !body.value.JObj? {
      return Reply(500, Message(INTERNAL_ERROR));
    }
    var fields := body.value.fields;
    var insuranceType := TypeOf(body.value);
    if !PyTruthy(insuranceType) {
      return Reply(400, Message(MISSING_TYPE));
    }
    if topicArn.None? || topicArn.value == "" {
      return Reply(500, Message(NO_TOPIC));
    }
    var key := CompositeKey(fields, insuranceType);
    if !lookupFails && key in backend.items {
      return Reply(200, Duplicate(insuranceType));
    }
    var premium := CalculatePremium(insuranceType, DetailsOf(body.value));
    if premium.None? {
      return Reply(500, Message(INTERNAL_ERROR));
    }
    if !insuranceType.JStr? || publishFails {
      return Reply(500, Message(INTERNAL_ERROR));
    }
    backend.published := backend.published + [Publication(body.value, insuranceType.s)];
    reply := Reply(200, Submitted(premium.value, insuranceType,
                                  PyGet(fields, "name", JNull)));
  }

  /** The composite key puts the email before the type, so two types never share a key for the same email. */
  lemma KeySeparatesTypes(email: string, t1: string, t2: string)
    requires t1 != t2
    ensures CompositeKey(map["email" := JStr(email)], JStr(t1)) !=
            CompositeKey(map["email" := JStr(email)], JStr(t2))
  {
    var k1 := CompositeKey(map["email" := JStr(email)], JStr(t1));
    var k2 := CompositeKey(map["email" := JStr(email)], JStr(t2));
    assert k1[|email| + 1..] == t1;
    assert k2[|email| + 1..] == t2;
  }

  /** A request without an email is keyed under "None", as Python renders the missing value. */
  lemma MissingEmailKey(fields: map<string, Value>, t: string)
    requires "email" !in fields
    ensures CompositeKey(fields, JStr(t)) == "None#" + t
  {
  }
}
