/**
 * The instant-quote rules (backend/lambda/calculatePremium.py): each insurance
 * type has a base premium and independent surcharges read from the quote's
 * details, and the handler dispatches on the insurance type.
 */
module PremiumRules {
  import opened Wrappers
  import opened Json
  import Text
  import Numbers

  /** Python `int(v)` on a JSON value: integers as they are, strings parsed, booleans 0/1; anything else raises. */
  function PyInt(v: Value): Option<int> {
    match v
    case JNum(n) => Some(n)
    case JStr(s) => Numbers.ParseInt(s)
    case JBool(b) => Some(if b then 1 else 0)
    case _ => None
  }

  /** `details.get(key, '').lower()`; None when the value is not a string and `.lower()` raises. */
  function LowerField(details: map<string, Value>, key: string): Option<string> {
    match PyGet(details, key, JStr(""))
    case JStr(s) => Some(Text.Lower(s))
    case _ => None
  }

  /** `int(details.get(key, default))`; None when `int()` raises. */
  function IntField(details: map<string, Value>, key: string, default: int): Option<int> {
    PyInt(PyGet(details, key, JNum(default)))
  }

  /**
   * `calculate_auto_premium`: 500, plus 100 for an SUV, 75 for a car older
   * than 2020, 150 when the driving history mentions an accident. None when it
   * raises: details not a dict, a non-string text field, a year `int()` rejects.
   */
  function AutoPremium(details: Value): (r: Option<int>)
    ensures r.Some? ==> 500 <= r.value <= 825
  {
    if !details.JObj? then None
    else
      var vehicleType :- LowerField(details.fields, "vehicleType");
      var year :- IntField(details.fields, "year", 2020);
      var history :- LowerField(details.fields, "drivingHistory");
      Some(500 + (if vehicleType == "suv" then 100 else 0)
               + (if year < 2020 then 75 else 0)
               + (if Text.Contains(history, "accident") then 150 else 0))
  }

  /**
   * `calculate_home_premium`: 400, plus 100 above 2000 square feet, 100 for a
   * home built before 2000, 75 without a security system.
   */
  function HomePremium(details: Value): (r: Option<int>)
    ensures r.Some? ==> 400 <= r.value <= 675
  {
    if !details.JObj? then None
    else
      var squareFootage :- IntField(details.fields, "squareFootage", 0);
      var yearBuilt :- IntField(details.fields, "yearBuilt", 2025);
      var security :- LowerField(details.fields, "securitySystem");
      Some(400 + (if squareFootage > 2000 then 100 else 0)
               + (if yearBuilt < 2000 then 100 else 0)
               + (if security == "no" then 75 else 0))
  }

  /**
   * `calculate_life_premium`: 300, plus 100 above age 50, 150 for a smoker,
   * 200 for poor health.
   */
  function LifePremium(details: Value): (r: Option<int>)
    ensures r.Some? ==> 300 <= r.value <= 750
  {
    if !details.JObj? then None
    else
      var age :- IntField(details.fields, "age", 0);
      var smoker :- LowerField(details.fields, "smoker");
      var health :- LowerField(details.fields, "health");
      Some(300 + (if age > 50 then 100 else 0)
               + (if smoker == "yes" then 150 else 0)
               + (if health == "poor" then 200 else 0))
  }

  /** Details that leave every field out incur no surcharge: the defaults sit on the safe side of each boundary. */
  lemma MissingFieldsCostNothing()
    ensures AutoPremium(JObj(map[])) == Some(500)
    ensures HomePremium(JObj(map[])) == Some(400)
    ensures LifePremium(JObj(map[])) == Some(300)
  {
  }

  /** A number the form sent as its decimal text reads back as that number, whatever the default. */
  lemma FormNumber(d: map<string, Value>, key: string, n: int, default: int)
    requires key in d && d[key] == JStr(Numbers.IntToString(n))
    ensures IntField(d, key, default) == Some(n)
  {
    Numbers.ParseIntToString(n);
  }

  /** The form's auto details, all text, as the browser sends them. */
  function AutoForm(vehicleType: string, year: int, history: string): Value {
    JObj(map["vehicleType" := JStr(vehicleType), "year" := JStr(Numbers.IntToString(year)),
             "drivingHistory" := JStr(history)])
  }

  /** On form input each auto surcharge applies on its own condition; the year 2020 itself is not surcharged. */
  lemma AutoSurcharges(vehicleType: string, year: int, history: string)
    ensures AutoPremium(AutoForm(vehicleType, year, history)) ==
            Some(500 + (if Text.Lower(vehicleType) == "suv" then 100 else 0)
                     + (if year <= 2019 then 75 else 0)
                     + (if Text.Contains(Text.Lower(history), "accident") then 150 else 0))
  {
    AutoFormYear(vehicleType, year, history);
    AutoFormText(vehicleType, year, history);
    AutoFromFields(AutoForm(vehicleType, year, history), Text.Lower(vehicleType), year, Text.Lower(history));
  }

  /** The year the form sends as text reads back as the number. */
  lemma AutoFormYear(vehicleType: string, year: int, history: string)
    ensures IntField(AutoForm(vehicleType, year, history).fields, "year", 2020) == Some(year)
  {
    FormNumber(AutoForm(vehicleType, year, history).fields, "year", year, 2020);
  }

  /** The form's auto text fields are read lower-cased. */
  lemma AutoFormText(vehicleType: string, year: int, history: string)
    ensures LowerField(AutoForm(vehicleType, year, history).fields, "vehicleType") == Some(Text.Lower(vehicleType))
    ensures LowerField(AutoForm(vehicleType, year, history).fields, "drivingHistory") == Some(Text.Lower(history))
  {
  }

  /** The auto rule in terms of the three values it reads. */
  lemma AutoFromFields(details: Value, vehicleType: string, year: int, history: string)
    requires details.JObj?
    requires LowerField(details.fields, "vehicleType") == Some(vehicleType)
    requires LowerField(details.fields, "drivingHistory") == Some(history)
    requires IntField(details.fields, "year", 2020) == Some(year)
    ensures AutoPremium(details) ==
            Some(500 + (if vehicleType == "suv" then 100 else 0)
                     + (if year < 2020 then 75 else 0)
                     + (if Text.Contains(history, "accident") then 150 else 0))
  {
  }

  /** The form's home details. */
  function HomeForm(squareFootage: int, yearBuilt: int, security: string): Value {
    JObj(map["squareFootage" := JStr(Numbers.IntToString(squareFootage)),
             "yearBuilt" := JStr(Numbers.IntToString(yearBuilt)), "securitySystem" := JStr(security)])
  }

  /** 2000 square feet and a home built in 2000 are not surcharged; one more foot and one year earlier are. */
  lemma HomeSurcharges(squareFootage: int, yearBuilt: int, security: string)
    ensures HomePremium(HomeForm(squareFootage, yearBuilt, security)) ==
            Some(400 + (if squareFootage >= 2001 then 100 else 0)
                     + (if yearBuilt <= 1999 then 100 else 0)
                     + (if Text.Lower(security) == "no" then 75 else 0))
  {
    HomeFormNumbers(squareFootage, yearBuilt, security);
    HomeFormText(squareFootage, yearBuilt, security);
    HomeFromFields(HomeForm(squareFootage, yearBuilt, security), squareFootage, yearBuilt, Text.Lower(security));
  }

  /** The two numbers the form sends as text read back as numbers. */
  lemma HomeFormNumbers(squareFootage: int, yearBuilt: int, security: string)
    ensures IntField(HomeForm(squareFootage, yearBuilt, security).fields, "squareFootage", 0) == Some(squareFootage)
    ensures IntField(HomeForm(squareFootage, yearBuilt, security).fields, "yearBuilt", 2025) == Some(yearBuilt)
  {
    FormNumber(HomeForm(squareFootage, yearBuilt, security).fields, "squareFootage", squareFootage, 0);
    FormNumber(HomeForm(squareFootage, yearBuilt, security).fields, "yearBuilt", yearBuilt, 2025);
  }

  /** The form's security answer is read lower-cased. */
  lemma HomeFormText(squareFootage: int, yearBuilt: int, security: string)
    ensures LowerField(HomeForm(squareFootage, yearBuilt, security).fields, "securitySystem") == Some(Text.Lower(security))
  {
  }

  /** The home rule in terms of the three values it reads. */
  lemma HomeFromFields(details: Value, squareFootage: int, yearBuilt: int, security: string)
    requires details.JObj?
    requires IntField(details.fields, "squareFootage", 0) == Some(squareFootage)
    requires IntField(details.fields, "yearBuilt", 2025) == Some(yearBuilt)
    requires LowerField(details.fields, "securitySystem") == Some(security)
    ensures HomePremium(details) ==
            Some(400 + (if squareFootage > 2000 then 100 else 0)
                     + (if yearBuilt < 2000 then 100 else 0)
                     + (if security == "no" then 75 else 0))
  {
  }

  /** The form's life details. */
  function LifeForm(age: int, smoker: string, health: string): Value {
    JObj(map["age" := JStr(Numbers.IntToString(age)), "smoker" := JStr(smoker), "health" := JStr(health)])
  }

  /** Age 50 is not surcharged, 51 is. */
  lemma LifeSurcharges(age: int, smoker: string, health: string)
    ensures LifePremium(LifeForm(age, smoker, health)) ==
            Some(300 + (if age >= 51 then 100 else 0)
                     + (if Text.Lower(smoker) == "yes" then 150 else 0)
                     + (if Text.Lower(health) == "poor" then 200 else 0))
  {
    LifeFormAge(age, smoker, health);
    LifeFormText(age, smoker, health);
    LifeFromFields(LifeForm(age, smoker, health), age, Text.Lower(smoker), Text.Lower(health));
  }

  /** The age the form sends as text reads back as the number. */
  lemma LifeFormAge(age: int, smoker: string, health: string)
    ensures IntField(LifeForm(age, smoker, health).fields, "age", 0) == Some(age)
  {
    FormNumber(LifeForm(age, smoker, health).fields, "age", age, 0);
  }

  /** The form's life text fields are read lower-cased. */
  lemma LifeFormText(age: int, smoker: string, health: string)
    ensures LowerField(LifeForm(age, smoker, health).fields, "smoker") == Some(Text.Lower(smoker))
    ensures LowerField(LifeForm(age, smoker, health).fields, "health") == Some(Text.Lower(health))
  {
  }

  /** The life rule in terms of the three values it reads. */
  lemma LifeFromFields(details: Value, age: int, smoker: string, health: string)
    requires details.JObj?
    requires IntField(details.fields, "age", 0) == Some(age)
    requires LowerField(details.fields, "smoker") == Some(smoker)
    requires LowerField(details.fields, "health") == Some(health)
    ensures LifePremium(details) ==
            Some(300 + (if age > 50 then 100 else 0)
                     + (if smoker == "yes" then 150 else 0)
                     + (if health == "poor" then 200 else 0))
  {
  }

  /**
   * A text field whose value is not text makes its rule raise, whatever the
   * other fields hold: `.lower()` exists only on strings.
   */
  lemma NonTextFieldRaises(details: map<string, Value>, v: Value)
    requires !v.JStr?
    ensures AutoPremium(JObj(details["vehicleType" := v])).None?
    ensures AutoPremium(JObj(details["drivingHistory" := v])).None?
    ensures HomePremium(JObj(details["securitySystem" := v])).None?
    ensures LifePremium(JObj(details["smoker" := v])).None?
    ensures LifePremium(JObj(details["health" := v])).None?
  {
  }

  /**
   * A number field whose text `int()` refuses makes its rule raise, whatever
   * the other fields hold; the handler then answers 500.
   */
  lemma UnreadableNumberRaises(details: map<string, Value>, s: string)
    requires Numbers.ParseInt(s).None?
    ensures AutoPremium(JObj(details["year" := JStr(s)])).None?
    ensures HomePremium(JObj(details["squareFootage" := JStr(s)])).None?
    ensures HomePremium(JObj(details["yearBuilt" := JStr(s)])).None?
    ensures LifePremium(JObj(details["age" := JStr(s)])).None?
    ensures Handle(Some(JObj(map["insuranceType" := JStr("auto"), "details" := JObj(details["year" := JStr(s)])]))).status == 500
  {
    assert IntField(details["year" := JStr(s)], "year", 2020).None?;
    assert IntField(details["squareFootage" := JStr(s)], "squareFootage", 0).None?;
    assert IntField(details["yearBuilt" := JStr(s)], "yearBuilt", 2025).None?;
    assert IntField(details["age" := JStr(s)], "age", 0).None?;
  }

  /** The reply body; the `message` text of a quote is `QuoteMessage` of its type and premium. */
  datatype QuoteBody =
    | Quote(insuranceType: string, premiumAmount: int)
    | ErrorBody(error: string)

  datatype Reply = Reply(status: int, body: QuoteBody)

  /** The rule for a known insurance type; None for any other type. */
  function RuleFor(insuranceType: Value, details: Value): Option<Option<int>> {
    if insuranceType == JStr("auto") then Some(AutoPremium(details))
    else if insuranceType == JStr("home") then Some(HomePremium(details))
    else if insuranceType == JStr("life") then Some(LifePremium(details))
    else None
  }

  /** The `message` field of a quote reply. */
  function QuoteMessage(insuranceType: string, premium: int): string {
    "Your estimated " + insuranceType + " insurance premium is $" + Numbers.IntToString(premium)
  }

  /**
   * `lambda_handler` over the parsed body (None when the event has no body or
   * it is not JSON): 200 with the type's premium, 400 for an unknown type, 500
   * when anything raises. The text of a raised exception is not modelled.
   */
  function Handle(body: Option<Value>): (r: Reply)
    ensures r.status in {200, 400, 500}
    ensures r.status == 200 <==> r.body.Quote?
    ensures r.status == 200 ==> r.body.insuranceType in {"auto", "home", "life"}
    ensures body.None? || !body.value.JObj? ==> r.status == 500
  {
    if body.None? || !body.value.JObj? then Reply(500, ErrorBody(""))
    else
      var insuranceType := PyGet(body.value.fields, "insuranceType", JNull);
      var details := PyGet(body.value.fields, "details", JObj(map[]));
      match RuleFor(insuranceType, details)
      case None => Reply(400, ErrorBody("Invalid insurance type"))
      case Some(None) => Reply(500, ErrorBody(""))
      case Some(Some(premium)) =>
        var t := insuranceType.s;
        Reply(200, Quote(t, premium))
  }

  /** A known type is quoted with exactly its rule's premium; when the rule raises, the reply is 500. */
  lemma HandleQuotesTheRule(fields: map<string, Value>, t: string)
    requires t in {"auto", "home", "life"} && PyGet(fields, "insuranceType", JNull) == JStr(t)
    ensures var premium := RuleFor(JStr(t), PyGet(fields, "details", JObj(map[]))).value;
      var r := Handle(Some(JObj(fields)));
      (premium.Some? ==> r.status == 200 && r.body.premiumAmount == premium.value && r.body.insuranceType == t) &&
      (premium.None? ==> r.status == 500)
  {
  }

  /** Any other type, including a missing one, is refused with 400 before a rule runs. */
  lemma HandleRefusesUnknownType(fields: map<string, Value>)
    requires PyGet(fields, "insuranceType", JNull) !in {JStr("auto"), JStr("home"), JStr("life")}
    ensures Handle(Some(JObj(fields))) == Reply(400, ErrorBody("Invalid insurance type"))
  {
  }
}
