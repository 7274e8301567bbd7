/**
 * The quote form's browser logic (script.js): the instant-quote button checks
 * the form, lists what is missing in a fixed order, and sends a payload with
 * the type's five details; the submit handler gathers the same details
 * without checking them. The page's input elements are a map from element id
 * to current value; an id that is not in the map has no element on the page.
 */
module QuoteForm {
  import opened Wrappers
  import opened Json
  import Text
  import opened Browser

  /** A required detail: its element id, which is also its key in `details`, and the caption shown when it is missing. */
  datatype Field = Field(id: string, caption: string)

  /** The five details each type requires, in the order the form reports them; none for any other type. */
  function FieldsFor(insuranceType: string): seq<Field> {
    if insuranceType == "auto" then
      [Field("vehicleType", "Vehicle Type"), Field("make", "Make"), Field("model", "Model"),
       Field("year", "Year"), Field("drivingHistory", "Driving History")]
    else if insuranceType == "life" then
      [Field("age", "Age"), Field("gender", "Gender"), Field("smoker", "Smoker Status"),
       Field("health", "Health Status"), Field("coverage", "Coverage Amount")]
    else if insuranceType == "home" then
      [Field("homeType", "Home Type"), Field("yearBuilt", "Year Built"),
       Field("constructionType", "Construction Type"), Field("squareFootage", "Square Footage"),
       Field("securitySystem", "Security System")]
    else []
  }

  /** No two fields share an element id. */
  predicate DistinctIds(fields: seq<Field>) {
    forall i, j :: 0 <= i < j < |fields| ==> fields[i].id != fields[j].id
  }

  /** The three types each require five details with distinct ids; any other type requires none. */
  lemma FieldsPerType(insuranceType: string)
    ensures insuranceType in {"auto", "home", "life"} ==>
              |FieldsFor(insuranceType)| == 5 && DistinctIds(FieldsFor(insuranceType))
    ensures insuranceType !in {"auto", "home", "life"} ==> FieldsFor(insuranceType) == []
  {
    var fields := FieldsFor(insuranceType);
    if insuranceType in {"auto", "home", "life"} {
      assert |fields| == 5;
      forall i, j | 0 <= i < j < 5
        ensures fields[i].id != fields[j].id
      {
      }
    }
  }

  /** `!element?.value`: the element is absent or its value is empty. Values are not trimmed. */
  predicate Blank(elements: map<string, string>, id: string) {
    id !in elements || elements[id] == ""
  }

  /** The labels of the blank fields, in the fields' order. */
  function Missing(elements: map<string, string>, fields: seq<Field>): (labels: seq<string>)
    ensures |labels| <= |fields|
    decreases |fields|
  {
    if fields == [] then []
    else
      var rest := Missing(elements, fields[..|fields| - 1]);
      var last := fields[|fields| - 1];
      if Blank(elements, last.id) then rest + [last.caption] else rest
  }

  /** A caption is reported exactly when some field carrying it is blank. */
  lemma {:induction false} MissingIff(elements: map<string, string>, fields: seq<Field>, caption: string)
    ensures caption in Missing(elements, fields) <==>
            exists i :: 0 <= i < |fields| && fields[i].caption == caption && Blank(elements, fields[i].id)
    decreases |fields|
  {
    if fields != [] {
      var init := fields[..|fields| - 1];
      MissingIff(elements, init, caption);
      if caption in Missing(elements, init) {
        var i :| 0 <= i < |init| && init[i].caption == caption && Blank(elements, init[i].id);
        assert fields[i] == init[i];
      }
      if exists i :: 0 <= i < |fields| && fields[i].caption == caption && Blank(elements, fields[i].id) {
        var i :| 0 <= i < |fields| && fields[i].caption == caption && Blank(elements, fields[i].id);
        if i < |fields| - 1 {
          assert init[i] == fields[i];
        }
      }
    }
  }

  /** Nothing is reported exactly when every field has a non-empty value. */
  lemma {:induction false} NothingMissing(elements: map<string, string>, fields: seq<Field>)
    ensures Missing(elements, fields) == [] <==> forall i :: 0 <= i < |fields| ==> !Blank(elements, fields[i].id)
    decreases |fields|
  {
    if fields != [] {
      var init := fields[..|fields| - 1];
      NothingMissing(elements, init);
      assert forall i :: 0 <= i < |init| ==> init[i] == fields[i];
    }
  }

  function Captions(fields: seq<Field>): (r: seq<string>)
    ensures |r| == |fields| && forall i :: 0 <= i < |fields| ==> r[i] == fields[i].caption
  {
    seq(|fields|, i requires 0 <= i < |fields| => fields[i].caption)
  }

  /** On an empty form every caption is reported, in the fields' order. */
  lemma {:induction false} EmptyFormMissesAll(fields: seq<Field>)
    ensures Missing(map[], fields) == Captions(fields)
    decreases |fields|
  {
    if fields != [] {
      var init := fields[..|fields| - 1];
      EmptyFormMissesAll(init);
      assert Captions(fields) == Captions(init) + [fields[|fields| - 1].caption];
    }
  }

  function Ids(fields: seq<Field>): set<string> {
    set i | 0 <= i < |fields| :: fields[i].id
  }

  predicate AllPresent(elements: map<string, string>, fields: seq<Field>) {
    forall i :: 0 <= i < |fields| ==> fields[i].id in elements
  }

  /** The `details` object built from the fields' elements: one text value per field id. */
  function Details(elements: map<string, string>, fields: seq<Field>): (r: map<string, Value>)
    ensures AllPresent(elements, fields) ==> r.Keys == Ids(fields)
    ensures forall k | k in r :: k in elements && r[k] == JStr(elements[k])
  {
    map id | id in Ids(fields) && id in elements :: JStr(elements[id])
  }

  /** `{ ...baseData, details }`. */
  function Payload(name: string, email: string, insuranceType: string, details: map<string, Value>): Value {
    JObj(map["name" := JStr(name), "email" := JStr(email), "insuranceType" := JStr(insuranceType),
             "details" := JObj(details)])
  }

  /** The name and email check: either element absent, either trimmed value empty, or both trimmed values. */
  datatype Contact = Unreadable | Incomplete | Named(name: string, email: string)

  /** Reading and trimming the name and email inputs; a missing element makes `.value` throw. */
  function ContactOf(elements: map<string, string>): (r: Contact)
    ensures r.Unreadable? <==> "name" !in elements || "email" !in elements
  {
    if "name" !in elements || "email" !in elements then Unreadable
    else
      var name := Text.Strip(elements["name"]);
      var email := Text.Strip(elements["email"]);
      if name == "" || email == "" then Incomplete else Named(name, email)
  }

  /**
   * The check passes exactly when both trimmed values are non-empty, and then
   * the trimmed values are what is sent; the values are trimmed with no other
   * change.
   */
  lemma ContactIsTrimmed(elements: map<string, string>)
    requires "name" in elements && "email" in elements
    ensures var c := ContactOf(elements);
      c.Named? <==> Text.Strip(elements["name"]) != "" && Text.Strip(elements["email"]) != ""
    ensures var c := ContactOf(elements);
      c.Named? ==> c.name == Text.Strip(elements["name"]) && c.email == Text.Strip(elements["email"]) &&
                   Text.Trimmed(c.name) && Text.Trimmed(c.email)
  {
    Text.StripIsTrimmedInfix(elements["name"]);
    Text.StripIsTrimmedInfix(elements["email"]);
  }

  /** What the response box shows. */
  datatype Display =
    | Nothing
    | ChooseType
    | NeedNameAndEmail
    | MissingFields(labels: seq<string>)
    | Estimate(premiumAmount: Value)
    | Unable
    | QuoteError

  const BUTTON_IDLE := "Get Instant Quote"
  const BUTTON_BUSY := "Calculating..."

  class Form {
    /** The insurance type select's value at the click. */
    const insuranceType: string
    /** Every input element on the page, by id, with its value at the click. */
    const elements: map<string, string>
    var buttonDisabled: bool
    var buttonText: string
    var display: Display
    /** The payloads POSTed to the instant-quote endpoint, oldest first. */
    var sent: seq<Value>

    constructor (insuranceType: string, elements: map<string, string>)
      ensures this.insuranceType == insuranceType && this.elements == elements
      ensures !buttonDisabled && buttonText == BUTTON_IDLE && display == Nothing && sent == []
    {
      this.insuranceType := insuranceType;
      this.elements := elements;
      buttonDisabled := false;
      buttonText := BUTTON_IDLE;
      display := Nothing;
      sent := [];
    }

    /** The checks pushing one caption per blank field onto `missingFields`. */
    method CollectMissing(fields: seq<Field>) returns (missing: seq<string>)
      ensures missing == Missing(elements, fields)
    {
      missing := [];
      for i := 0 to |fields|
        invariant missing == Missing(elements, fields[..i])
      {
        assert fields[..i + 1][..i] == fields[..i];
        if Blank(elements, fields[i].id) {
          missing := missing + [fields[i].caption];
        }
      }
      assert fields[..|fields|] == fields;
    }

    /**
     * The instant-quote click up to the request: the type check, the name and
     * email check, the missing-field check, then the button is disabled and
     * the payload sent. None when the request is not sent; a page without a
     * name or email element makes the handler throw before anything changes.
     */
    method RequestQuote() returns (payload: Option<Value>)
      modifies this`buttonDisabled, this`buttonText, this`display, this`sent
      ensures payload.Some? <==>
        insuranceType != "" && ContactOf(elements).Named? && Missing(elements, FieldsFor(insuranceType)) == []
      ensures payload.Some? ==>
        payload.value == Payload(ContactOf(elements).name, ContactOf(elements).email, insuranceType,
                                 Details(elements, FieldsFor(insuranceType))) &&
        sent == old(sent) + [payload.value] &&
        buttonDisabled && buttonText == BUTTON_BUSY && display == old(display)
      ensures payload.None? ==>
        sent == old(sent) && buttonDisabled == old(buttonDisabled) && buttonText == old(buttonText)
      ensures insuranceType == "" ==> display == ChooseType
      ensures insuranceType != "" && ContactOf(elements).Unreadable? ==> display == old(display)
      ensures insuranceType != "" && ContactOf(elements).Incomplete? ==> display == NeedNameAndEmail
      ensures insuranceType != "" && ContactOf(elements).Named? && payload.None? ==>
        display == MissingFields(Missing(elements, FieldsFor(insuranceType)))
    {
      if insuranceType == "" {
        display := ChooseType;
        return None;
      }
      var contact := ContactOf(elements);
      if contact.Unreadable? {
        return None;
      }
      if contact.Incomplete? {
        display := NeedNameAndEmail;
        return None;
      }
      var fields := FieldsFor(insuranceType);
      var missing := CollectMissing(fields);
      if |missing| > 0 {
        display := MissingFields(missing);
        return None;
      }
      buttonDisabled := true;
      buttonText := BUTTON_BUSY;
      payload := Some(Payload(contact.name, contact.email, insuranceType, Details(elements, fields)));
      sent := sent + [payload.value];
    }

    /**
     * The rest of the click once the request settles: an estimate when the
     * reply carries a truthy `premiumAmount` (whatever the status), a refusal
     * otherwise, an error when the request or its JSON fails; the button is
     * enabled again on every path.
     */
    method ShowQuote(reply: FetchReply)
      modifies this`buttonDisabled, this`buttonText, this`display
      ensures !buttonDisabled && buttonText == BUTTON_IDLE
      ensures reply.NetworkFailure? || reply.body.None? || reply.body == Some(JNull) ==> display == QuoteError
      ensures reply.Reply? && reply.body.Some? && reply.body.value != JNull ==>
        if JsTruthy(Prop(reply.body.value, "premiumAmount"))
        then display == Estimate(reply.body.value.fields["premiumAmount"])
        else display == Unable
    {
      if reply.NetworkFailure? || reply.body.None? || reply.body.value == JNull {
        // fetch rejects, json() rejects, or reading a property of null throws
        display := QuoteError;
      } else {
        var premium := Prop(reply.body.value, "premiumAmount");
        if JsTruthy(premium) {
          display := Estimate(premium.value);
        } else {
          display := Unable;
        }
      }
      buttonDisabled := false;
      buttonText := BUTTON_IDLE;
    }
  }

  /** A form that passes the checks for a known type sends exactly that type's field ids as detail keys. */
  lemma {:induction false} SentDetailsHaveTypeKeys(elements: map<string, string>, insuranceType: string)
    requires Missing(elements, FieldsFor(insuranceType)) == []
    ensures Details(elements, FieldsFor(insuranceType)).Keys == Ids(FieldsFor(insuranceType))
  {
    NothingMissing(elements, FieldsFor(insuranceType));
  }

  /** Any other non-empty type passes every check and is sent with empty details. */
  lemma UnknownTypeSendsNoDetails(elements: map<string, string>, insuranceType: string)
    requires insuranceType !in {"auto", "home", "life"}
    ensures Missing(elements, FieldsFor(insuranceType)) == []
    ensures Details(elements, FieldsFor(insuranceType)) == map[]
  {
  }

  /**
   * The submit handler's `details`: the type's five values, empty or not, when
   * all five elements exist; `{}` otherwise and for any other type.
   */
  function SubmitDetails(elements: map<string, string>, insuranceType: string): (r: map<string, Value>)
    ensures AllPresent(elements, FieldsFor(insuranceType)) ==> r.Keys == Ids(FieldsFor(insuranceType))
    ensures !AllPresent(elements, FieldsFor(insuranceType)) ==> r == map[]
    ensures forall k | k in r :: k in elements && r[k] == JStr(elements[k])
  {
    var fields := FieldsFor(insuranceType);
    if AllPresent(elements, fields) then Details(elements, fields) else map[]
  }

  /**
   * The submit handler's payload, `{ ...baseData, details }`: the name and
   * email as typed, not trimmed, the selected type and `SubmitDetails`. None
   * when the name or email element is absent, since `.value` then throws.
   */
  function SubmitPayload(elements: map<string, string>, insuranceType: string): (r: Option<Value>)
    ensures r.Some? <==> "name" in elements && "email" in elements
    ensures r.Some? ==> r.value.JObj? && r.value.fields.Keys == {"name", "email", "insuranceType", "details"}
    ensures r.Some? ==> r.value.fields["name"] == JStr(elements["name"]) &&
                        r.value.fields["email"] == JStr(elements["email"]) &&
                        r.value.fields["insuranceType"] == JStr(insuranceType) &&
                        r.value.fields["details"] == JObj(SubmitDetails(elements, insuranceType))
  {
    if "name" !in elements || "email" !in elements then None
    else Some(Payload(elements["name"], elements["email"], insuranceType, SubmitDetails(elements, insuranceType)))
  }

  /** A form that passes the instant-quote checks submits the same details it was quoted on. */
  lemma {:induction false} SubmitMatchesQuote(elements: map<string, string>, insuranceType: string)
    requires Missing(elements, FieldsFor(insuranceType)) == []
    ensures SubmitDetails(elements, insuranceType) == Details(elements, FieldsFor(insuranceType))
  {
    NothingMissing(elements, FieldsFor(insuranceType));
  }
}
