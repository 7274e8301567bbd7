/**
 * The path a quote request takes across the system: the form's payload is
 * priced by the instant-quote endpoint, priced again by the submit endpoint,
 * published as JSON text inside an SNS envelope, and priced a third time and
 * stored by the worker for its type. The rules are copied into each of those
 * files; these lemmas show the copies give the customer one price.
 */
module QuotePipeline {
  import opened Wrappers
  import opened Json
  import PremiumRules
  import SubmitQuote
  import QuoteWorkers
  import QuoteForm
  import Text
  import opened QuoteStore

  /** The SNS notification the queue delivers: the published text under "Message". */
  function Envelope(message: string): Value {
    JObj(map["Message" := JStr(message)])
  }

  /** The queue record carrying a published request. */
  function Delivered(codec: Codec, request: Value): string {
    codec.stringify(Envelope(codec.stringify(request)))
  }

  /**
   * For a request whose details are all text, as the form sends them: the
   * worker stores an item exactly when the instant-quote endpoint quotes, and
   * then the stored premium, the instant premium and the submit endpoint's
   * premium are one and the same; the item is stored under the key the submit
   * endpoint checks for duplicates.
   */
  lemma InstantQuoteIsStoredQuote(codec: Codec, kind: QuoteWorkers.Kind, name: string, email: string,
                                  details: map<string, Value>)
    requires Lawful(codec) && QuoteWorkers.AllStrings(details)
    ensures var t := QuoteWorkers.KindName(kind);
      var request := QuoteForm.Payload(name, email, t, details);
      var instant := PremiumRules.Handle(Some(request));
      var stored := QuoteWorkers.ItemFor(kind, Some(Delivered(codec, request)), codec.parse);
      (stored.Some? <==> instant.status == 200) &&
      (stored.Some? ==>
         stored.value.premiumAmount == instant.body.premiumAmount &&
         SubmitQuote.CalculatePremium(JStr(t), JObj(details)) == Some(stored.value.premiumAmount) &&
         stored.value.insuranceType == t && stored.value.details == details &&
         stored.value.compositeKey == SubmitQuote.CompositeKey(request.fields, JStr(t)) &&
         stored.value.compositeKey == email + "#" + t)
  {
    var t := QuoteWorkers.KindName(kind);
    var request := QuoteForm.Payload(name, email, t, details);
    StoredItem(codec, kind, name, email, details);
    QuoteWorkers.WorkerRulesAgree(kind, details);
    PremiumRules.HandleQuotesTheRule(request.fields, t);
    SubmitQuote.SubmitQuotesLikeCalculator(t, JObj(details));
    assert SubmitQuote.CompositeKey(request.fields, JStr(t)) == email + "#" + t;
  }

  /** The item the worker stores for a delivered form request, when its rule prices the details. */
  lemma StoredItem(codec: Codec, kind: QuoteWorkers.Kind, name: string, email: string, details: map<string, Value>)
    requires Lawful(codec) && QuoteWorkers.AllStrings(details)
    ensures var t := QuoteWorkers.KindName(kind);
      var request := QuoteForm.Payload(name, email, t, details);
      var premium := QuoteWorkers.WorkerPremium(kind, details);
      QuoteWorkers.ItemFor(kind, Some(Delivered(codec, request)), codec.parse) ==
        if premium.None? then None
        else Some(Item(email + "#" + t, t, JStr(name), JStr(email), details, premium.value))
  {
    var t := QuoteWorkers.KindName(kind);
    var request := QuoteForm.Payload(name, email, t, details);
    DeliveredRequest(codec, request);
    assert QuoteWorkers.RawDetails(request.fields, codec.parse) == Some(JObj(details));
    assert QuoteWorkers.WorkerKey(kind, request.fields) == email + "#" + t;
  }

  /** The worker reads back, from the queue record, the request the submit lambda published. */
  lemma DeliveredRequest(codec: Codec, request: Value)
    requires Lawful(codec) && request.JObj?
    ensures QuoteWorkers.RequestOf(Some(Delivered(codec, request)), codec.parse) == Some(request.fields)
  {
    var envelope := Envelope(codec.stringify(request));
    assert codec.parse(codec.stringify(envelope)) == Some(envelope);
    assert codec.parse(codec.stringify(request)) == Some(request);
  }

  /**
   * The submit endpoint keys a request by the email as it was typed: the
   * submit payload does not trim it, unlike the instant-quote payload. So an
   * email typed with surrounding spaces is keyed apart from its trimmed form.
   */
  lemma SubmitKeyUsesTypedEmail(elements: map<string, string>, t: string)
    requires "name" in elements && "email" in elements
    ensures var payload := QuoteForm.SubmitPayload(elements, t).value;
      SubmitQuote.CompositeKey(payload.fields, JStr(t)) == elements["email"] + "#" + t
    ensures var payload := QuoteForm.SubmitPayload(elements, t).value;
      Text.Strip(elements["email"]) != elements["email"] ==>
        SubmitQuote.CompositeKey(payload.fields, JStr(t)) != Text.Strip(elements["email"]) + "#" + t
  {
    var typed := elements["email"];
    var trimmed := Text.Strip(typed);
    if trimmed != typed {
      SameSuffixDiffers(typed, trimmed, "#" + t);
      assert typed + "#" + t == typed + ("#" + t);
      assert trimmed + "#" + t == trimmed + ("#" + t);
    }
  }

  /** Two different texts stay different when the same suffix is appended. */
  lemma SameSuffixDiffers(a: string, b: string, suffix: string)
    requires a != b
    ensures a + suffix != b + suffix
  {
    if |a| == |b| {
      var i :| 0 <= i < |a| && a[i] != b[i];
      assert (a + suffix)[i] != (b + suffix)[i];
    }
  }

  /** Everything the form puts in `details` is text, so the lemma above covers every request the form sends. */
  lemma FormDetailsAreText(elements: map<string, string>, insuranceType: string)
    ensures QuoteWorkers.AllStrings(QuoteForm.Details(elements, QuoteForm.FieldsFor(insuranceType)))
    ensures QuoteWorkers.AllStrings(QuoteForm.SubmitDetails(elements, insuranceType))
  {
  }
}
