/**
 * The three queue workers (backend/lambda/autoQuoteLambda.py,
 * homeQuoteLambda.py and LifeQuoteLambda.py). Each takes the requests the
 * submit lambda published, normalises the details, prices them with its own
 * copy of its type's rule and puts one item per request into the shared table.
 * The three files differ only in the type they handle, so one model
 * parameterised by that type covers them.
 */
module QuoteWorkers {
  import opened Wrappers
  import opened Json
  import Text
  import PremiumRules
  import opened QuoteStore
  import opened Sequences

  datatype Kind = Auto | Home | Life

  /** The type each worker writes into its items and uses as the key's default. */
  function KindName(kind: Kind): (r: string)
    ensures r in {"auto", "home", "life"}
  {
    match kind
    case Auto => "auto"
    case Home => "home"
    case Life => "life"
  }

  /** `calculate_auto_premium` of autoQuoteLambda.py, over the flattened details; None when it raises. */
  function AutoWorkerPremium(details: map<string, Value>): (r: Option<int>)
    ensures r.Some? ==> 500 <= r.value <= 825
  {
    var vehicleType :- PremiumRules.LowerField(details, "vehicleType");
    var year :- PremiumRules.IntField(details, "year", 2020);
    var history :- PremiumRules.LowerField(details, "drivingHistory");
    Some(500 + (if vehicleType == "suv" then 100 else 0)
             + (if year < 2020 then 75 else 0)
             + (if Text.Contains(history, "accident") then 150 else 0))
  }

  /** `calculate_home_premium` of homeQuoteLambda.py. */
  function HomeWorkerPremium(details: map<string, Value>): (r: Option<int>)
    ensures r.Some? ==> 400 <= r.value <= 675
  {
    var squareFootage :- PremiumRules.IntField(details, "squareFootage", 0);
    var yearBuilt :- PremiumRules.IntField(details, "yearBuilt", 2025);
    var security :- PremiumRules.LowerField(details, "securitySystem");
    Some(400 + (if squareFootage > 2000 then 100 else 0)
             + (if yearBuilt < 2000 then 100 else 0)
             + (if security == "no" then 75 else 0))
  }

  /** `calculate_life_premium` of LifeQuoteLambda.py. */
  function LifeWorkerPremium(details: map<string, Value>): (r: Option<int>)
    ensures r.Some? ==> 300 <= r.value <= 750
  {
    var age :- PremiumRules.IntField(details, "age", 0);
    var smoker :- PremiumRules.LowerField(details, "smoker");
    var health :- PremiumRules.LowerField(details, "health");
    Some(300 + (if age > 50 then 100 else 0)
             + (if smoker == "yes" then 150 else 0)
             + (if health == "poor" then 200 else 0))
  }

  function WorkerPremium(kind: Kind, details: map<string, Value>): Option<int> {
    match kind
    case Auto => AutoWorkerPremium(details)
    case Home => HomeWorkerPremium(details)
    case Life => LifeWorkerPremium(details)
  }

  /** Each worker's copy prices details exactly as the instant-quote endpoint does for its type. */
  lemma WorkerRulesAgree(kind: Kind, details: map<string, Value>)
    ensures WorkerPremium(kind, details) == PremiumRules.RuleFor(JStr(KindName(kind)), JObj(details)).value
  {
  }

  predicate AllStrings(details: map<string, Value>) {
    forall k | k in details :: details[k].JStr?
  }

  predicate AllObjects(details: map<string, Value>) {
    forall k | k in details :: details[k].JObj?
  }

  /**
   * `flatten_details`: a flat dict of strings is kept as it is; otherwise every
   * value must be a DynamoDB attribute map and is replaced by its "S" member,
   * '' when it has none. None when it raises: the details are not a dict, or
   * some value is neither.
   */
  function FlattenDetails(details: Value): (r: Option<map<string, Value>>)
    ensures r.Some? ==> details.JObj? && r.value.Keys == details.fields.Keys
    ensures details.JObj? && AllStrings(details.fields) ==> r == Some(details.fields)
    ensures r.None? <==> !details.JObj? || (!AllStrings(details.fields) && !AllObjects(details.fields))
    ensures r.Some? && !AllStrings(details.fields) ==>
              forall k | k in r.value :: r.value[k] == PyGet(details.fields[k].fields, "S", JStr(""))
  {
    if !details.JObj? then None
    else if AllStrings(details.fields) then Some(details.fields)
    else if AllObjects(details.fields) then
      Some(map k | k in details.fields :: PyGet(details.fields[k].fields, "S", JStr("")))
    else None
  }

  /** DynamoDB's string attribute encoding of a flat dict. */
  function AttributeMap(plain: map<string, string>): map<string, Value> {
    map k | k in plain :: JObj(map["S" := JStr(plain[k])])
  }

  function Plain(plain: map<string, string>): map<string, Value> {
    map k | k in plain :: JStr(plain[k])
  }

  /** Flattening undoes DynamoDB's encoding: both spellings of the same details price alike. */
  lemma FlattenDecodesAttributes(plain: map<string, string>)
    ensures FlattenDetails(JObj(AttributeMap(plain))) == Some(Plain(plain))
    ensures FlattenDetails(JObj(Plain(plain))) == Some(Plain(plain))
  {
    assert AllStrings(Plain(plain));
    if plain == map[] {
      assert AttributeMap(plain) == map[];
      assert Plain(plain) == map[];
    } else {
      AttributesDecode(plain);
    }
  }

  /** A non-empty attribute map is not flat, is all attribute maps, and reads back to the plain strings. */
  lemma AttributesDecode(plain: map<string, string>)
    requires plain != map[]
    ensures FlattenDetails(JObj(AttributeMap(plain))) == Some(Plain(plain))
  {
    var enc := AttributeMap(plain);
    var k :| k in plain;
    assert enc[k] == JObj(map["S" := JStr(plain[k])]);
    assert !AllStrings(enc);
    forall j | j in enc
      ensures enc[j].JObj?
    {
      assert enc[j] == JObj(map["S" := JStr(plain[j])]);
    }
    assert AllObjects(enc);
    var flat := map j | j in enc :: PyGet(enc[j].fields, "S", JStr(""));
    forall j | j in flat
      ensures flat[j] == Plain(plain)[j]
    {
      assert enc[j].fields == map["S" := JStr(plain[j])];
    }
    assert flat.Keys == Plain(plain).Keys;
    assert flat == Plain(plain);
  }

  /** A dict mixing a plain string with any other value makes flattening raise. */
  lemma MixedDetailsRaise(details: map<string, Value>, s: string, t: string)
    requires s in details && details[s].JStr?
    requires t in details && !details[t].JStr?
    ensures FlattenDetails(JObj(details)).None?
  {
  }

  /** One queue record: its body text (None when it has no body) and whether the table accepts the put. */
  datatype Delivery = Delivery(body: Option<string>, putSucceeds: bool)

  /**
   * The request inside a record: the record body is the SNS envelope, whose
   * "Message" holds the request's JSON text. None when any step raises.
   */
  function RequestOf(body: Option<string>, parse: string -> Option<Value>): Option<map<string, Value>> {
    var text :- body;
    var envelope :- parse(text);
    if !envelope.JObj? || "Message" !in envelope.fields || !envelope.fields["Message"].JStr? then None
    else
      var request :- parse(envelope.fields["Message"].s);
      if request.JObj? then Some(request.fields) else None
  }

  /** `body.get('details', {})`, parsed first when it arrives as JSON text. */
  function RawDetails(request: map<string, Value>, parse: string -> Option<Value>): Option<Value> {
    var raw := PyGet(request, "details", JObj(map[]));
    if raw.JStr? then parse(raw.s) else Some(raw)
  }

  /** The worker's composite key: email (default 'unknown'), '#', type (default the worker's own). */
  function WorkerKey(kind: Kind, request: map<string, Value>): string {
    PyStr(PyGet(request, "email", JStr("unknown"))) + "#" +
    PyStr(PyGet(request, "insuranceType", JStr(KindName(kind))))
  }

  /** The item a worker builds for one record; None when the record makes it raise before the put. */
  function ItemFor(kind: Kind, body: Option<string>, parse: string -> Option<Value>): (r: Option<Item>)
    ensures r.Some? ==> r.value.insuranceType == KindName(kind)
    ensures r.Some? ==> WorkerPremium(kind, r.value.details) == Some(r.value.premiumAmount)
    ensures r.Some? ==>
              var request := RequestOf(body, parse);
              request.Some? && RawDetails(request.value, parse).Some? &&
              FlattenDetails(RawDetails(request.value, parse).value) == Some(r.value.details) &&
              r.value.compositeKey == WorkerKey(kind, request.value)
  {
    var request :- RequestOf(body, parse);
    var raw :- RawDetails(request, parse);
    var details :- FlattenDetails(raw);
    var premium :- WorkerPremium(kind, details);
    Some(Item(WorkerKey(kind, request), KindName(kind), PyGet(request, "name", JNull),
              PyGet(request, "email", JNull), details, premium))
  }

  /** Whatever the worker, a stored premium lies within its type's range. */
  lemma StoredPremiumInRange(kind: Kind, body: Option<string>, parse: string -> Option<Value>)
    requires ItemFor(kind, body, parse).Some?
    ensures var p := ItemFor(kind, body, parse).value.premiumAmount;
      match kind
      case Auto => 500 <= p <= 825
      case Home => 400 <= p <= 675
      case Life => 300 <= p <= 750
  {
  }

  /** A request with neither email nor type is keyed under the worker's defaults. */
  lemma DefaultKey(kind: Kind, request: map<string, Value>)
    requires "email" !in request && "insuranceType" !in request
    ensures WorkerKey(kind, request) == "unknown#" + KindName(kind)
  {
  }

  /** Whether a record ends with its item in the table. */
  predicate Stores(kind: Kind, parse: string -> Option<Value>, d: Delivery) {
    d.putSucceeds && ItemFor(kind, d.body, parse).Some?
  }

  /** What one record puts into the table: its item, or nothing when it fails. */
  function Put(kind: Kind, parse: string -> Option<Value>, d: Delivery): (r: Option<Item>)
    ensures r.Some? <==> Stores(kind, parse, d)
    ensures r.Some? ==> r == ItemFor(kind, d.body, parse)
  {
    if Stores(kind, parse, d) then ItemFor(kind, d.body, parse) else None
  }

  /** The puts of a run of records, in order. */
  function Puts(kind: Kind, parse: string -> Option<Value>, ds: seq<Delivery>): (r: seq<Option<Item>>)
    ensures |r| == |ds|
    ensures forall i :: 0 <= i < |ds| ==> r[i] == Put(kind, parse, ds[i])
  {
    MapSeq(d => Put(kind, parse, d), ds)
  }

  /** The table after the records, in order: each record's item replaces any item under the same key. */
  function Processed(kind: Kind, parse: string -> Option<Value>, items: map<string, Item>, ds: seq<Delivery>): map<string, Item>
  {
    PutAll(items, Puts(kind, parse, ds))
  }

  lemma PutsAppend(kind: Kind, parse: string -> Option<Value>, a: seq<Delivery>, b: seq<Delivery>)
    ensures Puts(kind, parse, a + b) == Puts(kind, parse, a) + Puts(kind, parse, b)
  {
    MapSeqAppend(d => Put(kind, parse, d), a, b);
  }

  /** One more record: what it puts, if anything, goes over the table of the records before it. */
  lemma ProcessedStep(kind: Kind, parse: string -> Option<Value>, items: map<string, Item>,
                      records: seq<Delivery>, i: nat)
    requires i < |records|
    ensures var table := Processed(kind, parse, items, records[..i]);
      var put := Put(kind, parse, records[i]);
      Processed(kind, parse, items, records[..i + 1]) ==
        if put.Some? then table[put.value.compositeKey := put.value] else table
  {
    assert records[..i + 1] == records[..i] + [records[i]];
    PutsAppend(kind, parse, records[..i], [records[i]]);
    var puts := Puts(kind, parse, records[..i + 1]);
    assert puts[..|puts| - 1] == Puts(kind, parse, records[..i]);
  }

  /**
   * The body of the handler's loop for one record: build the item and put it,
   * the table keyed by its composite key; a record that raises, or whose put
   * fails, changes nothing.
   */
  method ProcessRecord(backend: Backend, kind: Kind, parse: string -> Option<Value>, d: Delivery)
    modifies backend`items
    ensures var put := Put(kind, parse, d);
      backend.items == if put.Some? then old(backend.items)[put.value.compositeKey := put.value] else old(backend.items)
  {
    var item := ItemFor(kind, d.body, parse);
    if item.Some? && d.putSucceeds {
      backend.items := backend.items[item.value.compositeKey := item.value];
    }
  }

  /**
   * `lambda_handler`: every record in turn, a failing one skipped; the reply is
   * always 200.
   */
  method HandleRecords(backend: Backend, kind: Kind, parse: string -> Option<Value>, records: seq<Delivery>)
    returns (status: int)
    modifies backend`items
    ensures status == 200
    ensures backend.items == Processed(kind, parse, old(backend.items), records)
  {
    for i := 0 to |records|
      invariant backend.items == Processed(kind, parse, old(backend.items), records[..i])
    {
      ProcessedStep(kind, parse, old(backend.items), records, i);
      ProcessRecord(backend, kind, parse, records[i]);
    }
    assert records[..|records|] == records;
    return 200;
  }

  /** A record that fails, wherever it stands, leaves the outcome of all the others as if it were absent. */
  lemma FailedRecordIsSkipped(kind: Kind, parse: string -> Option<Value>, items: map<string, Item>,
                              before: seq<Delivery>, d: Delivery, after: seq<Delivery>)
    requires !Stores(kind, parse, d)
    ensures Processed(kind, parse, items, before + [d] + after) == Processed(kind, parse, items, before + after)
  {
    PutsAppend(kind, parse, before, [d]);
    PutsAppend(kind, parse, before + [d], after);
    PutsAppend(kind, parse, before, after);
    assert Puts(kind, parse, [d]) == [None];
    NothingPutIsSkipped(items, Puts(kind, parse, before), Puts(kind, parse, after));
  }

  /** The table never loses a key, and a key no record stores keeps its old item. */
  lemma UntouchedKeysKept(kind: Kind, parse: string -> Option<Value>, items: map<string, Item>,
                          ds: seq<Delivery>, key: string)
    requires key in items
    requires forall i :: 0 <= i < |ds| && Stores(kind, parse, ds[i]) ==>
               ItemFor(kind, ds[i].body, parse).value.compositeKey != key
    ensures key in Processed(kind, parse, items, ds)
    ensures Processed(kind, parse, items, ds)[key] == items[key]
  {
    var puts := Puts(kind, parse, ds);
    forall i | 0 <= i < |puts| && puts[i].Some?
      ensures puts[i].value.compositeKey != key
    {
      assert puts[i] == Put(kind, parse, ds[i]);
    }
    UnwrittenKeyKept(items, puts, key);
  }

  /** Last write wins: the table holds the item of the last record that stored under a key. */
  lemma LastWriteWins(kind: Kind, parse: string -> Option<Value>, items: map<string, Item>,
                      ds: seq<Delivery>, j: nat)
    requires j < |ds| && Stores(kind, parse, ds[j])
    requires forall i :: j < i < |ds| && Stores(kind, parse, ds[i]) ==>
               ItemFor(kind, ds[i].body, parse).value.compositeKey !=
               ItemFor(kind, ds[j].body, parse).value.compositeKey
    ensures var item := ItemFor(kind, ds[j].body, parse).value;
      item.compositeKey in Processed(kind, parse, items, ds) &&
      Processed(kind, parse, items, ds)[item.compositeKey] == item
  {
    var puts := Puts(kind, parse, ds);
    assert puts[j] == ItemFor(kind, ds[j].body, parse);
    forall i | j < i < |puts| && puts[i].Some?
      ensures puts[i].value.compositeKey != puts[j].value.compositeKey
    {
      assert puts[i] == Put(kind, parse, ds[i]);
    }
    LastPutWins(items, puts, j);
  }
}
