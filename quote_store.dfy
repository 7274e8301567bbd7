/**
 * The AWS side the quote lambdas share: the `InsuranceQuoteRequestsV2` table,
 * keyed by `compositeKey`, and the SNS topic the submit lambda publishes to.
 */
module QuoteStore {
  import opened Wrappers
  import opened Json

  /**
   * A stored quote. The random `quoteId` and the `createdAt` clock reading the
   * workers add are not part of this model.
   */
  datatype Item = Item(
    compositeKey: string,
    insuranceType: string,
    name: Value,
    email: Value,
    details: map<string, Value>,
    premiumAmount: int)

  /** One SNS message: the request body (sent as its JSON text) and its `insuranceType` attribute. */
  datatype Publication = Publication(message: Value, insuranceType: string)

  class Backend {
    /** The table: `put_item` replaces whatever is stored under the same key. */
    var items: map<string, Item>
    /** Every message published to the topic, oldest first. */
    var published: seq<Publication>

    constructor (items: map<string, Item>)
      ensures this.items == items && published == []
    {
      this.items := items;
      published := [];
    }
  }

  /** The table after a run of puts, oldest first; None stands for a record that put nothing. */
  function PutAll(items: map<string, Item>, puts: seq<Option<Item>>): map<string, Item>
    decreases |puts|
  {
    if puts == [] then items
    else
      var table := PutAll(items, puts[..|puts| - 1]);
      match puts[|puts| - 1]
      case None => table
      case Some(item) => table[item.compositeKey := item]
  }

  /** A run that puts nothing at some place ends as if that place were absent. */
  lemma {:induction false} NothingPutIsSkipped(items: map<string, Item>, before: seq<Option<Item>>,
                                               after: seq<Option<Item>>)
    ensures PutAll(items, before + [None] + after) == PutAll(items, before + after)
    decreases |after|
  {
    var whole := before + [None] + after;
    if after == [] {
      assert whole[..|whole| - 1] == before;
      assert before + after == before;
    } else {
      var init := after[..|after| - 1];
      assert whole[..|whole| - 1] == before + [None] + init;
      assert (before + after)[..|before + after| - 1] == before + init;
      assert whole[|whole| - 1] == (before + after)[|before + after| - 1];
      NothingPutIsSkipped(items, before, init);
    }
  }

  /** No key is ever lost, and a key no put writes keeps its old item. */
  lemma {:induction false} UnwrittenKeyKept(items: map<string, Item>, puts: seq<Option<Item>>, key: string)
    requires key in items
    requires forall i :: 0 <= i < |puts| && puts[i].Some? ==> puts[i].value.compositeKey != key
    ensures key in PutAll(items, puts) && PutAll(items, puts)[key] == items[key]
    decreases |puts|
  {
    if puts != [] {
      var init := puts[..|puts| - 1];
      forall i | 0 <= i < |init| && init[i].Some?
        ensures init[i].value.compositeKey != key
      {
        assert init[i] == puts[i];
      }
      UnwrittenKeyKept(items, init, key);
    }
  }

  /** A key holds the item of the last put under it. */
  lemma {:induction false} LastPutWins(items: map<string, Item>, puts: seq<Option<Item>>, j: nat)
    requires j < |puts| && puts[j].Some?
    requires forall i :: j < i < |puts| && puts[i].Some? ==>
               puts[i].value.compositeKey != puts[j].value.compositeKey
    ensures puts[j].value.compositeKey in PutAll(items, puts)
    ensures PutAll(items, puts)[puts[j].value.compositeKey] == puts[j].value
    decreases |puts|
  {
    var init := puts[..|puts| - 1];
    if j < |puts| - 1 {
      assert init[j] == puts[j];
      forall i | j < i < |init| && init[i].Some?
        ensures init[i].value.compositeKey != init[j].value.compositeKey
      {
        assert init[i] == puts[i];
      }
      LastPutWins(items, init, j);
    }
  }
}
