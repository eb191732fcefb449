/**
 * The availability list of `MainView`: what the response loop of `loadData`
 * appends, and the first-match join `getAvailibility` performs. The XML step
 * (`DOMParser.parseFromString` followed by `querySelector("INSTOCKVALUE")`)
 * is the parameter `extract`, giving the element's text or `None` when the
 * element is absent.
 */
module AvailabilityIndex {
  import opened Wrappers
  import opened Text
  import opened Catalog

  /** The stock text stored for one payload: the element's text, or "" without the element. */
  function StockText(extract: string -> Option<string>, payload: string): string {
    match extract(payload)
    case Some(text) => text
    case None => ""
  }

  /** The entry pushed for one response record. */
  function EntryOf(extract: string -> Option<string>, rec: Availibility): (e: Availibility)
    ensures e.id == rec.id
    ensures extract(rec.payload).None? ==> e.payload == ""
    ensures extract(rec.payload).Some? ==> e.payload == extract(rec.payload).value
  {
    Availibility(rec.id, StockText(extract, rec.payload))
  }

  /** The entries the inner loop pushes for the records of one response: one per record, in order. */
  function RecordEntries(extract: string -> Option<string>, recs: seq<Availibility>): seq<Availibility> {
    seq(|recs|, j requires 0 <= j < |recs| => EntryOf(extract, recs[j]))
  }

  /** The number of records in a list of responses. */
  function RecordCount(responses: seq<HasResponse>): nat
    decreases |responses|
  {
    if responses == [] then 0
    else RecordCount(responses[..|responses| - 1]) + |responses[|responses| - 1].response|
  }

  /** The entries both loops push: response by response, record by record. */
  function Entries(extract: string -> Option<string>, responses: seq<HasResponse>): (r: seq<Availibility>)
    ensures |r| == RecordCount(responses)
    decreases |responses|
  {
    if responses == [] then []
    else Entries(extract, responses[..|responses| - 1])
           + RecordEntries(extract, responses[|responses| - 1].response)
  }

  /** One more record adds its entry at the end. */
  lemma RecordEntriesStep(extract: string -> Option<string>, recs: seq<Availibility>, j: nat)
    requires j < |recs|
    ensures RecordEntries(extract, recs[..j + 1]) == RecordEntries(extract, recs[..j]) + [EntryOf(extract, recs[j])]
  {
  }

  /** One more response adds its records' entries at the end. */
  lemma EntriesStep(extract: string -> Option<string>, responses: seq<HasResponse>, i: nat)
    requires i < |responses|
    ensures Entries(extract, responses[..i + 1])
            == Entries(extract, responses[..i]) + RecordEntries(extract, responses[i].response)
  {
    assert responses[..i + 1][..i] == responses[..i];
  }

  /** The entries of two batches of responses are those of the first followed by those of the second. */
  lemma {:induction false} EntriesAppend(extract: string -> Option<string>, a: seq<HasResponse>, b: seq<HasResponse>)
    ensures Entries(extract, a + b) == Entries(extract, a) + Entries(extract, b)
    decreases |b|
  {
    if b == [] {
      assert a + b == a;
    } else {
      var init, last := b[..|b| - 1], b[|b| - 1];
      var ab := a + b;
      assert ab[..|ab| - 1] == a + init && ab[|ab| - 1] == last;
      var tail := RecordEntries(extract, last.response);
      assert Entries(extract, ab) == Entries(extract, a + init) + tail;
      EntriesAppend(extract, a, init);
      assert Entries(extract, b) == Entries(extract, init) + tail;
    }
  }

  /**
   * Record j of response i yields the entry at position
   * RecordCount(responses[..i]) + j: one entry per record, in response-then-record
   * order, with the record's id and its stock text.
   */
  lemma {:induction false} EntriesAt(extract: string -> Option<string>, responses: seq<HasResponse>, i: nat, j: nat)
    requires i < |responses| && j < |responses[i].response|
    ensures RecordCount(responses[..i]) + j < |Entries(extract, responses)|
    ensures Entries(extract, responses)[RecordCount(responses[..i]) + j]
            == EntryOf(extract, responses[i].response[j])
    decreases |responses|
  {
    var init := responses[..|responses| - 1];
    var last := RecordEntries(extract, responses[|responses| - 1].response);
    var prior := Entries(extract, init);
    assert Entries(extract, responses) == prior + last;
    if i == |responses| - 1 {
      assert responses[..i] == init;
      assert |prior| == RecordCount(init);
      assert (prior + last)[|prior| + j] == last[j];
    } else {
      EntriesAt(extract, init, i, j);
      assert init[..i] == responses[..i];
      assert init[i] == responses[i];
    }
  }

  /** The position of the first entry whose id equals `key`. */
  function FirstMatch(av: seq<Availibility>, key: string): (r: Option<nat>)
    ensures r.Some? ==> r.value < |av| && av[r.value].id == key
    ensures r.Some? ==> forall k :: 0 <= k < r.value ==> av[k].id != key
    ensures r.None? ==> forall k :: 0 <= k < |av| ==> av[k].id != key
    decreases |av|
  {
    if av == [] then None
    else if av[0].id == key then Some(0)
    else match FirstMatch(av[1..], key)
      case None => None
      case Some(i) => Some(i + 1)
  }

  /**
   * `getAvailibility`: the payload of the first entry whose id equals the
   * upper-cased product id, or "" when there is none.
   */
  function Join(av: seq<Availibility>, productId: string): (s: string)
    ensures (forall k :: 0 <= k < |av| ==> av[k].id != ToUpperCase(productId)) ==> s == ""
    ensures s == "" || exists k :: 0 <= k < |av| && av[k].id == ToUpperCase(productId) && av[k].payload == s
    ensures (exists k :: 0 <= k < |av| && av[k].id == ToUpperCase(productId)) ==>
              exists k :: 0 <= k < |av| && av[k].id == ToUpperCase(productId) && av[k].payload == s &&
                (forall m :: 0 <= m < k ==> av[m].id != ToUpperCase(productId))
  {
    match FirstMatch(av, ToUpperCase(productId))
    case Some(i) => av[i].payload
    case None => ""
  }

  /** The first entry with the upper-cased id wins, whatever follows it. */
  lemma JoinFindsFirstMatch(av: seq<Availibility>, productId: string, k: nat)
    requires k < |av| && av[k].id == ToUpperCase(productId)
    requires forall m :: 0 <= m < k ==> av[m].id != ToUpperCase(productId)
    ensures Join(av, productId) == av[k].payload
  {
  }

  /** Without an entry for the upper-cased id the join yields "" rather than failing. */
  lemma JoinMissIsEmpty(av: seq<Availibility>, productId: string)
    requires forall k :: 0 <= k < |av| ==> av[k].id != ToUpperCase(productId)
    ensures Join(av, productId) == ""
  {
  }

  /** Entries appended later never shadow an earlier entry with the same id. */
  lemma {:induction false} JoinAfterAppend(a: seq<Availibility>, b: seq<Availibility>, productId: string)
    ensures (exists k :: 0 <= k < |a| && a[k].id == ToUpperCase(productId)) ==>
              Join(a + b, productId) == Join(a, productId)
    ensures (forall k :: 0 <= k < |a| ==> a[k].id != ToUpperCase(productId)) ==>
              Join(a + b, productId) == Join(b, productId)
  {
    var key := ToUpperCase(productId);
    match FirstMatch(a, key)
    case Some(k) =>
      JoinFindsFirstMatch(a + b, productId, k);
    case None =>
      match FirstMatch(b, key)
      case Some(k) =>
        JoinFindsFirstMatch(a + b, productId, |a| + k);
      case None =>
        JoinMissIsEmpty(a + b, productId);
  }

  /**
   * Only the product side is upper-cased: an entry whose id holds a lower-case
   * letter is never the entry a product joins with.
   */
  lemma LowerCaseIdNeverJoins(av: seq<Availibility>, productId: string, k: nat)
    requires k < |av| && !IsUpper(av[k].id)
    ensures FirstMatch(av, ToUpperCase(productId)) != Some(k)
  {
    ToUpperCaseNormalizes(productId);
  }

  /** Product ids that differ only in letter case join with the same entry. */
  lemma JoinIgnoresProductCase(av: seq<Availibility>, productId: string)
    ensures Join(av, ToUpperCase(productId)) == Join(av, productId)
  {
    ToUpperCaseNormalizes(productId);
  }
}
