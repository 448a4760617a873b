/** Language discovery: folding the `/options` metadata into the
    catalog that maps an ISO code to the number of facts to request. */
module Catalog {
  import opened Common

  /** Count used for an entry that carries no `fact_count`. */
  const DefaultFactCount := 1000

  /** The one language the catalog falls back to when discovery fails. */
  const FallbackLanguage := "eng"

  const OptionsUrl := "https://meowfacts.herokuapp.com/options"

  /** One element of the `lang` array of the metadata response. */
  datatype Entry = Entry(isoCode: string, factCount: Option<int>)

  /** What the metadata request yields: a request error (network, HTTP
      status, undecodable body), or the `lang` array (empty when the
      field is missing). */
  datatype Response = RequestFailed(reason: string) | Options(lang: seq<Entry>)

  /** The count an entry contributes. */
  function CountOf(e: Entry): int
  {
    match e.factCount
    case Some(c) => c
    case None => DefaultFactCount
  }

  /** A catalog's count for a code, 0 when the code is absent. */
  function Lookup(m: map<string, int>, code: string): int
  {
    if code in m then m[code] else 0
  }

  /** One pass of the accumulation loop: a known code has its count
      increased, a new code is inserted with the entry's count. */
  function AddEntry(m: map<string, int>, e: Entry): map<string, int>
  {
    if e.isoCode in m then m[e.isoCode := m[e.isoCode] + CountOf(e)]
    else m[e.isoCode := CountOf(e)]
  }

  /** The catalog after the loop has run over all of `es`, starting from `m`. */
  function Accumulate(m: map<string, int>, es: seq<Entry>): map<string, int>
    decreases |es|
  {
    if es == [] then m else AddEntry(Accumulate(m, es[..|es| - 1]), es[|es| - 1])
  }

  /** The key order of the Python dict after the same loop: a code is
      appended the first time it is inserted. */
  function ExtendOrder(order: seq<string>, es: seq<Entry>): seq<string>
    decreases |es|
  {
    if es == [] then order
    else
      var o := ExtendOrder(order, es[..|es| - 1]);
      var code := es[|es| - 1].isoCode;
      if code in o then o else o + [code]
  }

  /** `order` lists the keys of `m`, each once: a Python dict's key order. */
  predicate Enumerates(order: seq<string>, m: map<string, int>)
  {
    NoDuplicates(order) && Elems(order) == m.Keys
  }

  /** One pass of the loop updates the counts and the key order together,
      and the order still enumerates the keys. */
  lemma AccumulateStep(m: map<string, int>, order: seq<string>, es: seq<Entry>, i: nat)
    requires i < |es|
    requires Enumerates(ExtendOrder(order, es[..i]), Accumulate(m, es[..i]))
    ensures Accumulate(m, es[..i + 1]) == AddEntry(Accumulate(m, es[..i]), es[i])
    ensures ExtendOrder(order, es[..i + 1]) ==
              if es[i].isoCode in Accumulate(m, es[..i]) then ExtendOrder(order, es[..i])
              else ExtendOrder(order, es[..i]) + [es[i].isoCode]
    ensures Enumerates(ExtendOrder(order, es[..i + 1]), Accumulate(m, es[..i + 1]))
  {
    assert es[..i + 1][..i] == es[..i];
    var o := ExtendOrder(order, es[..i]);
    assert Elems(o + [es[i].isoCode]) == Elems(o) + {es[i].isoCode};
  }

  /** The ISO codes mentioned by a response. */
  function Codes(es: seq<Entry>): set<string>
  {
    set e | e in es :: e.isoCode
  }

  /** Reference definition: the total of the counts of the entries
      that carry `code`, defaults included. */
  function SumFor(code: string, es: seq<Entry>): int
  {
    if es == [] then 0
    else (if es[0].isoCode == code then CountOf(es[0]) else 0) + SumFor(code, es[1..])
  }

  lemma {:induction false} SumForSnoc(code: string, es: seq<Entry>, e: Entry)
    ensures SumFor(code, es + [e]) == SumFor(code, es) + (if e.isoCode == code then CountOf(e) else 0)
  {
    if es == [] {
      assert [e][1..] == [];
    } else {
      assert (es + [e])[1..] == es[1..] + [e];
      SumForSnoc(code, es[1..], e);
    }
  }

  lemma {:induction false} SumForAbsent(code: string, es: seq<Entry>)
    requires code !in Codes(es)
    ensures SumFor(code, es) == 0
  {
    if es != [] {
      assert Codes(es[1..]) <= Codes(es);
      SumForAbsent(code, es[1..]);
    }
  }

  /** Accumulating onto any catalog adds exactly the codes of the
      response, and each count grows by that code's total. */
  lemma {:induction false} AccumulateSums(m: map<string, int>, es: seq<Entry>)
    ensures Accumulate(m, es).Keys == m.Keys + Codes(es)
    ensures forall code :: code in Accumulate(m, es) ==>
              Accumulate(m, es)[code] == Lookup(m, code) + SumFor(code, es)
  {
    if es != [] {
      var init, e := es[..|es| - 1], es[|es| - 1];
      assert es == init + [e];
      AccumulateSums(m, init);
      assert Codes(es) == Codes(init) + {e.isoCode};
      forall code | code in Accumulate(m, es)
        ensures Accumulate(m, es)[code] == Lookup(m, code) + SumFor(code, es)
      {
        SumForSnoc(code, init, e);
        if code !in Accumulate(m, init) {
          SumForAbsent(code, init);
        }
      }
    }
  }

  /** Discovery into the empty catalog of a fresh client: the keys are
      exactly the codes of the response, and a repeated code gets the
      sum of its counts rather than the last one. */
  lemma DiscoveredCounts(es: seq<Entry>)
    ensures Accumulate(map[], es).Keys == Codes(es)
    ensures forall code :: code in Codes(es) ==> Accumulate(map[], es)[code] == SumFor(code, es)
  {
    AccumulateSums(map[], es);
  }

  /** The dict's key order lists every key once, keeps the old keys in
      front and adds the new codes behind them. */
  lemma {:induction false} ExtendOrderEnumerates(order: seq<string>, es: seq<Entry>)
    requires NoDuplicates(order)
    ensures NoDuplicates(ExtendOrder(order, es))
    ensures Elems(ExtendOrder(order, es)) == Elems(order) + Codes(es)
    ensures |order| <= |ExtendOrder(order, es)| && ExtendOrder(order, es)[..|order|] == order
  {
    if es != [] {
      var init, e := es[..|es| - 1], es[|es| - 1];
      assert es == init + [e];
      ExtendOrderEnumerates(order, init);
      assert Codes(es) == Codes(init) + {e.isoCode};
      var o := ExtendOrder(order, init);
      if e.isoCode !in o {
        assert Elems(o + [e.isoCode]) == Elems(o) + {e.isoCode};
        assert (o + [e.isoCode])[..|order|] == o[..|order|];
      }
    }
  }

  /** The error recorded when discovery fails. */
  function DiscoveryErrorText(reason: string): string
  {
    "Critical Error: Could not discover languages via " + OptionsUrl + ": " + reason
  }
}
