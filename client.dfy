/** `MeowFactsClient`: the catalog and error log it keeps, and the three
    steps of a daily update that change them: discovery, the retrying
    fetch and the per-language merge. Network answers and the loaded
    dataset are inputs. */
module MeowFacts {
  import opened Common
  import opened Catalog
  import opened Fetch
  import opened Merge

  /** The dataset file's contents: ISO code to its stored facts. */
  type Dataset = map<string, seq<Item>>

  /** The facts endpoint's answers: for each language, the outcomes
      of its successive attempts. */
  type Network = string -> seq<Attempt>

  /** One line of the console table: language, count before, new facts. */
  datatype ReportRow = ReportRow(lang: string, countBefore: int, newUniqueFacts: int)

  /** The list a language has when the merge reaches it. */
  function Stored(master: Dataset, lang: string): seq<Item>
  {
    if lang in master then master[lang] else []
  }

  /** The errors logged by fetching the languages `langs` in order. */
  function RunLog(langs: seq<string>, network: Network): seq<string>
  {
    if langs == [] then []
    else
      var last := langs[|langs| - 1];
      RunLog(langs[..|langs| - 1], network) + FetchLog(last, network(last), DefaultIterations)
  }

  lemma RunLogSnoc(langs: seq<string>, lang: string, network: Network)
    ensures RunLog(langs + [lang], network) == RunLog(langs, network) + FetchLog(lang, network(lang), DefaultIterations)
  {
    assert (langs + [lang])[..|langs|] == langs;
  }

  /** After the merge, `lang` holds a duplicate-free list of its stored
      facts and its fetched facts. */
  ghost predicate Merged(master: Dataset, network: Network, dataset: Dataset, lang: string)
  {
    lang in dataset &&
    IsUniqueListOf(dataset[lang], Stored(master, lang) + Fetched(network(lang), DefaultIterations))
  }

  /** `row` is the report line for `lang`: its stored count, and the
      merged count minus it. */
  ghost predicate Reported(master: Dataset, dataset: Dataset, lang: string, row: ReportRow)
  {
    lang in dataset &&
    row == ReportRow(lang, |Stored(master, lang)|, |dataset[lang]| - |Stored(master, lang)|)
  }

  /** The state of the merge loop after it has handled `langs`: those
      languages were added and merged, every other stored language is
      untouched, and the report has one line per handled language. */
  ghost predicate Processed(master: Dataset, network: Network, langs: seq<string>,
                            dataset: Dataset, report: seq<ReportRow>)
  {
    && dataset.Keys == master.Keys + Elems(langs)
    && (forall lang :: lang in master && lang !in langs ==> dataset[lang] == master[lang])
    && (forall lang :: lang in langs ==> Merged(master, network, dataset, lang))
    && |report| == |langs|
    && (forall j :: 0 <= j < |langs| ==> Reported(master, dataset, langs[j], report[j]))
  }

  /** Handling one more language, not handled before, keeps `Processed`. */
  lemma {:induction false} ProcessedStep(master: Dataset, network: Network, langs: seq<string>,
                                         dataset: Dataset, report: seq<ReportRow>,
                                         lang: string, updated: seq<Item>, row: ReportRow)
    requires Processed(master, network, langs, dataset, report)
    requires lang !in langs
    requires IsUniqueListOf(updated, Stored(master, lang) + Fetched(network(lang), DefaultIterations))
    requires row == ReportRow(lang, |Stored(master, lang)|, |updated| - |Stored(master, lang)|)
    ensures Processed(master, network, langs + [lang], dataset[lang := updated], report + [row])
  {
    var langs', dataset', report' := langs + [lang], dataset[lang := updated], report + [row];
    assert Elems(langs') == Elems(langs) + {lang};
    forall l | l in langs'
      ensures Merged(master, network, dataset', l)
    {
      if l != lang {
        assert l in langs;
      }
    }
    forall j | 0 <= j < |langs'|
      ensures Reported(master, dataset', langs'[j], report'[j])
    {
      if j < |langs| {
        assert langs'[j] == langs[j] && langs[j] in langs;
        assert Reported(master, dataset, langs[j], report[j]);
      }
    }
  }

  class Client {
    /** `languages_info`: ISO code to the count to request. */
    var languagesInfo: map<string, int>
    /** The iteration order of `languages_info` (insertion order). */
    var languageOrder: seq<string>
    /** `errors`: every error message of the run, in order. */
    var errors: seq<string>

    /** The key order enumerates the catalog's keys, each once. */
    ghost predicate Valid()
      reads this`languageOrder, this`languagesInfo
    {
      Enumerates(languageOrder, languagesInfo)
    }

    constructor ()
      ensures Valid()
      ensures languagesInfo == map[] && languageOrder == [] && errors == []
    {
      languagesInfo := map[];
      languageOrder := [];
      errors := [];
    }

    /** `discover_languages`: on success fold the entries into the
        catalog (summing repeated codes); on a request error log one
        error and replace the catalog by the fallback. */
    method DiscoverLanguages(response: Response)
      requires Valid()
      modifies this`languagesInfo, this`languageOrder, this`errors
      ensures Valid()
      ensures response.RequestFailed? ==>
                && languagesInfo == map[FallbackLanguage := DefaultFactCount]
                && languageOrder == [FallbackLanguage]
                && errors == old(errors) + [DiscoveryErrorText(response.reason)]
      ensures response.Options? ==>
                && languagesInfo == Accumulate(old(languagesInfo), response.lang)
                && languageOrder == ExtendOrder(old(languageOrder), response.lang)
                && errors == old(errors)
    {
      match response
      case RequestFailed(reason) =>
        errors := errors + [DiscoveryErrorText(reason)];
        languagesInfo := map[FallbackLanguage := DefaultFactCount];
        languageOrder := [FallbackLanguage];
      case Options(entries) =>
        AddEntries(entries);
    }

    /** The accumulation loop of `discover_languages`: a known code has
        its count increased, a new code is inserted (and so appended to
        the key order). */
    method AddEntries(entries: seq<Entry>)
      requires Valid()
      modifies this`languagesInfo, this`languageOrder
      ensures Valid()
      ensures languagesInfo == Accumulate(old(languagesInfo), entries)
      ensures languageOrder == ExtendOrder(old(languageOrder), entries)
    {
      ghost var info0, order0 := languagesInfo, languageOrder;
      var i := 0;
      while i < |entries|
        invariant 0 <= i <= |entries|
        invariant languagesInfo == Accumulate(info0, entries[..i])
        invariant languageOrder == ExtendOrder(order0, entries[..i])
        invariant Valid()
      {
        var iso := entries[i].isoCode;
        var count := CountOf(entries[i]);
        AccumulateStep(info0, order0, entries, i);
        if iso in languagesInfo {
          languagesInfo := languagesInfo[iso := languagesInfo[iso] + count];
        } else {
          languagesInfo := languagesInfo[iso := count];
          languageOrder := languageOrder + [iso];
        }
        i := i + 1;
      }
      assert entries[..i] == entries;
    }

    /** `fetch_facts`: up to `iterations` attempts; a failure is logged
        and retried, the first answer ends the loop. Also returns how
        many requests were made. */
    method FetchFacts(lang: string, factCount: int, iterations: int, outcomes: seq<Attempt>)
      returns (facts: seq<Item>, attempts: nat)
      requires Budget(iterations) <= |outcomes|
      modifies this`errors
      ensures facts == Fetched(outcomes, iterations)
      ensures attempts == AttemptsMade(outcomes, iterations)
      ensures errors == old(errors) + FetchLog(lang, outcomes, iterations)
    {
      facts := [];
      ghost var logged: seq<string> := [];
      var i := 0;
      while i < Budget(iterations)
        invariant 0 <= i <= Budget(iterations) && Budget(iterations - i) == Budget(iterations) - i
        invariant Fetched(outcomes, iterations) == Fetched(outcomes[i..], iterations - i)
        invariant AttemptsMade(outcomes, iterations) == i + AttemptsMade(outcomes[i..], iterations - i)
        invariant FetchLog(lang, outcomes, iterations) == logged + FetchLog(lang, outcomes[i..], iterations - i)
        invariant errors == old(errors) + logged
        invariant facts == []
      {
        assert outcomes[i..][1..] == outcomes[i + 1..];
        match outcomes[i]
        case Failed(reason) =>
          errors := errors + [FetchErrorText(lang, reason)];
          logged := logged + [FetchErrorText(lang, reason)];
          i := i + 1;
        case Answered(batch) =>
          attempts := i + 1;
          if IsExhausted(batch) {
            return;
          }
          facts := facts + batch;
          return;
      }
      attempts := i;
    }

    /** One pass of the loop of `run_daily_update` for `lang`, whose
        stored list is `existing`: fetch its facts and compute the
        duplicate-free union. Returns the new list and the report line. */
    method MergeLanguage(lang: string, factCount: int, existing: seq<Item>, outcomes: seq<Attempt>)
      returns (updated: seq<Item>, row: ReportRow)
      requires DefaultIterations <= |outcomes|
      modifies this`errors
      ensures IsUniqueListOf(updated, existing + Fetched(outcomes, DefaultIterations))
      ensures row == ReportRow(lang, |existing|, |updated| - |existing|)
      ensures errors == old(errors) + FetchLog(lang, outcomes, DefaultIterations)
    {
      var countBefore := |existing|;
      var fetched, _ := FetchFacts(lang, factCount, DefaultIterations, outcomes);
      assert IsUniqueListOf(Dedup(existing + fetched), existing + fetched);
      updated :| IsUniqueListOf(updated, existing + fetched);
      var countAfter := |updated|;
      row := ReportRow(lang, countBefore, countAfter - countBefore);
    }

    /** The loop of `run_daily_update`: for each catalog language, in
        catalog order, fetch its facts and store the duplicate-free
        union with what was stored; other languages are kept as they
        were. */
    method UpdateDataset(master: Dataset, network: Network) returns (dataset: Dataset, report: seq<ReportRow>)
      requires Valid()
      requires forall lang :: DefaultIterations <= |network(lang)|
      modifies this`errors
      ensures dataset.Keys == master.Keys + languagesInfo.Keys
      ensures forall lang :: lang in master && lang !in languagesInfo ==> dataset[lang] == master[lang]
      ensures forall lang :: lang in languagesInfo ==> Merged(master, network, dataset, lang)
      ensures |report| == |languageOrder|
      ensures forall i :: 0 <= i < |report| ==> Reported(master, dataset, languageOrder[i], report[i])
      ensures errors == old(errors) + RunLog(languageOrder, network)
    {
      dataset := master;
      report := [];
      var i := 0;
      ghost var log0 := errors;
      while i < |languageOrder|
        invariant 0 <= i <= |languageOrder|
        invariant Valid()
        invariant Processed(master, network, languageOrder[..i], dataset, report)
        invariant errors == log0 + RunLog(languageOrder[..i], network)
      {
        var lang := languageOrder[i];
        assert languageOrder[..i + 1] == languageOrder[..i] + [lang];
        assert lang !in languageOrder[..i];
        // `run_daily_update` inserts an empty list for a new language and
        // reads it back: the list read is the stored one, or empty.
        var existing := Stored(dataset, lang);
        assert existing == Stored(master, lang);
        var updated, row := MergeLanguage(lang, languagesInfo[lang], existing, network(lang));
        RunLogSnoc(languageOrder[..i], lang, network);
        AppendAssoc(log0, RunLog(languageOrder[..i], network), FetchLog(lang, network(lang), DefaultIterations));
        ProcessedStep(master, network, languageOrder[..i], dataset, report, lang, updated, row);
        dataset := dataset[lang := updated];
        report := report + [row];
        i := i + 1;
      }
      assert languageOrder[..i] == languageOrder;
    }

    /** `run_daily_update` without its file and console I/O: discovery,
        then the merge of every discovered language into the loaded
        dataset. */
    method RunDailyUpdate(response: Response, loaded: Dataset, network: Network)
      returns (dataset: Dataset, report: seq<ReportRow>)
      requires Valid()
      requires forall lang :: DefaultIterations <= |network(lang)|
      modifies this`languagesInfo, this`languageOrder, this`errors
      ensures Valid()
      ensures response.RequestFailed? ==> languagesInfo == map[FallbackLanguage := DefaultFactCount]
      ensures response.Options? ==> languagesInfo == Accumulate(old(languagesInfo), response.lang)
      ensures response.RequestFailed? ==> languageOrder == [FallbackLanguage]
      ensures response.Options? ==> languageOrder == ExtendOrder(old(languageOrder), response.lang)
      ensures dataset.Keys == loaded.Keys + languagesInfo.Keys
      ensures forall lang :: lang in loaded && lang !in languagesInfo ==> dataset[lang] == loaded[lang]
      ensures forall lang :: lang in languagesInfo ==> Merged(loaded, network, dataset, lang)
      ensures |report| == |languageOrder|
      ensures forall i :: 0 <= i < |report| ==> Reported(loaded, dataset, languageOrder[i], report[i])
      ensures response.RequestFailed? ==>
                errors == old(errors) + [DiscoveryErrorText(response.reason)] + RunLog(languageOrder, network)
      ensures response.Options? ==> errors == old(errors) + RunLog(languageOrder, network)
    {
      DiscoverLanguages(response);
      dataset, report := UpdateDataset(loaded, network);
    }
  }

  /** The end-to-end example: one language discovered, nothing stored,
      one fact fetched; the dataset holds that fact and the report
      reads `eng | 0 | 1`. */
  method DailyUpdateExample()
  {
    var client := new Client();
    assert ExtendOrder([], [Entry("eng", Some(1000))]) == ["eng"];
    var fact := Some("Cats sleep 70% of their lives.");
    var network: Network := lang => seq(DefaultIterations, _ => Answered([fact]));
    var dataset, report := client.RunDailyUpdate(Options([Entry("eng", Some(1000))]), map[], network);
    assert Entry("eng", Some(1000)) in [Entry("eng", Some(1000))];
    DiscoveredCounts([Entry("eng", Some(1000))]);
    assert client.languagesInfo.Keys == {"eng"};
    StopsAtFirstAnswer("eng", network("eng"), DefaultIterations, 0);
    ElemsAppend<Item>([], [fact]);
    SingleFact(dataset["eng"], fact);
    assert dataset == map["eng" := [fact]];
    assert report == [ReportRow("eng", 0, 1)];
  }
}
