/** The bounded-retry fetch of one language's facts: which attempt's
    answer is kept, how many attempts are made and which errors are
    logged, as functions of the outcomes the facts endpoint gives. */
module Fetch {
  import opened Common

  /** Default number of attempts per language. */
  const DefaultIterations := 5

  /** The outcome of one request to the facts endpoint: a request error
      (network, HTTP status, undecodable body), or the `data` array of
      the response (empty when the field is missing). */
  datatype Attempt = Failed(reason: string) | Answered(batch: seq<Item>)

  /** A batch that means "nothing to offer": empty, or a single null. */
  predicate IsExhausted(batch: seq<Item>)
  {
    batch == [] || batch == [None]
  }

  /** How many times `range(iterations)` runs the loop body. */
  function Budget(iterations: int): nat
  {
    if iterations < 0 then 0 else iterations
  }

  /** The index of the first answered attempt among the first `n`,
      or `n` when all of them failed. */
  function FirstAnswer(outcomes: seq<Attempt>, n: nat): (k: nat)
    requires n <= |outcomes|
    ensures k <= n
    ensures forall j :: 0 <= j < k ==> outcomes[j].Failed?
    ensures k < n ==> outcomes[k].Answered?
  {
    if n == 0 then 0
    else if outcomes[0].Answered? then 0
    else 1 + FirstAnswer(outcomes[1..], n - 1)
  }

  /** The facts `fetch_facts` returns, one attempt at a time: a failure
      uses up one attempt, the first answer ends the loop and is kept
      unless it is exhausted. (The fetch itself is only run with an
      outcome for every attempt; running out of outcomes ends it.) */
  function Fetched(outcomes: seq<Attempt>, iterations: int): seq<Item>
    decreases Budget(iterations)
  {
    if Budget(iterations) == 0 || outcomes == [] then []
    else
      match outcomes[0]
      case Failed(_) => Fetched(outcomes[1..], iterations - 1)
      case Answered(batch) => if IsExhausted(batch) then [] else batch
  }

  /** The number of requests `fetch_facts` makes. */
  function AttemptsMade(outcomes: seq<Attempt>, iterations: int): nat
    decreases Budget(iterations)
  {
    if Budget(iterations) == 0 || outcomes == [] then 0
    else
      match outcomes[0]
      case Failed(_) => 1 + AttemptsMade(outcomes[1..], iterations - 1)
      case Answered(_) => 1
  }

  /** The error recorded for one failed attempt. */
  function FetchErrorText(lang: string, reason: string): string
  {
    "Error fetching ISO code " + lang + ": " + reason
  }

  /** The errors `fetch_facts` appends to the client's log. */
  function FetchLog(lang: string, outcomes: seq<Attempt>, iterations: int): seq<string>
    decreases Budget(iterations)
  {
    if Budget(iterations) == 0 || outcomes == [] then []
    else
      match outcomes[0]
      case Failed(reason) => [FetchErrorText(lang, reason)] + FetchLog(lang, outcomes[1..], iterations - 1)
      case Answered(_) => []
  }

  /** The whole fetch is decided by the first answered attempt `k`: its
      batch is returned unless exhausted (nothing if every attempt
      failed), `k + 1` requests are made (all of them if none was
      answered), and one error is logged per failure before `k`. */
  lemma {:induction false} DecidedByFirstAnswer(lang: string, outcomes: seq<Attempt>, iterations: int)
    requires Budget(iterations) <= |outcomes|
    ensures var n, k := Budget(iterations), FirstAnswer(outcomes, Budget(iterations));
            && Fetched(outcomes, iterations) ==
                 (if k < n && !IsExhausted(outcomes[k].batch) then outcomes[k].batch else [])
            && AttemptsMade(outcomes, iterations) == (if k < n then k + 1 else n)
            && |FetchLog(lang, outcomes, iterations)| == k
            && forall j :: 0 <= j < k ==>
                 FetchLog(lang, outcomes, iterations)[j] == FetchErrorText(lang, outcomes[j].reason)
    decreases Budget(iterations)
  {
    var n := Budget(iterations);
    if n > 0 && outcomes[0].Failed? {
      DecidedByFirstAnswer(lang, outcomes[1..], iterations - 1);
      var k := FirstAnswer(outcomes, n);
      assert k == 1 + FirstAnswer(outcomes[1..], n - 1);
      var log := FetchLog(lang, outcomes, iterations);
      assert log == [FetchErrorText(lang, outcomes[0].reason)] + FetchLog(lang, outcomes[1..], iterations - 1);
      forall j | 0 <= j < k
        ensures log[j] == FetchErrorText(lang, outcomes[j].reason)
      {
        if j > 0 {
          assert outcomes[1..][j - 1] == outcomes[j];
        }
      }
    }
  }

  /** What is fetched is nothing, or exactly one answered batch that
      follows only failures, within the budget; never a concatenation
      of several batches, whatever count was requested. */
  lemma FetchedIsOneBatch(outcomes: seq<Attempt>, iterations: int)
    requires Budget(iterations) <= |outcomes|
    ensures AttemptsMade(outcomes, iterations) <= Budget(iterations)
    ensures var facts := Fetched(outcomes, iterations);
            facts == [] ||
            exists k :: 0 <= k < Budget(iterations) &&
                        (forall j :: 0 <= j < k ==> outcomes[j].Failed?) &&
                        outcomes[k] == Answered(facts) && !IsExhausted(facts)
  {
    DecidedByFirstAnswer("", outcomes, iterations);
    var k := FirstAnswer(outcomes, Budget(iterations));
    if Fetched(outcomes, iterations) != [] {
      assert outcomes[k] == Answered(Fetched(outcomes, iterations));
    }
  }

  /** The attempt loop ends at the first answer: after `k` failures, a
      usable batch is returned as it is, an exhausted one ends the loop
      with nothing; either way `k + 1` requests were made and `k`
      errors were logged. */
  lemma StopsAtFirstAnswer(lang: string, outcomes: seq<Attempt>, iterations: int, k: nat)
    requires Budget(iterations) <= |outcomes|
    requires k < Budget(iterations) && outcomes[k].Answered?
    requires forall j :: 0 <= j < k ==> outcomes[j].Failed?
    ensures Fetched(outcomes, iterations) == if IsExhausted(outcomes[k].batch) then [] else outcomes[k].batch
    ensures AttemptsMade(outcomes, iterations) == k + 1
    ensures |FetchLog(lang, outcomes, iterations)| == k
  {
    DecidedByFirstAnswer(lang, outcomes, iterations);
    assert FirstAnswer(outcomes, Budget(iterations)) == k;
  }

  /** When every attempt fails, nothing is returned, all attempts are
      made and one error per attempt is logged. */
  lemma AllAttemptsFail(lang: string, outcomes: seq<Attempt>, iterations: int)
    requires Budget(iterations) <= |outcomes|
    requires forall j :: 0 <= j < Budget(iterations) ==> outcomes[j].Failed?
    ensures Fetched(outcomes, iterations) == []
    ensures AttemptsMade(outcomes, iterations) == Budget(iterations)
    ensures |FetchLog(lang, outcomes, iterations)| == Budget(iterations)
  {
    DecidedByFirstAnswer(lang, outcomes, iterations);
  }

  /** The retry scenario: two failures, then a batch of facts. */
  lemma RetryThenSucceed(lang: string, e1: string, e2: string, batch: seq<Item>, rest: seq<Attempt>)
    requires !IsExhausted(batch) && |rest| >= 2
    ensures var outcomes := [Failed(e1), Failed(e2), Answered(batch)] + rest;
            Fetched(outcomes, DefaultIterations) == batch &&
            AttemptsMade(outcomes, DefaultIterations) == 3 &&
            FetchLog(lang, outcomes, DefaultIterations) == [FetchErrorText(lang, e1), FetchErrorText(lang, e2)]
  {
    var outcomes := [Failed(e1), Failed(e2), Answered(batch)] + rest;
    DecidedByFirstAnswer(lang, outcomes, DefaultIterations);
    assert FirstAnswer(outcomes, DefaultIterations) == 2;
  }
}
