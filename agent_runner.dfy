/**
  `AgentRunner`: running the five analysis passes over the agent payloads
  and merging what they return into one report per pass.

  The model behind a pass's `analyze_batch` is given as a `Backend`: a
  function of the pass name, the batch and the attempt number that says what
  that attempt gives, a decoded JSON value or an exception with its message.
  The passes run one after the other here. In the program a semaphore
  shared by all payloads limits how many run at once, and it can also fail
  (see `SafeRun`); `gather` returns their results in the order they were
  started, which is the order modelled.
*/
module AgentRunner {
  import opened Seqs
  import opened PyText
  import opened Payloads

  /** A JSON value as the passes return it after `json.loads`. */
  datatype Json =
    | JNull
    | JBool(b: bool)
    | JNum(n: int)
    | JStr(s: string)
    | JList(items: seq<Json>)
    | JObject(fields: seq<(string, Json)>)

  /** Python truthiness of a decoded value: `None`, `False`, `0` and empty
      strings, lists and dicts are false. */
  predicate Truthy(v: Json)
  {
    match v
    case JNull => false
    case JBool(b) => b
    case JNum(n) => n != 0
    case JStr(s) => s != []
    case JList(items) => items != []
    case JObject(fields) => fields != []
  }

  /** What one call of `analyze_batch` gives. */
  datatype Attempt = Returned(value: Json) | Raised(message: string)

  type Backend = (string, seq<Record>, nat) -> Attempt

  /** `"rate limit" in str(e).lower()`. */
  predicate IsRateLimit(message: string)
  {
    Contains(Lower(message), "rate limit")
  }

  predicate RateLimited(a: Attempt)
  {
    a.Raised? && IsRateLimit(a.message)
  }

  /** The default of `retries`. */
  const DefaultRetries: nat := 5

  /** `2 ** i`: the whole seconds of the wait after rate-limited attempt `i`. */
  function Pow2(i: nat): (p: nat)
    ensures p >= 1
  {
    if i == 0 then 1 else 2 * Pow2(i - 1)
  }

  /** `[]`, what a pass that gives up is recorded as. */
  const NoFindings: Json := JList([])

  /** A dict's items, in insertion order (its keys are distinct). */
  type Items = seq<(string, Json)>

  // ---------------------------------------------------------------------
  // safe_run

  /** A run of `safe_run`: the value stored under the pass name, how many
      calls of `analyze_batch` were made and the waits slept between them. */
  datatype Run = Run(value: Json, attempts: nat, waits: seq<nat>)

  /** `safe_run` from attempt `i` on: a value ends the run, a rate-limit
      error waits and tries again, any other error gives up, and so does
      running out of attempts. */
  function RunFrom(backend: Backend, name: string, batch: seq<Record>, retries: nat, i: nat): (r: Run)
    decreases retries - i
  {
    if retries <= i then Run(NoFindings, 0, [])
    else
      match backend(name, batch, i)
      case Returned(v) => Run(v, 1, [])
      case Raised(m) =>
        if IsRateLimit(m) then
          var rest := RunFrom(backend, name, batch, retries, i + 1);
          Run(rest.value, 1 + rest.attempts, [Pow2(i)] + rest.waits)
        else Run(NoFindings, 1, [])
  }

  /** `safe_run(agent, payloads, name, retries)`: returns `{name: value}`;
      every exception of a call is caught. Acquiring the module-level
      semaphore, which lies outside the `try`, is not modelled: the
      program can raise `RuntimeError` there. */
  method SafeRun(backend: Backend, batch: seq<Record>, name: string, retries: nat)
    returns (result: Items, attempts: nat, waits: seq<nat>)
    ensures var run := RunFrom(backend, name, batch, retries, 0);
      result == [(name, run.value)] && attempts == run.attempts && waits == run.waits
  {
    ghost var run := RunFrom(backend, name, batch, retries, 0);
    attempts, waits := 0, [];
    var i: nat := 0;
    assert [] + run.waits == run.waits;
    while i < retries
      invariant i <= retries && attempts == i
      invariant Resumes(run, RunFrom(backend, name, batch, retries, i), i, waits)
      decreases retries - i
    {
      var outcome := backend(name, batch, i);
      attempts := attempts + 1;
      match outcome {
        case Returned(v) =>
          SettledStep(backend, name, batch, retries, i, run, waits);
          return [(name, v)], attempts, waits;
        case Raised(m) =>
          if IsRateLimit(m) {
            RetryStep(backend, name, batch, retries, i, run, waits);
            waits := waits + [Pow2(i)];
          } else {
            SettledStep(backend, name, batch, retries, i, run, waits);
            return [(name, NoFindings)], attempts, waits;
          }
      }
      i := i + 1;
    }
    assert waits + [] == waits;
    result := [(name, NoFindings)];
  }

  /** The whole run is what has happened before attempt `i` (`i` attempts,
      the waits so far) followed by the run from attempt `i`. */
  predicate Resumes(run: Run, rest: Run, i: nat, waits: seq<nat>)
  {
    run == Run(rest.value, i + rest.attempts, waits + rest.waits)
  }

  lemma RetryStep(backend: Backend, name: string, batch: seq<Record>, retries: nat, i: nat,
                  run: Run, waits: seq<nat>)
    requires i < retries && RateLimited(backend(name, batch, i))
    requires Resumes(run, RunFrom(backend, name, batch, retries, i), i, waits)
    ensures Resumes(run, RunFrom(backend, name, batch, retries, i + 1), i + 1, waits + [Pow2(i)])
  {
    var rest := RunFrom(backend, name, batch, retries, i + 1);
    assert waits + ([Pow2(i)] + rest.waits) == (waits + [Pow2(i)]) + rest.waits;
  }

  lemma SettledStep(backend: Backend, name: string, batch: seq<Record>, retries: nat, i: nat,
                    run: Run, waits: seq<nat>)
    requires i < retries && !RateLimited(backend(name, batch, i))
    requires Resumes(run, RunFrom(backend, name, batch, retries, i), i, waits)
    ensures run.attempts == i + 1 && run.waits == waits
    ensures run.value == (if backend(name, batch, i).Returned? then backend(name, batch, i).value else NoFindings)
  {
    assert waits + [] == waits;
  }

  /** The waits after rate-limited attempts `i` up to `k - 1`. */
  function Backoff(i: nat, k: nat): (r: seq<nat>)
    decreases k - i
  {
    if k <= i then [] else [Pow2(i)] + Backoff(i + 1, k)
  }

  /** The waits double: the one after attempt `i + j` is `2 ** (i + j)`. */
  lemma {:induction false} BackoffDoubles(i: nat, k: nat)
    requires i <= k
    ensures |Backoff(i, k)| == k - i
    ensures forall j | 0 <= j < k - i :: Backoff(i, k)[j] == Pow2(i + j)
    decreases k - i
  {
    if i < k {
      BackoffDoubles(i + 1, k);
    }
  }

  /** When attempts `i` to `k - 1` are all rate-limited and attempt `k` is
      not (or there is none), the run makes exactly those attempts plus the
      one at `k`, waits `2 ** j` after each rate-limited attempt `j`, and
      keeps the value of attempt `k` if it returned one, `[]` otherwise. */
  lemma {:induction false} RunStopsAtFirstSettled(backend: Backend, name: string, batch: seq<Record>,
                                                  retries: nat, i: nat, k: nat)
    requires i <= k <= retries
    requires forall j | i <= j < k :: RateLimited(backend(name, batch, j))
    requires k == retries || !RateLimited(backend(name, batch, k))
    ensures var run := RunFrom(backend, name, batch, retries, i);
      && run.waits == Backoff(i, k)
      && run.attempts == (if k == retries then k - i else k - i + 1)
      && run.value == (if k < retries && backend(name, batch, k).Returned? then backend(name, batch, k).value
                       else NoFindings)
    decreases k - i
  {
    if i < k {
      assert RateLimited(backend(name, batch, i));
      RunStopsAtFirstSettled(backend, name, batch, retries, i + 1, k);
    }
  }

  /** Whatever the backend does, a run makes at most `retries` attempts,
      sleeps `2 ** j` after attempt `j` and fewer times than it calls, unless
      every attempt was rate-limited, and then it records `[]`. */
  lemma {:induction false} RunBounds(backend: Backend, name: string, batch: seq<Record>, retries: nat, i: nat)
    requires i <= retries
    ensures var run := RunFrom(backend, name, batch, retries, i);
      && run.attempts <= retries - i
      && |run.waits| <= run.attempts
      && (forall j | 0 <= j < |run.waits| :: run.waits[j] == Pow2(i + j))
      && (|run.waits| == run.attempts ==> run.attempts == retries - i && run.value == NoFindings)
    decreases retries - i
  {
    if i < retries && RateLimited(backend(name, batch, i)) {
      RunBounds(backend, name, batch, retries, i + 1);
    }
  }

  // ---------------------------------------------------------------------
  // run_all_agents and the dispatch loop

  /** The five passes, in the order their tasks are created. */
  const AgentNames: seq<string> := ["Performance", "Duplication", "Complexity", "Reliability", "Security"]

  /** The value a pass records for a batch with the default retries. */
  function Outcome(backend: Backend, name: string, batch: seq<Record>): (r: Json)
  {
    RunFrom(backend, name, batch, DefaultRetries, 0).value
  }

  /** The results of the passes `names` on one batch, in the order given. */
  function PassResults(backend: Backend, batch: seq<Record>, names: seq<string>): (r: seq<Items>)
    ensures |r| == |names|
    ensures forall j | 0 <= j < |names| :: r[j] == [(names[j], Outcome(backend, names[j], batch))]
  {
    if names == [] then []
    else
      var last := names[|names| - 1];
      PassResults(backend, batch, names[..|names| - 1]) + [[(last, Outcome(backend, last, batch))]]
  }

  /** `run_all_agents(payloads)`: one single-key dict per pass, in the fixed
      pass order. */
  method RunAllAgents(backend: Backend, batch: seq<Record>) returns (results: seq<Items>)
    ensures results == PassResults(backend, batch, AgentNames)
  {
    var names := AgentNames;
    results := [];
    var j := 0;
    while j < |names|
      invariant 0 <= j <= |names|
      invariant results == PassResults(backend, batch, names[..j])
    {
      var r, attempts, waits := SafeRun(backend, batch, names[j], DefaultRetries);
      assert names[..j + 1][..j] == names[..j];
      results := results + [r];
      j := j + 1;
    }
    assert names[..j] == names;
  }

  /** The results of the dispatch loop: every payload is sent on its own, as
      a one-element batch, to all the passes, in payload order. */
  function Dispatched(backend: Backend, payloads: seq<Record>): (r: seq<seq<Items>>)
    ensures |r| == |payloads|
    ensures forall k | 0 <= k < |payloads| :: r[k] == PassResults(backend, [payloads[k]], AgentNames)
  {
    if payloads == [] then []
    else Dispatched(backend, payloads[..|payloads| - 1]) + [PassResults(backend, [payloads[|payloads| - 1]], AgentNames)]
  }

  /** The loop that fills `all_results_list`. */
  method DispatchAll(backend: Backend, payloads: seq<Record>) returns (allResults: seq<seq<Items>>)
    ensures allResults == Dispatched(backend, payloads)
  {
    allResults := [];
    var i := 0;
    while i < |payloads|
      invariant 0 <= i <= |payloads|
      invariant allResults == Dispatched(backend, payloads[..i])
    {
      var resultsForOnePayload := RunAllAgents(backend, [payloads[i]]);
      assert payloads[..i + 1][..i] == payloads[..i];
      allResults := allResults + [resultsForOnePayload];
      i := i + 1;
    }
    assert payloads[..i] == payloads;
  }

  // ---------------------------------------------------------------------
  // The merge loop

  /** The merged report: findings per pass. */
  type Report = map<string, seq<Json>>

  /** `merged_report` before the loop: the five passes, with no findings. */
  const EmptyReport: Report := map n | n in AgentNames :: []

  /** The findings one value adds: a list's elements, a truthy non-list
      value itself, nothing for a falsy value. */
  function Findings(v: Json): (r: seq<Json>)
  {
    if v.JList? then v.items else if Truthy(v) then [v] else []
  }

  /** One item of a pass result: a name the report does not have is ignored. */
  function MergeItem(report: Report, item: (string, Json)): (r: Report)
  {
    if item.0 in report then report[item.0 := report[item.0] + Findings(item.1)] else report
  }

  function MergeItems(report: Report, items: Items): (r: Report)
  {
    if items == [] then report else MergeItem(MergeItems(report, items[..|items| - 1]), items[|items| - 1])
  }

  /** The items of a payload's pass results, in order. */
  function FlattenDicts(dicts: seq<Items>): (r: Items)
  {
    ConcatMap(dicts, (d: Items) => d)
  }

  /** The items of all payloads' pass results, in order. */
  function Flatten(all: seq<seq<Items>>): (r: Items)
  {
    ConcatMap(all, (p: seq<Items>) => FlattenDicts(p))
  }

  /** What the items add under one name, in order. */
  function Contribution(items: Items, key: string): (r: seq<Json>)
  {
    ConcatMap(items, (it: (string, Json)) => if it.0 == key then Findings(it.1) else [])
  }

  /** The innermost loop, over one result dict's items. */
  method MergeDict(report0: Report, dict: Items) returns (report: Report)
    ensures report == MergeItems(report0, dict)
  {
    report := report0;
    var j := 0;
    while j < |dict|
      invariant 0 <= j <= |dict|
      invariant report == MergeItems(report0, dict[..j])
    {
      assert MergeItems(report0, dict[..j + 1]) == MergeItem(MergeItems(report0, dict[..j]), dict[j]) by {
        assert dict[..j + 1][..j] == dict[..j];
      }
      var (agentName, analysisData) := dict[j];
      if agentName in report {
        if analysisData.JList? {
          report := report[agentName := report[agentName] + analysisData.items];
        } else if Truthy(analysisData) {
          report := report[agentName := report[agentName] + [analysisData]];
        } else {
          assert report[agentName] + [] == report[agentName];
          assert report[agentName := report[agentName] + []] == report;
        }
      }
      j := j + 1;
    }
    assert dict[..j] == dict;
  }

  /** Merging `a + b` is merging `a`, then `b`. */
  lemma {:induction false} MergeItemsAppend(report: Report, a: Items, b: Items)
    ensures MergeItems(report, a + b) == MergeItems(MergeItems(report, a), b)
    decreases |b|
  {
    if b == [] {
      assert a + b == a;
    } else {
      MergeItemsAppend(report, a, b[..|b| - 1]);
      assert (a + b)[..|a + b| - 1] == a + b[..|b| - 1];
      assert (a + b)[|a + b| - 1] == b[|b| - 1];
    }
  }

  lemma FlattenDictsSnoc(dicts: seq<Items>, d: nat)
    requires d < |dicts|
    ensures FlattenDicts(dicts[..d + 1]) == FlattenDicts(dicts[..d]) + dicts[d]
  {
    assert dicts[..d + 1][..d] == dicts[..d];
  }

  /** The middle loop, over the pass results of one payload. */
  method MergePayload(report0: Report, resultsForOnePayload: seq<Items>) returns (report: Report)
    ensures report == MergeItems(report0, FlattenDicts(resultsForOnePayload))
  {
    report := report0;
    var d := 0;
    assert resultsForOnePayload[..0] == [];
    while d < |resultsForOnePayload|
      invariant 0 <= d <= |resultsForOnePayload|
      invariant report == MergeItems(report0, FlattenDicts(resultsForOnePayload[..d]))
    {
      var before := report;
      report := MergeDict(report, resultsForOnePayload[d]);
      FlattenDictsSnoc(resultsForOnePayload, d);
      MergeItemsAppend(report0, FlattenDicts(resultsForOnePayload[..d]), resultsForOnePayload[d]);
      d := d + 1;
    }
    assert resultsForOnePayload[..d] == resultsForOnePayload;
  }

  lemma FlattenSnoc(all: seq<seq<Items>>, p: nat)
    requires p < |all|
    ensures Flatten(all[..p + 1]) == Flatten(all[..p]) + FlattenDicts(all[p])
  {
    assert all[..p + 1][..p] == all[..p];
  }

  /** The merge loop: `merged_report` after all payloads' results. */
  method MergeReports(allResults: seq<seq<Items>>) returns (report: Report)
    ensures report == MergeItems(EmptyReport, Flatten(allResults))
  {
    report := EmptyReport;
    var p := 0;
    assert allResults[..0] == [];
    while p < |allResults|
      invariant 0 <= p <= |allResults|
      invariant report == MergeItems(EmptyReport, Flatten(allResults[..p]))
    {
      report := MergePayload(report, allResults[p]);
      FlattenSnoc(allResults, p);
      MergeItemsAppend(EmptyReport, Flatten(allResults[..p]), FlattenDicts(allResults[p]));
      p := p + 1;
    }
    assert allResults[..p] == allResults;
  }

  /** The merge keeps the report's names, and under each name appends, in
      order, what the items carrying that name add. */
  lemma {:induction false} MergePerKey(report: Report, items: Items)
    ensures MergeItems(report, items).Keys == report.Keys
    ensures forall k | k in report :: MergeItems(report, items)[k] == report[k] + Contribution(items, k)
  {
    if items != [] {
      var init, last := items[..|items| - 1], items[|items| - 1];
      MergePerKey(report, init);
      var m := MergeItems(report, init);
      forall k | k in report
        ensures MergeItems(report, items)[k] == report[k] + Contribution(items, k)
      {
        var add := if last.0 == k then Findings(last.1) else [];
        assert Contribution(items, k) == Contribution(init, k) + add;
        assert MergeItems(report, items)[k] == m[k] + add;
        assert (report[k] + Contribution(init, k)) + add == report[k] + (Contribution(init, k) + add);
      }
    }
  }

  lemma ContributionAppend(a: Items, b: Items, key: string)
    ensures Contribution(a + b, key) == Contribution(a, key) + Contribution(b, key)
  {
    ConcatMapAppend(a, b, (it: (string, Json)) => if it.0 == key then Findings(it.1) else []);
  }

  /** Every pass name occurs once. */
  lemma AgentNamesDistinct()
    ensures Distinct(AgentNames)
  {
    assert AgentNames[0][0] == 'P' && AgentNames[1][0] == 'D' && AgentNames[2][0] == 'C';
    assert AgentNames[3][0] == 'R' && AgentNames[4][0] == 'S';
  }

  /** Among one batch's pass results, the items named `key` add the findings
      of every pass of that name, in pass order. */
  lemma {:induction false} PassContribution(backend: Backend, batch: seq<Record>, names: seq<string>, key: string)
    ensures Contribution(FlattenDicts(PassResults(backend, batch, names)), key) ==
              if key in names then Findings(Outcome(backend, key, batch)) else []
    requires Distinct(names)
  {
    if names != [] {
      var init, last := names[..|names| - 1], names[|names| - 1];
      DistinctInit(names);
      PassContribution(backend, batch, init, key);
      PassContributionSnoc(backend, batch, names, key);
      var before := Contribution(FlattenDicts(PassResults(backend, batch, init)), key);
      if key == last {
        assert before == [];
      } else {
        assert before + [] == before;
      }
    }
  }

  /** The last pass adds its own findings, if it is the one asked for. */
  lemma PassContributionSnoc(backend: Backend, batch: seq<Record>, names: seq<string>, key: string)
    requires names != []
    ensures var last := names[|names| - 1];
      Contribution(FlattenDicts(PassResults(backend, batch, names)), key) ==
        Contribution(FlattenDicts(PassResults(backend, batch, names[..|names| - 1])), key) +
        (if last == key then Findings(Outcome(backend, last, batch)) else [])
  {
    var last := names[|names| - 1];
    var rs := PassResults(backend, batch, names);
    var item := (last, Outcome(backend, last, batch));
    assert rs[..|rs| - 1] == PassResults(backend, batch, names[..|names| - 1]);
    FlattenDictsSnoc(rs, |rs| - 1);
    assert rs[..|rs|] == rs;
    ContributionAppend(FlattenDicts(rs[..|rs| - 1]), [item], key);
    ContributionSingle(item, key);
  }

  lemma ContributionSingle(item: (string, Json), key: string)
    ensures Contribution([item], key) == if item.0 == key then Findings(item.1) else []
  {
    ConcatMapSingle(item, (it: (string, Json)) => if it.0 == key then Findings(it.1) else []);
  }


  /** What a pass found over all payloads: the findings of its value for
      each payload, payload by payload. */
  function PassFindings(backend: Backend, name: string, payloads: seq<Record>): (r: seq<Json>)
  {
    ConcatMap(payloads, (p: Record) => Findings(Outcome(backend, name, [p])))
  }

  lemma {:induction false} DispatchContribution(backend: Backend, payloads: seq<Record>, name: string)
    requires name in AgentNames
    ensures Contribution(Flatten(Dispatched(backend, payloads)), name) == PassFindings(backend, name, payloads)
  {
    if payloads != [] {
      var init, last := payloads[..|payloads| - 1], payloads[|payloads| - 1];
      var all := Dispatched(backend, payloads);
      DispatchContribution(backend, init, name);
      assert all[..|all| - 1] == Dispatched(backend, init);
      ContributionAppend(Flatten(Dispatched(backend, init)), FlattenDicts(all[|all| - 1]), name);
      AgentNamesDistinct();
      PassContribution(backend, [last], AgentNames, name);
    }
  }

  /** The report the workflow produces: exactly the five pass names, each
      with its findings for every payload, those of earlier payloads first. */
  lemma WorkflowReport(backend: Backend, payloads: seq<Record>)
    ensures var report := MergeItems(EmptyReport, Flatten(Dispatched(backend, payloads)));
      && (forall n :: n in report <==> n in AgentNames)
      && forall n | n in AgentNames :: report[n] == PassFindings(backend, n, payloads)
  {
    var items := Flatten(Dispatched(backend, payloads));
    MergePerKey(EmptyReport, items);
    forall n | n in AgentNames
      ensures MergeItems(EmptyReport, items)[n] == PassFindings(backend, n, payloads)
    {
      DispatchContribution(backend, payloads, n);
    }
  }

  /** A name outside the report is never added by a merge. */
  lemma UnknownNamesIgnored(report: Report, items: Items, name: string, v: Json)
    requires name !in report
    ensures MergeItems(report, items + [(name, v)]) == MergeItems(report, items)
  {
    MergePerKey(report, items);
    assert (items + [(name, v)])[..|items|] == items;
  }

  /** The dispatch and merge loops of the workflow, one after the other. */
  method RunWorkflow(backend: Backend, agentPayloads: seq<Record>) returns (report: Report)
    ensures forall n :: n in report <==> n in AgentNames
    ensures forall n | n in AgentNames :: report[n] == PassFindings(backend, n, agentPayloads)
  {
    var allResults := DispatchAll(backend, agentPayloads);
    report := MergeReports(allResults);
    WorkflowReport(backend, agentPayloads);
  }
}
