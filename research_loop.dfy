/**
 * The body of `deep_research` as it runs: the while loop over search
 * iterations with its inner loops (the query filter, the save loop, the
 * tagging loop) and the three retried model invocations. Each method is
 * proved to compute what the specification functions of `Research` say.
 */
module ResearchLoop {
  import opened Common
  import Url
  import Text
  import Retry
  import opened Research

  /** Every wait the retry wrapper sleeps with the loop's settings lies in
      [0, 1.1 * 59] seconds. This bound is deliberately coarse: the exact
      schedule of one retried call is stated by InvokeWithRetry, and the
      methods that make several calls keep only this bound on their
      concatenated waits. */
  predicate SleepsBounded(waits: seq<real>) {
    forall k :: 0 <= k < |waits| ==> 0.0 <= waits[k] <= TargetWait * 1.1
  }

  /** `retry_for_rate_limit_per_minute(llm.invoke, msgs)` with its default
      settings. */
  method InvokeWithRetry(o: Oracles, msgs: seq<Message>) returns (answer: Retry.RetryResult<string>, waits: seq<real>)
    ensures answer == Invoke(o, msgs)
    ensures |waits| + 1 == Retry.RetrySpec(Call(o, msgs), MaxRetries).1
    ensures forall k :: 0 <= k < |waits| ==>
      && Retry.Jittered(waits[k], Retry.BaseWait(k + 1, MaxRetries, InitialWait, TargetWait))
      && Retry.BaseWait(k + 1, MaxRetries, InitialWait, TargetWait) < TargetWait
    ensures SleepsBounded(waits)
  {
    var calls;
    answer, calls, waits := Retry.RetryForRateLimit(Call(o, msgs), MaxRetries, InitialWait, TargetWait);
    Retry.RetryMeaning(Call(o, msgs), MaxRetries);
    DefaultWaits();
    forall k | 0 <= k < |waits| ensures 0.0 <= waits[k] <= TargetWait * 1.1 {
      Retry.BaseWaitBounds(k + 1, MaxRetries, InitialWait, TargetWait);
    }
  }

  /** The filter loop, for a key function: keeps a query unless it has a
      key that is already visited, reserving each kept query's key. */
  method FilterQueriesBy(key: string -> Option<string>, queries: seq<string>, visited: set<string>)
    returns (kept: seq<string>, visited': set<string>)
    ensures kept == FilterBy(key, queries, visited).0 && visited' == FilterBy(key, queries, visited).1
  {
    kept, visited' := [], visited;
    var i := 0;
    assert queries[i..] == queries;
    while i < |queries|
      invariant 0 <= i <= |queries|
      invariant FilterBy(key, queries, visited).0 == kept + FilterBy(key, queries[i..], visited').0
      invariant FilterBy(key, queries, visited).1 == FilterBy(key, queries[i..], visited').1
      decreases |queries| - i
    {
      var q := queries[i];
      assert queries[i..][1..] == queries[i + 1..];
      var norm := key(q);
      if norm.Some? {
        if norm.value in visited' {
          i := i + 1;
          continue;
        }
        visited' := visited' + {norm.value};
      }
      kept := kept + [q];
      i := i + 1;
    }
  }

  /** The filter loop of the search iteration: a URL (a query that parses
      with a scheme and a host) is keyed by its normalized form. */
  method FilterQueries(queries: seq<string>, visited: set<string>) returns (kept: seq<string>, visited': set<string>)
    ensures kept == QueryFilter(queries, visited).0 && visited' == QueryFilter(queries, visited).1
  {
    kept, visited' := FilterQueriesBy(LinkKey, queries, visited);
  }

  /** The tagging loop over the recorder's new items. */
  method TagRecordUrls(records: seq<Record>, visited: set<string>) returns (visited': set<string>)
    ensures visited' == TagRecords(records, visited)
  {
    visited' := visited;
    var i := 0;
    assert records[i..] == records;
    while i < |records|
      invariant 0 <= i <= |records|
      invariant TagRecords(records, visited) == TagBy(RecordKey, records[i..], visited')
      decreases |records| - i
    {
      assert records[i..][1..] == records[i + 1..];
      var info := records[i];
      if info.url.Some? && info.url.value != "unknown" {
        visited' := visited' + {Url.Normalize(info.url.value)};
      }
      i := i + 1;
    }
  }

  /** The save loop over the agents' results. */
  method SaveQueryResults(iteration: nat, runs: seq<AgentRun>, last: Option<Option<string>>, files: seq<string>)
    returns (last': Option<Option<string>>, files': seq<string>)
    ensures last' == SaveFrom(iteration, runs, 0, last, files).0 && files' == SaveFrom(iteration, runs, 0, last, files).1
  {
    last', files' := last, files;
    var i := 0;
    while i < |runs|
      invariant 0 <= i <= |runs|
      invariant SaveFrom(iteration, runs, 0, last, files) == SaveFrom(iteration, runs, i, last', files')
      decreases |runs| - i
    {
      if runs[i].Finished? {
        last' := Some(runs[i].final);
        files' := files' + [Text.ResultFileName(iteration, i)];
      }
      i := i + 1;
    }
  }

  /** The recorder's turn: prompt, retried invocation, parse and tagging. */
  method RecordResults(o: Oracles, s: State) returns (r: StepResult, waits: seq<real>)
    requires s.lastResult.Some?
    ensures r == RecordStep(o, s)
    ensures SleepsBounded(waits)
  {
    var recordMessages := s.recordMessages + [Human(RecordPrompt(s.instruction, s.historyInfos, s.lastResult.value))];
    var answer;
    answer, waits := InvokeWithRetry(o, RecordWindow(recordMessages));
    if !answer.Returned? {
      return Stop(s.(recordMessages := recordMessages), Crashed), waits;
    }
    recordMessages := recordMessages + [Assistant(answer.value)];
    var parsed := o.parseRecords(answer.value);
    var newRecords := if parsed.Records? then parsed.records else [];
    var visited := TagRecordUrls(newRecords, s.visited);
    r := Next(s.(recordMessages := recordMessages, visited := visited, historyInfos := s.historyInfos + newRecords));
  }

  /** The contexts and the filter loop; `task` ends as the last query. */
  method DispatchQueries(o: Oracles, s: State, queries: seq<string>) returns (r: StepResult, waits: seq<real>)
    requires queries != []
    ensures r == Dispatch(o, s, queries)
    ensures SleepsBounded(waits)
  {
    var kept, visited := FilterQueries(queries, s.visited);
    var task := queries[|queries| - 1];
    var s3 := s.(visited := visited, instruction := task);
    assert Dispatch(o, s, queries) == AfterFilter(o, s, queries, (kept, visited));
    if kept == [] {
      return Stop(s3.(openContexts := s.openContexts + |queries|), AllVisited), [];
    }
    r, waits := RunQueryAgents(o, s3, |queries|, kept);
  }

  /** The agents, run together; the contexts are closed afterwards. */
  method RunQueryAgents(o: Oracles, s: State, created: nat, kept: seq<string>) returns (r: StepResult, waits: seq<real>)
    ensures r == RunAgents(o, s, created, kept)
    ensures SleepsBounded(waits)
  {
    var runs := Runs(o, s.iteration, kept);
    if Raised in runs {
      return Stop(s.(openContexts := s.openContexts + created), Crashed), [];
    }
    r, waits := SaveAndRecord(o, s, runs);
  }

  /** The save loop, then the recorder's turn when `query_result` is
      bound. */
  method SaveAndRecord(o: Oracles, s: State, runs: seq<AgentRun>) returns (r: StepResult, waits: seq<real>)
    ensures r == SaveResults(o, s, runs)
    ensures SleepsBounded(waits)
  {
    var last, files := SaveQueryResults(s.iteration, runs, s.lastResult, s.savedFiles);
    var s4 := s.(lastResult := last, savedFiles := files);
    if last.None? {
      return Stop(s4, Crashed), [];
    }
    r, waits := RecordResults(o, s4);
  }

  /** One pass of the while loop: the planner's prompt and retried
      invocation, then what its reply asks for. */
  method SearchIteration(o: Oracles, maxIter: int, s: State) returns (r: StepResult, waits: seq<real>)
    ensures r == Step(o, maxIter, s)
    ensures SleepsBounded(waits)
  {
    var searchIteration := s.iteration + 1;
    var searchMessages := s.searchMessages + [Human(SearchPrompt(searchIteration, maxIter, s.instruction, s.historyQuery, s.historyInfos))];
    var answer;
    answer, waits := InvokeWithRetry(o, SearchWindow(searchMessages));
    var s1 := s.(iteration := searchIteration, searchMessages := searchMessages);
    assert searchMessages == PlannerMessages(maxIter, s);
    StepCases(o, maxIter, s);
    if !answer.Returned? {
      return Stop(s1, Crashed), waits;
    }
    var plan := o.parsePlan(Text.StripFences(answer.value));
    assert Some(plan) == PlanOf(o, maxIter, s);
    var more;
    r, more := ActOnPlan(o, s1.(searchMessages := searchMessages + [Assistant(answer.value)]), plan);
    waits := waits + more;
  }

  /** The `break`s on the parsed plan, the query history, the dispatch. */
  method ActOnPlan(o: Oracles, s: State, plan: PlanReply) returns (r: StepResult, waits: seq<real>)
    ensures r == FollowPlan(o, s, plan)
    ensures SleepsBounded(waits)
  {
    waits := [];
    match plan
    case Unparsable => r := Stop(s, PlanUnparsable);
    case Malformed => r := Stop(s, Crashed);
    case Plan(queries) =>
      if queries == [] {
        r := Stop(s, NoQueries);
      } else {
        var historyQuery := s.historyQuery + queries;
        r, waits := DispatchQueries(o, s.(historyQuery := historyQuery), queries);
      }
  }

  /** deep_research: the search loop, then the report unless an exception
      escaped the loop. Also returns the loop's final variables, why it
      stopped, and every wait the retries slept. */
  method DeepResearch(o: Oracles, task: string, maxIter: int)
    returns (outcome: Outcome, final: State, exit: Exit, waits: seq<real>)
    ensures outcome == RunResearch(o, task, maxIter)
    ensures (final, exit) == Loop(o, maxIter, Initial(task))
    ensures SleepsBounded(waits)
  {
    var s := Initial(task);
    waits := [];
    exit := LoopEnded;
    while s.iteration < maxIter
      invariant Loop(o, maxIter, s) == Loop(o, maxIter, Initial(task))
      invariant SleepsBounded(waits)
      decreases maxIter - s.iteration
    {
      var r, more := SearchIteration(o, maxIter, s);
      waits := waits + more;
      if r.Stop? {
        assert Loop(o, maxIter, Initial(task)) == (r.state, r.exit);
        s, exit := r.state, r.exit;
        break;
      }
      s := r.state;
    }
    final := s;
    if exit == Crashed {
      return NoReport, final, exit, waits;
    }
    var answer, more := InvokeWithRetry(o, WriterMessages(final));
    waits := waits + more;
    outcome := if answer.Returned? then Report(answer.value) else NoReport;
  }
}
