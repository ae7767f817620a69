/**
 * The bookkeeping of `deep_research` as specification functions: the
 * query filter with visited-link reservation, the tagging of recorded
 * URLs, the saving of per-query results, one search iteration and the
 * iteration loop, and the lemmas that state what they guarantee.
 *
 * The language model, the JSON repair-and-parse step and the browsing
 * agents are oracles (see `Oracles`).
 */
module Research {
  import opened Common
  import Url
  import Text
  import Retry

  // ---------------------------------------------------------------------
  // Query filtering with visited-link reservation
  // ---------------------------------------------------------------------

  /** The key under which a query is checked against the visited links:
      its normalized form when it parses as a URL with a scheme and a
      host, none otherwise (a query whose parse fails is not a URL). */
  function LinkKey(q: string): (k: Option<string>)
    ensures k.Some? <==> Url.IsUrl(q)
    ensures k.Some? ==> k.value == Url.Normalize(q)
  {
    if Url.IsUrl(q) then Some(Url.Normalize(q)) else None
  }

  /** The keys of the keyed elements of `xs`. */
  function Keys<T(==)>(key: T -> Option<string>, xs: seq<T>): set<string> {
    set x | x in xs && key(x).Some? :: key(x).value
  }

  /** The filter loop over the planner's queries, for a key function: a
      query without a key is kept; a keyed query is dropped when its key
      was visited, and otherwise kept and its key reserved at once.
      Returns the kept queries in order and the new visited set. */
  function FilterBy(key: string -> Option<string>, qs: seq<string>, visited: set<string>): (seq<string>, set<string>)
    decreases |qs|
  {
    if qs == [] then ([], visited)
    else match key(qs[0])
      case Some(k) =>
        if k in visited then FilterBy(key, qs[1..], visited)
        else
          var rest := FilterBy(key, qs[1..], visited + {k});
          ([qs[0]] + rest.0, rest.1)
      case None =>
        var rest := FilterBy(key, qs[1..], visited);
        ([qs[0]] + rest.0, rest.1)
  }

  /** The filter of the search loop: URLs are keyed by their normalized
      form. */
  function QueryFilter(qs: seq<string>, visited: set<string>): (seq<string>, set<string>) {
    FilterBy(LinkKey, qs, visited)
  }

  /** `a` is `b` with some elements left out, order kept. */
  predicate Subsequence<T(==)>(a: seq<T>, b: seq<T>)
    decreases |b|
  {
    a == [] || (b != [] && ((a[0] == b[0] && Subsequence(a[1..], b[1..])) || Subsequence(a, b[1..])))
  }

  /** The elements of `qs` without a key, in order. */
  function Unkeyed(key: string -> Option<string>, qs: seq<string>): seq<string>
    decreases |qs|
  {
    if qs == [] then [] else (if key(qs[0]).Some? then [] else [qs[0]]) + Unkeyed(key, qs[1..])
  }

  lemma KeysCons<T>(key: T -> Option<string>, x: T, xs: seq<T>)
    ensures Keys(key, [x] + xs) == (if key(x).Some? then {key(x).value} else {}) + Keys(key, xs)
  {
    assert forall y :: y in [x] + xs <==> y == x || y in xs;
  }

  /** The kept queries are a subsequence of the planner's queries. */
  lemma {:induction false} FilterSubsequence(key: string -> Option<string>, qs: seq<string>, visited: set<string>)
    ensures Subsequence(FilterBy(key, qs, visited).0, qs)
    decreases |qs|
  {
    if qs != [] {
      var v := if key(qs[0]).Some? && key(qs[0]).value !in visited then visited + {key(qs[0]).value} else visited;
      FilterSubsequence(key, qs[1..], v);
      var kept := FilterBy(key, qs, visited).0;
      var rest := FilterBy(key, qs[1..], v).0;
      if kept != rest {
        assert kept == [qs[0]] + rest;
        assert kept[1..] == rest;
      }
    }
  }

  /** Every query without a key is kept, in order. */
  lemma {:induction false} FilterKeepsUnkeyed(key: string -> Option<string>, qs: seq<string>, visited: set<string>)
    ensures Unkeyed(key, FilterBy(key, qs, visited).0) == Unkeyed(key, qs)
    decreases |qs|
  {
    if qs != [] {
      var v := if key(qs[0]).Some? && key(qs[0]).value !in visited then visited + {key(qs[0]).value} else visited;
      FilterKeepsUnkeyed(key, qs[1..], v);
      var kept := FilterBy(key, qs, visited).0;
      var rest := FilterBy(key, qs[1..], v).0;
      if kept != rest {
        assert kept == [qs[0]] + rest;
        assert kept[1..] == rest;
      }
    }
  }

  /** Afterwards the key of every query is visited. */
  lemma {:induction false} FilterVisits(key: string -> Option<string>, qs: seq<string>, visited: set<string>)
    ensures FilterBy(key, qs, visited).1 == visited + Keys(key, qs)
    decreases |qs|
  {
    if qs != [] {
      assert qs == [qs[0]] + qs[1..];
      KeysCons(key, qs[0], qs[1..]);
      var v := if key(qs[0]).Some? && key(qs[0]).value !in visited then visited + {key(qs[0]).value} else visited;
      FilterVisits(key, qs[1..], v);
    }
  }

  /** The kept keyed queries have pairwise different keys, none of them
      visited before the filter, and together they carry exactly the keys
      the filter newly reserved. */
  lemma FilterReserves(key: string -> Option<string>, qs: seq<string>, visited: set<string>)
    ensures var kept := FilterBy(key, qs, visited).0;
      && (forall i :: 0 <= i < |kept| && key(kept[i]).Some? ==> key(kept[i]).value !in visited)
      && (forall i, j :: 0 <= i < j < |kept| && key(kept[i]).Some? && key(kept[j]).Some? ==>
            key(kept[i]).value != key(kept[j]).value)
      && Keys(key, kept) == Keys(key, qs) - visited
  {
    var kept := FilterBy(key, qs, visited).0;
    FilterKeys(key, qs, visited);
    FilterDistinct(key, qs, visited);
    forall i | 0 <= i < |kept| && key(kept[i]).Some? ensures key(kept[i]).value !in visited {
      assert kept[i] in kept;
    }
  }

  /** No two kept queries share a key. */
  lemma {:induction false} FilterDistinct(key: string -> Option<string>, qs: seq<string>, visited: set<string>)
    ensures var kept := FilterBy(key, qs, visited).0;
      forall i, j :: 0 <= i < j < |kept| && key(kept[i]).Some? && key(kept[j]).Some? ==>
        key(kept[i]).value != key(kept[j]).value
    decreases |qs|
  {
    if qs != [] {
      var q := qs[0];
      var v := if key(q).Some? && key(q).value !in visited then visited + {key(q).value} else visited;
      FilterDistinct(key, qs[1..], v);
      var rest := FilterBy(key, qs[1..], v).0;
      if key(q).None? || key(q).value !in visited {
        var kept := [q] + rest;
        assert FilterBy(key, qs, visited).0 == kept;
        FilterKeys(key, qs[1..], v);
        forall i, j | 0 <= i < j < |kept| && key(kept[i]).Some? && key(kept[j]).Some?
          ensures key(kept[i]).value != key(kept[j]).value
        {
          assert kept[j] == rest[j - 1];
          if i == 0 {
            assert rest[j - 1] in rest;
          } else {
            assert kept[i] == rest[i - 1];
          }
        }
      }
    }
  }

  /** The kept queries carry exactly the planned keys not visited before. */
  lemma {:induction false} FilterKeys(key: string -> Option<string>, qs: seq<string>, visited: set<string>)
    ensures Keys(key, FilterBy(key, qs, visited).0) == Keys(key, qs) - visited
    decreases |qs|
  {
    if qs != [] {
      var q := qs[0];
      assert qs == [q] + qs[1..];
      KeysCons(key, q, qs[1..]);
      var v := if key(q).Some? && key(q).value !in visited then visited + {key(q).value} else visited;
      FilterKeys(key, qs[1..], v);
      var rest := FilterBy(key, qs[1..], v).0;
      if key(q).None? || key(q).value !in visited {
        assert FilterBy(key, qs, visited).0 == [q] + rest;
        KeysCons(key, q, rest);
      }
    }
  }

  /** One more pass of the filter loop: the next query is tested against
      the visited set as the earlier queries left it; it is kept unless
      its key is in that set, and its key is reserved. */
  lemma {:induction false} FilterSnoc(key: string -> Option<string>, qs: seq<string>, q: string, visited: set<string>)
    ensures var before := FilterBy(key, qs, visited);
      && FilterBy(key, qs + [q], visited).0 ==
           before.0 + (if key(q).None? || key(q).value !in before.1 then [q] else [])
      && FilterBy(key, qs + [q], visited).1 ==
           (if key(q).Some? then before.1 + {key(q).value} else before.1)
    decreases |qs|
  {
    if qs == [] {
      assert [q][1..] == [];
      assert qs + [q] == [q];
    } else {
      assert (qs + [q])[0] == qs[0];
      assert (qs + [q])[1..] == qs[1..] + [q];
      var v := if key(qs[0]).Some? && key(qs[0]).value !in visited then visited + {key(qs[0]).value} else visited;
      FilterSnoc(key, qs[1..], q, v);
    }
  }

  /** The filter keeps nothing exactly when every query has a key that was
      already visited. */
  lemma {:induction false} FilterEmpty(key: string -> Option<string>, qs: seq<string>, visited: set<string>)
    ensures FilterBy(key, qs, visited).0 == [] <==>
            forall q :: q in qs ==> key(q).Some? && key(q).value in visited
    decreases |qs|
  {
    if qs != [] {
      assert forall q :: q in qs <==> q == qs[0] || q in qs[1..];
      if key(qs[0]).Some? && key(qs[0]).value in visited {
        FilterEmpty(key, qs[1..], visited);
      }
    }
  }

  /** The filter as a whole: the kept queries are a subsequence of the
      planned ones; queries that are not URLs all pass; kept URLs were not
      visited before and have pairwise different normalized forms, which
      are exactly the planned ones not visited before; afterwards every
      URL query's normalized form is visited. Which duplicate is kept is
      stated by QueryFilterStep. */
  lemma QueryFilterMeaning(qs: seq<string>, visited: set<string>)
    ensures var kept, visited' := QueryFilter(qs, visited).0, QueryFilter(qs, visited).1;
      && Subsequence(kept, qs)
      && (forall q :: q in qs && !Url.IsUrl(q) ==> q in kept)
      && (forall i :: 0 <= i < |kept| && Url.IsUrl(kept[i]) ==> Url.Normalize(kept[i]) !in visited)
      && (forall i, j :: 0 <= i < j < |kept| && Url.IsUrl(kept[i]) && Url.IsUrl(kept[j]) ==>
            Url.Normalize(kept[i]) != Url.Normalize(kept[j]))
      && (forall q :: q in qs && Url.IsUrl(q) ==> Url.Normalize(q) in visited')
      && visited' == visited + Keys(LinkKey, qs)
      && Keys(LinkKey, kept) == Keys(LinkKey, qs) - visited
      && (kept == [] <==> forall q :: q in qs ==> Url.IsUrl(q) && Url.Normalize(q) in visited)
  {
    var kept, visited' := QueryFilter(qs, visited).0, QueryFilter(qs, visited).1;
    FilterSubsequence(LinkKey, qs, visited);
    FilterKeepsUnkeyed(LinkKey, qs, visited);
    FilterVisits(LinkKey, qs, visited);
    FilterReserves(LinkKey, qs, visited);
    FilterEmpty(LinkKey, qs, visited);
    forall q | q in qs && !Url.IsUrl(q) ensures q in kept {
      UnkeyedMember(LinkKey, qs, q);
      UnkeyedMember(LinkKey, kept, q);
    }
    forall q | q in qs && Url.IsUrl(q) ensures Url.Normalize(q) in visited' {
      assert LinkKey(q).Some?;
    }
  }

  /** One pass of the filter loop over URL queries: the next query is
      kept exactly when it is not a URL or its normalized form is not in
      the visited set as the earlier queries left it, and a URL's
      normalized form is then reserved. So of several URLs with the same
      normalized form only the first is kept. */
  lemma QueryFilterStep(qs: seq<string>, q: string, visited: set<string>)
    ensures var before := QueryFilter(qs, visited);
      && QueryFilter(qs + [q], visited).0 ==
           before.0 + (if !Url.IsUrl(q) || Url.Normalize(q) !in before.1 then [q] else [])
      && QueryFilter(qs + [q], visited).1 ==
           (if Url.IsUrl(q) then before.1 + {Url.Normalize(q)} else before.1)
  {
    FilterSnoc(LinkKey, qs, q, visited);
  }

  /** An element without a key is in the list exactly when it is among
      the unkeyed ones. */
  lemma {:induction false} UnkeyedMember(key: string -> Option<string>, xs: seq<string>, x: string)
    requires key(x).None?
    ensures x in xs <==> x in Unkeyed(key, xs)
    decreases |xs|
  {
    if xs != [] {
      UnkeyedMember(key, xs[1..], x);
      assert x in xs <==> x == xs[0] || x in xs[1..];
    }
  }

  // ---------------------------------------------------------------------
  // Recorded information and the tagging of its URLs
  // ---------------------------------------------------------------------

  /** One item of the recorder's JSON list; `url` is None when the item
      has no "url" key. */
  datatype Record = Record(url: Option<string>, title: string, summary: string, thinking: string)

  /** The visited key of a record: the normalized form of its URL, unless
      it has none or it is the literal "unknown". */
  function RecordKey(r: Record): (k: Option<string>)
    ensures k.Some? <==> r.url.Some? && r.url.value != "unknown"
    ensures k.Some? ==> k.value == Url.Normalize(r.url.value)
  {
    if r.url.Some? && r.url.value != "unknown" then Some(Url.Normalize(r.url.value)) else None
  }

  /** The tagging loop over new records, for a key function. */
  function TagBy(key: Record -> Option<string>, records: seq<Record>, visited: set<string>): set<string>
    decreases |records|
  {
    if records == [] then visited
    else
      var visited' := if key(records[0]).Some? then visited + {key(records[0]).value} else visited;
      TagBy(key, records[1..], visited')
  }

  lemma {:induction false} TagByAdds(key: Record -> Option<string>, records: seq<Record>, visited: set<string>)
    ensures TagBy(key, records, visited) == visited + Keys(key, records)
    decreases |records|
  {
    if records != [] {
      assert records == [records[0]] + records[1..];
      KeysCons(key, records[0], records[1..]);
      TagByAdds(key, records[1..], if key(records[0]).Some? then visited + {key(records[0]).value} else visited);
    }
  }

  /** The visited set after tagging the recorder's new items. */
  function TagRecords(records: seq<Record>, visited: set<string>): set<string> {
    TagBy(RecordKey, records, visited)
  }

  /** Tagging adds exactly the normalized URLs of the records whose URL is
      present and not "unknown", and nothing else. */
  lemma TagRecordsMeaning(records: seq<Record>, visited: set<string>)
    ensures visited <= TagRecords(records, visited)
    ensures forall r :: r in records && r.url.Some? && r.url.value != "unknown" ==>
      Url.Normalize(r.url.value) in TagRecords(records, visited)
    ensures forall x :: x in TagRecords(records, visited) ==>
      (x in visited || exists r :: r in records && r.url.Some? && r.url.value != "unknown" && x == Url.Normalize(r.url.value))
  {
    TagByAdds(RecordKey, records, visited);
    forall r | r in records && r.url.Some? && r.url.value != "unknown"
      ensures Url.Normalize(r.url.value) in TagRecords(records, visited)
    {
      assert RecordKey(r).Some?;
    }
  }

  // ---------------------------------------------------------------------
  // Saving the per-query results
  // ---------------------------------------------------------------------

  /** What `agent.run` gave for one query: no history, a history with an
      optional final result, or an exception (which `asyncio.gather`
      propagates). */
  datatype AgentRun = NoHistory | Finished(final: Option<string>) | Raised

  /** The save loop from index i on: a run without history is skipped;
      otherwise its final result becomes `query_result` and a file named
      after the iteration and the index is written. Returns the new
      `query_result` (None while unbound) and the saved file names. */
  function SaveFrom(iteration: nat, runs: seq<AgentRun>, i: nat, last: Option<Option<string>>, files: seq<string>)
    : (Option<Option<string>>, seq<string>)
    decreases |runs| - i
  {
    if i >= |runs| then (last, files)
    else if runs[i].Finished? then
      SaveFrom(iteration, runs, i + 1, Some(runs[i].final), files + [Text.ResultFileName(iteration, i)])
    else SaveFrom(iteration, runs, i + 1, last, files)
  }

  /** `query_result` ends as the final result of the last run with a
      history, or keeps its old binding when there is none. */
  lemma {:induction false} SaveFromResult(iteration: nat, runs: seq<AgentRun>, i: nat, last: Option<Option<string>>, files: seq<string>)
    requires i <= |runs|
    ensures var last' := SaveFrom(iteration, runs, i, last, files).0;
      && ((forall j :: i <= j < |runs| ==> !runs[j].Finished?) ==> last' == last)
      && (forall j :: i <= j < |runs| && runs[j].Finished? && (forall k :: j < k < |runs| ==> !runs[k].Finished?) ==>
            last' == Some(runs[j].final))
    decreases |runs| - i
  {
    if i < |runs| {
      var files1 := if runs[i].Finished? then files + [Text.ResultFileName(iteration, i)] else files;
      var last1 := if runs[i].Finished? then Some(runs[i].final) else last;
      SaveFromResult(iteration, runs, i + 1, last1, files1);
    }
  }

  /** One file is saved per run with a history, named after its index;
      the files of one iteration are all distinct and come after the
      earlier ones. */
  lemma {:induction false} SaveFromFiles(iteration: nat, runs: seq<AgentRun>, i: nat, last: Option<Option<string>>, files: seq<string>)
    requires i <= |runs|
    ensures var files' := SaveFrom(iteration, runs, i, last, files).1;
      && |files| <= |files'| && files'[..|files|] == files
      && (forall j :: i <= j < |runs| && runs[j].Finished? ==> Text.ResultFileName(iteration, j) in files'[|files|..])
      && (forall n :: |files| <= n < |files'| ==> IsRunFile(iteration, runs, i, files'[n]))
      && (forall m, n :: |files| <= m < n < |files'| ==> files'[m] != files'[n])
    decreases |runs| - i
  {
    if i < |runs| {
      var files1 := if runs[i].Finished? then files + [Text.ResultFileName(iteration, i)] else files;
      var last1 := if runs[i].Finished? then Some(runs[i].final) else last;
      SaveFromFiles(iteration, runs, i + 1, last1, files1);
      var files' := SaveFrom(iteration, runs, i, last, files).1;
      assert files' == SaveFrom(iteration, runs, i + 1, last1, files1).1;
      assert files'[..|files|] == files'[..|files1|][..|files|];
      if runs[i].Finished? {
        FilesStep(iteration, runs, i, files, files1, files');
      } else {
        forall n | |files| <= n < |files'| ensures IsRunFile(iteration, runs, i, files'[n]) {
          assert IsRunFile(iteration, runs, i + 1, files'[n]);
        }
      }
    }
  }

  lemma FilesStep(iteration: nat, runs: seq<AgentRun>, i: nat, files: seq<string>, files1: seq<string>, files': seq<string>)
    requires i < |runs| && files1 == files + [Text.ResultFileName(iteration, i)]
    requires |files1| <= |files'| && files'[..|files1|] == files1
    requires forall j :: i + 1 <= j < |runs| && runs[j].Finished? ==> Text.ResultFileName(iteration, j) in files'[|files1|..]
    requires forall n :: |files1| <= n < |files'| ==> IsRunFile(iteration, runs, i + 1, files'[n])
    requires forall m, n :: |files1| <= m < n < |files'| ==> files'[m] != files'[n]
    requires runs[i].Finished?
    ensures forall j :: i <= j < |runs| && runs[j].Finished? ==> Text.ResultFileName(iteration, j) in files'[|files|..]
    ensures forall n :: |files| <= n < |files'| ==> IsRunFile(iteration, runs, i, files'[n])
    ensures forall m, n :: |files| <= m < n < |files'| ==> files'[m] != files'[n]
  {
    var name := Text.ResultFileName(iteration, i);
    assert files'[|files|] == files1[|files|] == name;
    assert files'[|files|..] == [name] + files'[|files1|..];
    forall n | |files1| <= n < |files'| ensures files'[n] != name {
      assert IsRunFile(iteration, runs, i + 1, files'[n]);
      var j :| i + 1 <= j < |runs| && runs[j].Finished? && files'[n] == Text.ResultFileName(iteration, j);
      if files'[n] == name {
        Text.ResultFileNameInjective(iteration, j, iteration, i);
      }
    }
    forall n | |files| <= n < |files'| ensures IsRunFile(iteration, runs, i, files'[n]) {
      if n >= |files1| {
        assert IsRunFile(iteration, runs, i + 1, files'[n]);
      }
    }
  }

  /** `name` is the file of a run with a history at index i or later. */
  ghost predicate IsRunFile(iteration: nat, runs: seq<AgentRun>, i: nat, name: string) {
    exists j :: i <= j < |runs| && runs[j].Finished? && name == Text.ResultFileName(iteration, j)
  }

  // ---------------------------------------------------------------------
  // Conversations and their windows
  // ---------------------------------------------------------------------

  /** Which system prompt a conversation starts with. */
  datatype Role = Planner | Recorder | Writer

  /** The human prompts, by what they are built from. */
  datatype Prompt =
    | SearchPrompt(iteration: nat, maxIterations: int, instruction: string, queries: seq<string>, infos: seq<Record>)
    | RecordPrompt(instruction: string, infos: seq<Record>, searchResult: Option<string>)
    | ReportPrompt(instruction: string, infos: seq<Record>)

  datatype Message = System(role: Role) | Human(prompt: Prompt) | Assistant(content: string)

  /** Python's `xs[:1]`. */
  function Head(xs: seq<Message>): seq<Message> {
    if xs == [] then [] else xs[..1]
  }

  /** Python's `xs[-1:]`. */
  function Tail(xs: seq<Message>): seq<Message> {
    if xs == [] then [] else xs[|xs| - 1..]
  }

  /** What the planner is sent: `search_messages[:1] + search_messages[1:][-1:]`,
      the system prompt and the latest message, never the first twice. */
  function SearchWindow(msgs: seq<Message>): (w: seq<Message>)
    ensures |msgs| <= 1 ==> w == msgs
    ensures |msgs| >= 2 ==> w == [msgs[0], msgs[|msgs| - 1]]
  {
    Head(msgs) + Tail(if msgs == [] then [] else msgs[1..])
  }

  /** What the recorder is sent: `record_messages[:1] + record_messages[-1:]`,
      which repeats a lone first message. */
  function RecordWindow(msgs: seq<Message>): (w: seq<Message>)
    ensures msgs == [] ==> w == []
    ensures msgs != [] ==> w == [msgs[0], msgs[|msgs| - 1]]
  {
    Head(msgs) + Tail(msgs)
  }

  // ---------------------------------------------------------------------
  // The outside world
  // ---------------------------------------------------------------------

  /** The planner's reply after fence stripping, JSON repair and parsing:
      not JSON, JSON without the "plan" or "queries" keys, or a plan. */
  datatype PlanReply = Unparsable | Malformed | Plan(queries: seq<string>)

  /** The recorder's reply after JSON repair and parsing. */
  datatype RecordsReply = RecordsUnparsable | Records(records: seq<Record>)

  /** The oracles the loop consults. `llm(msgs, k)` is the outcome of the
      (k+1)-th attempt at invoking the model on `msgs`; `agent(it, i, q)`
      is what the browsing agent for query q, the i-th kept one of
      iteration it, returns. */
  datatype Oracles = Oracles(
    llm: (seq<Message>, nat) -> Retry.Outcome<string>,
    parsePlan: string -> PlanReply,
    agent: (nat, nat, string) -> AgentRun,
    parseRecords: string -> RecordsReply)

  /** The retry wrapper's defaults, as the loop uses them. */
  const MaxRetries := 5
  const InitialWait := 1.0
  const TargetWait := 59.0

  /** With these defaults the waits slept after the first to the fourth
      quota failure run from 1 to 44.5 seconds before jitter; the fifth
      failure raises, so the 59-second target is never slept. */
  lemma DefaultWaits()
    ensures Retry.BaseWait(1, MaxRetries, InitialWait, TargetWait) == InitialWait
    ensures Retry.BaseWait(MaxRetries - 1, MaxRetries, InitialWait, TargetWait) == 44.5
    ensures forall r :: 1 <= r < MaxRetries ==> Retry.BaseWait(r, MaxRetries, InitialWait, TargetWait) < TargetWait
  {
    forall r | 1 <= r < MaxRetries
      ensures Retry.BaseWait(r, MaxRetries, InitialWait, TargetWait) < TargetWait
    {
      Retry.BaseWaitBelowTarget(r, MaxRetries, InitialWait, TargetWait);
    }
  }

  /** The model invocation on `msgs` as a function of the attempt number. */
  function Call(o: Oracles, msgs: seq<Message>): nat -> Retry.Outcome<string> {
    (k: nat) => o.llm(msgs, k)
  }

  /** `retry_for_rate_limit_per_minute(llm.invoke, msgs)`. */
  function Invoke(o: Oracles, msgs: seq<Message>): Retry.RetryResult<string> {
    Retry.RetrySpec(Call(o, msgs), MaxRetries).0
  }

  // ---------------------------------------------------------------------
  // One search iteration
  // ---------------------------------------------------------------------

  /** The loop's variables. `instruction` is the variable `task`;
      `lastResult` is `query_result`, None while it is unbound;
      `openContexts` counts browser contexts created and not closed. */
  datatype State = State(
    iteration: nat,
    historyQuery: seq<string>,
    historyInfos: seq<Record>,
    visited: set<string>,
    searchMessages: seq<Message>,
    recordMessages: seq<Message>,
    instruction: string,
    lastResult: Option<Option<string>>,
    savedFiles: seq<string>,
    openContexts: nat)

  function Initial(task: string): State {
    State(0, [], [], {}, [System(Planner)], [System(Recorder)], task, None, [], 0)
  }

  /** Why the loop stopped: the iteration bound, a `break` (planner reply
      not JSON, no queries, every query already visited), or an exception
      that ends in the outer handler. */
  datatype Exit = LoopEnded | PlanUnparsable | NoQueries | AllVisited | Crashed

  datatype StepResult = Next(state: State) | Stop(state: State, exit: Exit)

  /** The search messages with this iteration's prompt appended. */
  function PlannerMessages(maxIter: int, s: State): seq<Message> {
    s.searchMessages + [Human(SearchPrompt(s.iteration + 1, maxIter, s.instruction, s.historyQuery, s.historyInfos))]
  }

  /** The planner's parsed reply in this iteration, None when the
      invocation raised. */
  function PlanOf(o: Oracles, maxIter: int, s: State): Option<PlanReply> {
    match Invoke(o, SearchWindow(PlannerMessages(maxIter, s)))
    case Returned(reply) => Some(o.parsePlan(Text.StripFences(reply)))
    case _ => None
  }

  /** One pass of the while loop: the planner's prompt and retried
      invocation. */
  function Step(o: Oracles, maxIter: int, s: State): (r: StepResult)
    ensures r.state.iteration == s.iteration + 1
  {
    var msgs := PlannerMessages(maxIter, s);
    var s1 := s.(iteration := s.iteration + 1, searchMessages := msgs);
    var answer := Invoke(o, SearchWindow(msgs));
    if !answer.Returned? then Stop(s1, Crashed)
    else FollowPlan(o, s1.(searchMessages := msgs + [Assistant(answer.value)]), o.parsePlan(Text.StripFences(answer.value)))
  }

  /** The `break`s on the planner's parsed reply, then the dispatch of
      its queries, which join the query history unfiltered. */
  function FollowPlan(o: Oracles, s: State, plan: PlanReply): (r: StepResult)
    ensures r.state.iteration == s.iteration
  {
    match plan
    case Unparsable => Stop(s, PlanUnparsable)
    case Malformed => Stop(s, Crashed)
    case Plan(queries) =>
      if queries == [] then Stop(s, NoQueries)
      else Dispatch(o, s.(historyQuery := s.historyQuery + queries), queries)
  }

  /** The agents for one iteration's kept queries. */
  function Runs(o: Oracles, iteration: nat, kept: seq<string>): (runs: seq<AgentRun>)
    ensures |runs| == |kept|
    ensures forall i :: 0 <= i < |kept| ==> runs[i] == o.agent(iteration, i, kept[i])
  {
    seq(|kept|, i requires 0 <= i < |kept| => o.agent(iteration, i, kept[i]))
  }

  /** Context creation (one per planned query) and the filter; `task`
      is rebound by the filter loop to the last query. */
  function Dispatch(o: Oracles, s: State, queries: seq<string>): (r: StepResult)
    requires queries != []
    ensures r.state.iteration == s.iteration
  {
    AfterFilter(o, s, queries, QueryFilter(queries, s.visited))
  }

  /** What follows the filter, given the kept queries and the new visited
      set it produced. */
  function AfterFilter(o: Oracles, s: State, queries: seq<string>, filtered: (seq<string>, set<string>)): (r: StepResult)
    requires queries != []
    ensures r.state.iteration == s.iteration
  {
    var s3 := s.(visited := filtered.1, instruction := queries[|queries| - 1]);
    if filtered.0 == [] then Stop(s3.(openContexts := s.openContexts + |queries|), AllVisited)
    else RunAgents(o, s3, |queries|, filtered.0)
  }

  /** The agents for the kept queries; the `created` contexts are closed
      once all of them have returned, and stay open when one raises. */
  function RunAgents(o: Oracles, s: State, created: nat, kept: seq<string>): (r: StepResult)
    ensures r.state.iteration == s.iteration
  {
    var runs := Runs(o, s.iteration, kept);
    if Raised in runs then Stop(s.(openContexts := s.openContexts + created), Crashed)
    else SaveResults(o, s, runs)
  }

  /** The save loop; the recorder's prompt needs `query_result` bound. */
  function SaveResults(o: Oracles, s: State, runs: seq<AgentRun>): (r: StepResult)
    ensures r.state.iteration == s.iteration
  {
    var saved := SaveFrom(s.iteration, runs, 0, s.lastResult, s.savedFiles);
    var s4 := s.(lastResult := saved.0, savedFiles := saved.1);
    if saved.0.None? then Stop(s4, Crashed) else RecordStep(o, s4)
  }

  /** The recorder's turn and the tagging of the new records. */
  function RecordStep(o: Oracles, s: State): (r: StepResult)
    requires s.lastResult.Some?
    ensures r.state.iteration == s.iteration
  {
    var msgs := s.recordMessages + [Human(RecordPrompt(s.instruction, s.historyInfos, s.lastResult.value))];
    var s5 := s.(recordMessages := msgs);
    match Invoke(o, RecordWindow(msgs))
    case Returned(reply) =>
      var records := (match o.parseRecords(reply) case Records(rs) => rs case RecordsUnparsable => []);
      Next(s5.(recordMessages := msgs + [Assistant(reply)],
               visited := TagRecords(records, s.visited),
               historyInfos := s.historyInfos + records))
    case _ => Stop(s5, Crashed)
  }

  /** The while loop from state s. */
  function Loop(o: Oracles, maxIter: int, s: State): (State, Exit)
    decreases maxIter - s.iteration
  {
    if s.iteration >= maxIter then (s, LoopEnded)
    else match Step(o, maxIter, s)
      case Stop(f, e) => (f, e)
      case Next(n) => Loop(o, maxIter, n)
  }

  /** What the writer is sent. */
  function WriterMessages(f: State): seq<Message> {
    [System(Writer), Human(ReportPrompt(f.instruction, f.historyInfos))]
  }

  /** What `deep_research` returns: the report's content and path, or
      ("", None). */
  datatype Outcome = Report(content: string) | NoReport

  /** The research run: the loop, then (unless an exception escaped it)
      the writer's invocation on the final instruction and records. */
  function RunResearch(o: Oracles, task: string, maxIter: int): Outcome {
    var (f, exit) := Loop(o, maxIter, Initial(task));
    if exit == Crashed then NoReport
    else match Invoke(o, WriterMessages(f))
      case Returned(content) => Report(content)
      case _ => NoReport
  }

  // ---------------------------------------------------------------------
  // What one iteration guarantees
  // ---------------------------------------------------------------------

  /** Both conversations keep their system prompt in front. */
  predicate Conversations(s: State) {
    && s.searchMessages != [] && s.searchMessages[0] == System(Planner)
    && s.recordMessages != [] && s.recordMessages[0] == System(Recorder)
  }

  /** The planner is sent exactly its system prompt and this iteration's
      prompt, however long the conversation has grown. */
  lemma PlannerWindow(maxIter: int, s: State)
    requires Conversations(s)
    ensures SearchWindow(PlannerMessages(maxIter, s)) ==
      [System(Planner), Human(SearchPrompt(s.iteration + 1, maxIter, s.instruction, s.historyQuery, s.historyInfos))]
  {
  }

  /** The recorder is sent exactly its system prompt and the latest
      prompt. */
  lemma RecorderWindow(s: State, p: Prompt)
    requires Conversations(s)
    ensures RecordWindow(s.recordMessages + [Human(p)]) == [System(Recorder), Human(p)]
  {
  }

  /** `b` only appended to `a`: the histories, the conversations and the
      saved files of `a` are prefixes of `b`'s, and `a`'s visited links are
      among `b`'s. */
  predicate Extends(a: State, b: State) {
    && a.historyQuery <= b.historyQuery
    && a.historyInfos <= b.historyInfos
    && a.searchMessages <= b.searchMessages
    && a.recordMessages <= b.recordMessages
    && a.savedFiles <= b.savedFiles
    && a.visited <= b.visited
  }

  lemma ExtendsTransitive(a: State, b: State, c: State)
    requires Extends(a, b) && Extends(b, c)
    ensures Extends(a, c)
  {
  }

  /** The state once the planner has answered. */
  function Replied(o: Oracles, maxIter: int, s: State): State
    requires Invoke(o, SearchWindow(PlannerMessages(maxIter, s))).Returned?
  {
    var msgs := PlannerMessages(maxIter, s);
    s.(iteration := s.iteration + 1, searchMessages := msgs + [Assistant(Invoke(o, SearchWindow(msgs)).value)])
  }

  /** Where the iteration goes after the planner's invocation. */
  lemma StepCases(o: Oracles, maxIter: int, s: State)
    ensures var answer := Invoke(o, SearchWindow(PlannerMessages(maxIter, s)));
      && (!answer.Returned? ==>
            (PlanOf(o, maxIter, s).None? &&
             Step(o, maxIter, s) == Stop(s.(iteration := s.iteration + 1, searchMessages := PlannerMessages(maxIter, s)), Crashed)))
      && (answer.Returned? ==>
            (PlanOf(o, maxIter, s).Some? &&
             Step(o, maxIter, s) == FollowPlan(o, Replied(o, maxIter, s), PlanOf(o, maxIter, s).value)))
  {
  }

  /** An iteration only appends to the histories, the conversations and
      the saved files, and only adds visited links. */
  lemma StepExtends(o: Oracles, maxIter: int, s: State)
    ensures Extends(s, Step(o, maxIter, s).state)
  {
    var msgs := PlannerMessages(maxIter, s);
    StepCases(o, maxIter, s);
    if Invoke(o, SearchWindow(msgs)).Returned? {
      var s2 := Replied(o, maxIter, s);
      RepliedExtends(o, maxIter, s);
      FollowPlanExtends(o, s2, PlanOf(o, maxIter, s).value);
      ExtendsTransitive(s, s2, Step(o, maxIter, s).state);
    } else {
      var s1 := s.(iteration := s.iteration + 1, searchMessages := msgs);
      assert msgs == s.searchMessages + msgs[|s.searchMessages|..];
      assert Extends(s, s1);
      assert Step(o, maxIter, s).state == s1;
    }
  }

  /** The planner's answer only appends to the search conversation. */
  lemma RepliedExtends(o: Oracles, maxIter: int, s: State)
    requires Invoke(o, SearchWindow(PlannerMessages(maxIter, s))).Returned?
    ensures Extends(s, Replied(o, maxIter, s))
  {
    var msgs := PlannerMessages(maxIter, s);
    var s2 := Replied(o, maxIter, s);
    assert s2.searchMessages == s.searchMessages + (msgs[|s.searchMessages|..] + [s2.searchMessages[|msgs|]]);
  }

  lemma FollowPlanExtends(o: Oracles, s: State, plan: PlanReply)
    ensures Extends(s, FollowPlan(o, s, plan).state)
  {
    if plan.Plan? && plan.queries != [] {
      var s3 := s.(historyQuery := s.historyQuery + plan.queries);
      DispatchExtends(o, s3, plan.queries);
      ExtendsTransitive(s, s3, FollowPlan(o, s, plan).state);
    }
  }

  lemma DispatchExtends(o: Oracles, s: State, queries: seq<string>)
    requires queries != []
    ensures Extends(s, Dispatch(o, s, queries).state)
  {
    FilterVisits(LinkKey, queries, s.visited);
    var kept, visited := QueryFilter(queries, s.visited).0, QueryFilter(queries, s.visited).1;
    if kept != [] {
      var s3 := s.(visited := visited, instruction := queries[|queries| - 1]);
      RunAgentsFacts(o, s3, |queries|, kept);
    }
  }

  /** The agents and the save loop only append saved files, keep the
      histories, fail only by an exception, and complete only with
      `query_result` bound and the contexts closed; with `query_result`
      unbound and no history from any agent they fail. */
  lemma RunAgentsFacts(o: Oracles, s: State, created: nat, kept: seq<string>)
    ensures var r := RunAgents(o, s, created, kept);
      && Extends(s, r.state)
      && r.state.historyQuery == s.historyQuery && r.state.instruction == s.instruction
      && (r.Stop? ==> r.exit == Crashed)
      && (r.Next? ==> r.state.openContexts == s.openContexts && r.state.lastResult.Some?)
      && (s.lastResult.None? && NoHistories(Runs(o, s.iteration, kept)) ==> r.Stop?)
  {
    var runs := Runs(o, s.iteration, kept);
    if Raised !in runs {
      SaveResultsFacts(o, s, runs);
    }
  }

  lemma SaveResultsFacts(o: Oracles, s: State, runs: seq<AgentRun>)
    ensures var r := SaveResults(o, s, runs);
      && Extends(s, r.state)
      && r.state.historyQuery == s.historyQuery && r.state.instruction == s.instruction
      && (r.Stop? ==> r.exit == Crashed)
      && (r.Next? ==> r.state.openContexts == s.openContexts && r.state.lastResult.Some?)
      && (s.lastResult.None? && NoHistories(runs) ==> r.Stop?)
  {
    SaveFromFiles(s.iteration, runs, 0, s.lastResult, s.savedFiles);
    SaveFromResult(s.iteration, runs, 0, s.lastResult, s.savedFiles);
    var last, files := SaveFrom(s.iteration, runs, 0, s.lastResult, s.savedFiles).0, SaveFrom(s.iteration, runs, 0, s.lastResult, s.savedFiles).1;
    if last.Some? {
      RecordStepExtends(o, s.(lastResult := last, savedFiles := files));
      RecordStepKeeps(o, s.(lastResult := last, savedFiles := files));
    }
    if s.lastResult.None? && NoHistories(runs) {
      assert forall j :: 0 <= j < |runs| ==> runs[j] in runs;
    }
  }

  lemma RecordStepExtends(o: Oracles, s: State)
    requires s.lastResult.Some?
    ensures Extends(s, RecordStep(o, s).state)
  {
    var msgs := s.recordMessages + [Human(RecordPrompt(s.instruction, s.historyInfos, s.lastResult.value))];
    match Invoke(o, RecordWindow(msgs))
    case Returned(reply) =>
      var records := (match o.parseRecords(reply) case Records(rs) => rs case RecordsUnparsable => []);
      TagRecordsMeaning(records, s.visited);
    case _ =>
  }

  /** The queries a parsed reply holds. */
  function QueriesOf(plan: PlanReply): seq<string> {
    if plan.Plan? then plan.queries else []
  }

  /** The queries the planner adds in this iteration: all of them, before
      any filtering, or none when it gave no usable plan. */
  function Planned(o: Oracles, maxIter: int, s: State): seq<string> {
    if PlanOf(o, maxIter, s).Some? then QueriesOf(PlanOf(o, maxIter, s).value) else []
  }

  /** The `break`s act on the parsed reply as the source says, the query
      history grows by the full plan, and `task` ends as the plan's last
      query. */
  lemma FollowPlanFacts(o: Oracles, s: State, plan: PlanReply)
    ensures var r := FollowPlan(o, s, plan);
      && r.state.historyQuery == s.historyQuery + QueriesOf(plan)
      && (r == Stop(r.state, PlanUnparsable) <==> plan == Unparsable)
      && (r == Stop(r.state, NoQueries) <==> plan == Plan([]))
      && (plan == Malformed ==> r == Stop(r.state, Crashed))
      && (r.Next? || r.exit == AllVisited ==> QueriesOf(plan) != [])
      && (if QueriesOf(plan) == [] then r.state.instruction == s.instruction
          else r.state.instruction == QueriesOf(plan)[|QueriesOf(plan)| - 1])
  {
    if plan.Plan? && plan.queries != [] {
      DispatchKeeps(o, s.(historyQuery := s.historyQuery + plan.queries), plan.queries);
    }
  }

  /** The iteration's outcome is decided by the planner's reply as the
      source's `break`s say, the query history grows by the full plan, and
      `task` ends as the plan's last query. */
  lemma StepPlan(o: Oracles, maxIter: int, s: State)
    ensures var r := Step(o, maxIter, s);
      && r.state.historyQuery == s.historyQuery + Planned(o, maxIter, s)
      && (r == Stop(r.state, PlanUnparsable) <==> PlanOf(o, maxIter, s) == Some(Unparsable))
      && (r == Stop(r.state, NoQueries) <==> PlanOf(o, maxIter, s) == Some(Plan([])))
      && (PlanOf(o, maxIter, s).None? || PlanOf(o, maxIter, s) == Some(Malformed) ==> r == Stop(r.state, Crashed))
      && (r.Next? || r.exit == AllVisited ==> Planned(o, maxIter, s) != [])
      && (if Planned(o, maxIter, s) == [] then r.state.instruction == s.instruction
          else r.state.instruction == Planned(o, maxIter, s)[|Planned(o, maxIter, s)| - 1])
  {
    StepCases(o, maxIter, s);
    if PlanOf(o, maxIter, s).Some? {
      FollowPlanFacts(o, Replied(o, maxIter, s), PlanOf(o, maxIter, s).value);
    }
  }

  lemma DispatchKeeps(o: Oracles, s: State, queries: seq<string>)
    requires queries != []
    ensures var r := Dispatch(o, s, queries);
      && r.state.historyQuery == s.historyQuery
      && r.state.instruction == queries[|queries| - 1]
      && (r.Stop? ==> r.exit == AllVisited || r.exit == Crashed)
  {
    var kept, visited := QueryFilter(queries, s.visited).0, QueryFilter(queries, s.visited).1;
    if kept != [] {
      RunAgentsFacts(o, s.(visited := visited, instruction := queries[|queries| - 1]), |queries|, kept);
    }
  }

  /** The recorder's turn ends the iteration normally unless its
      invocation raises; it keeps the contexts and `query_result`. */
  lemma RecordStepKeeps(o: Oracles, s: State)
    requires s.lastResult.Some?
    ensures var r := RecordStep(o, s);
      && (r.Stop? ==> r.exit == Crashed)
      && r.state.openContexts == s.openContexts
      && r.state.lastResult == s.lastResult
  {
  }

  /** The recorder's turn: the iteration completes exactly when the
      recorder answers; its parsed items join `history_infos` and their
      URLs are reserved; an unparsable answer adds no item and no link;
      a raised invocation changes neither. */
  lemma RecordStepMeaning(o: Oracles, s: State)
    requires s.lastResult.Some?
    ensures var msgs := s.recordMessages + [Human(RecordPrompt(s.instruction, s.historyInfos, s.lastResult.value))];
      var answer := Invoke(o, RecordWindow(msgs));
      var r := RecordStep(o, s);
      && (r.Next? <==> answer.Returned?)
      && (r.Stop? ==> r.exit == Crashed && r.state.historyInfos == s.historyInfos && r.state.visited == s.visited)
      && (answer.Returned? && o.parseRecords(answer.value).RecordsUnparsable? ==>
            r.state.historyInfos == s.historyInfos && r.state.visited == s.visited)
      && (answer.Returned? && o.parseRecords(answer.value).Records? ==>
            var records := o.parseRecords(answer.value).records;
            && r.state.historyInfos == s.historyInfos + records
            && (forall rec :: rec in records && rec.url.Some? && rec.url.value != "unknown" ==>
                  Url.Normalize(rec.url.value) in r.state.visited)
            && (forall x :: x in r.state.visited ==>
                  (x in s.visited || exists rec :: rec in records && rec.url.Some? && rec.url.value != "unknown" && x == Url.Normalize(rec.url.value))))
  {
    var msgs := s.recordMessages + [Human(RecordPrompt(s.instruction, s.historyInfos, s.lastResult.value))];
    var answer := Invoke(o, RecordWindow(msgs));
    if answer.Returned? {
      match o.parseRecords(answer.value)
      case Records(rs) => TagRecordsMeaning(rs, s.visited);
      case RecordsUnparsable => TagByAdds(RecordKey, [], s.visited);
    }
  }

  /** Extending a state keeps its conversations' system prompts. */
  lemma ExtendsConversations(a: State, b: State)
    requires Conversations(a) && Extends(a, b)
    ensures Conversations(b)
  {
    assert b.searchMessages[0] == b.searchMessages[..|a.searchMessages|][0];
    assert b.recordMessages[0] == b.recordMessages[..|a.recordMessages|][0];
  }

  /** For any key: the dispatch stops with AllVisited exactly when every
      query has a key visited before, and then reserves nothing and leaves
      the contexts made for the queries open. */
  lemma AfterFilterAllVisited(key: string -> Option<string>, o: Oracles, s: State, queries: seq<string>)
    requires queries != []
    ensures var r := AfterFilter(o, s, queries, FilterBy(key, queries, s.visited));
      && (r == Stop(r.state, AllVisited) <==> forall q :: q in queries ==> key(q).Some? && key(q).value in s.visited)
      && (r == Stop(r.state, AllVisited) ==> r.state.visited == s.visited && r.state.openContexts == s.openContexts + |queries|)
  {
    FilterEmpty(key, queries, s.visited);
    FilterVisits(key, queries, s.visited);
    var kept, visited := FilterBy(key, queries, s.visited).0, FilterBy(key, queries, s.visited).1;
    if kept != [] {
      RunAgentsFacts(o, s.(visited := visited, instruction := queries[|queries| - 1]), |queries|, kept);
    } else {
      assert Keys(key, queries) <= s.visited;
    }
  }

  /** AllVisited ends the dispatch exactly when every query is a URL
      visited before; nothing is reserved then, and the contexts made for
      the queries stay open. */
  lemma DispatchAllVisited(o: Oracles, s: State, queries: seq<string>)
    requires queries != []
    ensures var r := Dispatch(o, s, queries);
      && (r == Stop(r.state, AllVisited) <==> forall q :: q in queries ==> Url.IsUrl(q) && Url.Normalize(q) in s.visited)
      && (r == Stop(r.state, AllVisited) ==> r.state.visited == s.visited && r.state.openContexts == s.openContexts + |queries|)
  {
    AfterFilterAllVisited(LinkKey, o, s, queries);
    assert forall q :: LinkKey(q).Some? && LinkKey(q).value in s.visited <==> Url.IsUrl(q) && Url.Normalize(q) in s.visited;
  }

  /** For any key: past the filter every query's key is reserved, whatever
      happens next. */
  lemma AfterFilterReserves(key: string -> Option<string>, o: Oracles, s: State, queries: seq<string>)
    requires queries != []
    ensures var r := AfterFilter(o, s, queries, FilterBy(key, queries, s.visited));
      forall q :: q in queries && key(q).Some? ==> key(q).value in r.state.visited
  {
    FilterVisits(key, queries, s.visited);
    var kept, visited := FilterBy(key, queries, s.visited).0, FilterBy(key, queries, s.visited).1;
    if kept != [] {
      RunAgentsFacts(o, s.(visited := visited, instruction := queries[|queries| - 1]), |queries|, kept);
    }
  }

  /** Past the filter the normalized form of every URL query is
      reserved, whatever happens next. */
  lemma DispatchReserves(o: Oracles, s: State, queries: seq<string>)
    requires queries != []
    ensures var r := Dispatch(o, s, queries);
      forall q :: q in queries && Url.IsUrl(q) ==> Url.Normalize(q) in r.state.visited
  {
    AfterFilterReserves(LinkKey, o, s, queries);
    forall q | q in queries && Url.IsUrl(q) ensures Url.Normalize(q) in Dispatch(o, s, queries).state.visited {
      assert LinkKey(q).Some?;
    }
  }

  /** An iteration completes only with `query_result` bound and every
      context closed; when `query_result` is still unbound and no agent
      returns a history, the recorder's prompt cannot be built and the
      run fails. */
  lemma DispatchCompletes(o: Oracles, s: State, queries: seq<string>)
    requires queries != []
    ensures var r := Dispatch(o, s, queries);
      && (r.Next? ==> r.state.openContexts == s.openContexts && r.state.lastResult.Some?)
      && (s.lastResult.None? && QueryFilter(queries, s.visited).0 != [] && NoHistories(Runs(o, s.iteration, QueryFilter(queries, s.visited).0))
          ==> r.Stop? && r.exit == Crashed)
  {
    var kept, visited := QueryFilter(queries, s.visited).0, QueryFilter(queries, s.visited).1;
    if kept != [] {
      var s3 := s.(visited := visited, instruction := queries[|queries| - 1]);
      RunAgentsFacts(o, s3, |queries|, kept);
      assert Dispatch(o, s, queries) == RunAgents(o, s3, |queries|, kept);
    }
  }

  /** No agent returned a history. */
  predicate NoHistories(runs: seq<AgentRun>) {
    forall run :: run in runs ==> run == NoHistory
  }

  /** The dispatch facts for a parsed reply. */
  lemma FollowPlanDispatch(o: Oracles, s: State, plan: PlanReply)
    ensures var r := FollowPlan(o, s, plan);
      var queries := QueriesOf(plan);
      && (r == Stop(r.state, AllVisited) <==>
            queries != [] && forall q :: q in queries ==> Url.IsUrl(q) && Url.Normalize(q) in s.visited)
      && (r == Stop(r.state, AllVisited) ==> r.state.visited == s.visited && r.state.openContexts == s.openContexts + |queries|)
      && (r.Next? ==> queries != [] && r.state.openContexts == s.openContexts && r.state.lastResult.Some?)
      && (r.Next? ==> forall q :: q in queries && Url.IsUrl(q) ==> Url.Normalize(q) in r.state.visited)
  {
    if plan.Plan? && plan.queries != [] {
      var s3 := s.(historyQuery := s.historyQuery + plan.queries);
      DispatchAllVisited(o, s3, plan.queries);
      DispatchReserves(o, s3, plan.queries);
      DispatchCompletes(o, s3, plan.queries);
    }
  }

  /** The outcome of an iteration that reaches the dispatch, in terms of
      the state it started from. */
  lemma StepDispatch(o: Oracles, maxIter: int, s: State)
    ensures var r := Step(o, maxIter, s);
      var queries := Planned(o, maxIter, s);
      && (r == Stop(r.state, AllVisited) <==>
            queries != [] && forall q :: q in queries ==> Url.IsUrl(q) && Url.Normalize(q) in s.visited)
      && (r == Stop(r.state, AllVisited) ==> r.state.visited == s.visited && r.state.openContexts == s.openContexts + |queries|)
      && (r.Next? ==> queries != [] && r.state.openContexts == s.openContexts && r.state.lastResult.Some?)
      && (r.Next? ==> forall q :: q in queries && Url.IsUrl(q) ==> Url.Normalize(q) in r.state.visited)
  {
    StepCases(o, maxIter, s);
    if PlanOf(o, maxIter, s).Some? {
      FollowPlanDispatch(o, Replied(o, maxIter, s), PlanOf(o, maxIter, s).value);
    }
  }

  // ---------------------------------------------------------------------
  // What the loop and the run guarantee
  // ---------------------------------------------------------------------

  /** The loop runs at most up to `maxIter` iterations, and ends by the
      bound exactly when it has run them all. */
  lemma {:induction false} LoopBounds(o: Oracles, maxIter: int, s: State)
    ensures var f, e := Loop(o, maxIter, s).0, Loop(o, maxIter, s).1;
      && (s.iteration >= maxIter ==> f == s && e == LoopEnded)
      && (s.iteration < maxIter ==> s.iteration < f.iteration <= maxIter)
      && (e == LoopEnded && s.iteration < maxIter ==> f.iteration == maxIter)
    decreases maxIter - s.iteration
  {
    if s.iteration < maxIter {
      var r := Step(o, maxIter, s);
      if r.Next? {
        LoopBounds(o, maxIter, r.state);
      }
    }
  }

  /** Over the whole loop the histories, conversations and saved files
      only grow at the end and visited links are never forgotten. */
  lemma {:induction false} LoopExtends(o: Oracles, maxIter: int, s: State)
    ensures Extends(s, Loop(o, maxIter, s).0)
    decreases maxIter - s.iteration
  {
    if s.iteration < maxIter {
      var r := Step(o, maxIter, s);
      StepExtends(o, maxIter, s);
      if r.Next? {
        LoopExtends(o, maxIter, r.state);
        ExtendsTransitive(s, r.state, Loop(o, maxIter, r.state).0);
      }
    }
  }

  /** An element of the part `b` adds to `a` is in the part `c` adds to
      `a`, when a, b, c extend each other. */
  lemma InAddedPart(a: seq<string>, b: seq<string>, c: seq<string>, x: string)
    requires a <= b <= c
    ensures x in b[|a|..] ==> x in c[|a|..]
    ensures x in c[|b|..] ==> x in c[|a|..]
  {
    if x in b[|a|..] {
      var k :| 0 <= k < |b[|a|..]| && b[|a|..][k] == x;
      assert c[|a|..][k] == x;
    }
    if x in c[|b|..] {
      var k :| 0 <= k < |c[|b|..]| && c[|b|..][k] == x;
      assert c[|a|..][|b| - |a| + k] == x;
    }
  }

  /** After an iteration `task` is what it was or one of the queries the
      iteration planned. */
  lemma StepInstruction(o: Oracles, maxIter: int, s: State)
    ensures var r := Step(o, maxIter, s).state;
      && s.historyQuery <= r.historyQuery
      && (r.instruction == s.instruction || r.instruction in r.historyQuery[|s.historyQuery|..])
  {
    StepPlan(o, maxIter, s);
    InstructionFromPlan(s, Step(o, maxIter, s).state, Planned(o, maxIter, s));
  }

  lemma InstructionFromPlan(s: State, r: State, qs: seq<string>)
    requires r.historyQuery == s.historyQuery + qs
    requires if qs == [] then r.instruction == s.instruction else r.instruction == qs[|qs| - 1]
    ensures s.historyQuery <= r.historyQuery
    ensures r.instruction == s.instruction || r.instruction in r.historyQuery[|s.historyQuery|..]
  {
    assert r.historyQuery[|s.historyQuery|..] == qs;
  }

  /** After the loop `task` is the original instruction or one of the
      queries planned during the loop. */
  lemma {:induction false} LoopInstruction(o: Oracles, maxIter: int, s: State)
    ensures var f := Loop(o, maxIter, s).0;
      && s.historyQuery <= f.historyQuery
      && (f.instruction == s.instruction || f.instruction in f.historyQuery[|s.historyQuery|..])
    decreases maxIter - s.iteration
  {
    LoopExtends(o, maxIter, s);
    if s.iteration < maxIter {
      var r := Step(o, maxIter, s);
      StepInstruction(o, maxIter, s);
      StepExtends(o, maxIter, s);
      if r.Next? {
        var f := Loop(o, maxIter, r.state).0;
        LoopInstruction(o, maxIter, r.state);
        LoopExtends(o, maxIter, r.state);
        InAddedPart(s.historyQuery, r.state.historyQuery, f.historyQuery, f.instruction);
      }
    }
  }

  /** A report is produced exactly when no exception escaped the loop and
      the writer answered, and it is the writer's answer; the writer sees
      the research instruction or, once a plan was dispatched, the last
      planned query. */
  lemma ResearchMeaning(o: Oracles, task: string, maxIter: int)
    ensures var f, e := Loop(o, maxIter, Initial(task)).0, Loop(o, maxIter, Initial(task)).1;
      && (RunResearch(o, task, maxIter).Report? <==> e != Crashed && Invoke(o, WriterMessages(f)).Returned?)
      && (RunResearch(o, task, maxIter).Report? ==> RunResearch(o, task, maxIter).content == Invoke(o, WriterMessages(f)).value)
      && (f.instruction == task || f.instruction in f.historyQuery)
      && f.iteration <= (if maxIter < 0 then 0 else maxIter)
      && Conversations(f)
  {
    LoopInstruction(o, maxIter, Initial(task));
    LoopBounds(o, maxIter, Initial(task));
    LoopExtends(o, maxIter, Initial(task));
    ExtendsConversations(Initial(task), Loop(o, maxIter, Initial(task)).0);
  }

  /** When the planner's first invocation exhausts its retries, no report
      is written at all: the exception escapes the loop. */
  lemma PlannerExhaustedNoReport(o: Oracles, task: string, maxIter: int)
    requires maxIter >= 1
    requires Invoke(o, SearchWindow(PlannerMessages(maxIter, Initial(task)))).Exhausted?
    ensures RunResearch(o, task, maxIter) == NoReport
  {
    var s := Initial(task);
    StepCases(o, maxIter, s);
    var r := Step(o, maxIter, s);
    assert r.Stop? && r.exit == Crashed;
    assert Loop(o, maxIter, s) == (r.state, Crashed);
  }
}
