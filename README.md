# Deep research loop: a Dafny model

This project models the bookkeeping core of `src/utils/deep_research.py`, the
"deep research" driver of a browser-using research agent. The driver asks a
planner model for search queries. It drops queries whose URL was already
visited, runs one browsing agent per remaining query, saves the agents'
results, and asks a recorder model to turn them into records. It repeats
this for a bounded number of iterations. Then it asks a writer model for the
final report. Every model call goes through a rate-limit retry wrapper.

The model has seven modules:

- `Common` (common.dfy): `Option` and ASCII case mapping.
- `Url` (url.dfy): a total stand-in for `urlparse`/`urlunparse`, following
  CPython 3.12's `urlsplit` and `_splitparams`, and `normalize_url` built on
  it. It covers:
  - leading C0/space stripping;
  - tab/CR/LF removal;
  - the scheme;
  - the `//` network location;
  - the bracket check that raises `ValueError`;
  - query and fragment;
  - `;params` on the last path segment for the schemes that use them.
- `Retry` (retry.dfy): `retry_for_rate_limit_per_minute`, as a method with
  its `while` loop over the retry counter, proved against the function
  `RetrySpec`. It includes the linear wait schedule and its jitter.
- `Text` (text.dfy): Python's `str.replace`, the planner reply's fence
  stripping, `str(n)`, and the per-query result file name.
- `Cookies` (cookies.dfy): the conversion of a stored browser cookie into a
  browsing-context cookie.
- `Research` (research.dfy): the specification of the loop as functions on a
  `State` value holding the loop's variables, plus the lemmas about it:
  - `visited_links`, the two histories and the two conversations;
  - `task` and `query_result`;
  - the saved files and the browser contexts left open.
- `ResearchLoop` (research_loop.dfy): the body of `deep_research` as
  methods, one for each loop and each retried model call. Each method is
  proved to compute the `Research` function it implements.

The outside world is passed in as one `Oracles` value:

- the chat model (`llm(msgs, k)` is the outcome of the (k+1)-th attempt on
  `msgs`);
- the planner-reply parser;
- the record-reply parser;
- the browsing agents.

Sleeping is a returned list of waits. The jitter is an arbitrary factor in
[0.9, 1.1].

## Where the code and its description differ

The model follows the code:

- **`task` is rebound.** The query filter loop reuses the name `task` (:302).
  From the first dispatch on, these prompts see the last planned query, not
  the user's instruction (`LoopInstruction`, `ResearchMeaning`):
  - the planner's prompt (:248), from iteration 2;
  - the recorder's prompt (:361);
  - the writer's prompt (:431).
- **An escaped exception means no report.** If a model call exhausts its
  retries, or any other exception escapes the loop, control goes to the
  outer handler (:451). The function then returns ("", None), and the writer
  is never asked (`ResearchMeaning`, `PlannerExhaustedNoReport`).
- **No wait with `max_retries = 1`.** The wrapper raises after the first
  quota failure (:66-68), so the branch at :71-72 is dead (`RetryForRateLimit`
  ensures waits occur only when `maxRetries >= 2`).
- **The target wait is never slept.** The wrapper's description says the
  wait approaches `target_wait_time` by the last retry. The schedule reaches
  the target only after the `max_retries`-th quota failure, and that failure
  raises at :66-68 without sleeping. The last wait slept is the one after
  failure `max_retries - 1`. With the defaults that is 1 + 58 · 3/4 = 44.5
  seconds before jitter, not 59 (`BaseWaitBelowTarget`, `DefaultWaits`).
- **The `is None` checks are dead.** The checks at :255, :368 and :436 never
  fire, because a failed call raises instead of returning None.
- **`query_result` can be unbound.** It is bound only by a saved result. If
  no agent returned a history in the first dispatching iteration, building
  the recorder's prompt raises, and the run ends with no report
  (`DispatchCompletes`).
- **Contexts can stay open.** Contexts are created for every planned query,
  before filtering (:292-297). They stay open when every query was already
  visited (:317-319), and when an agent raises (`openContexts`,
  `DispatchAllVisited`, `RunAgentsFacts`).
- **`normalize_url` is not idempotent.** A second normalization changes:
  - paths ending in `//`;
  - paths whose trimmed last segment exposes a `;params` part, such as
    `http://h/a;b/` (`NormalizeIdempotent`).
- **Only the planner's reply is fence-stripped.** The recorder's reply is
  not.

## Model

| member | source | states |
|---|---|---|
| Url.ParamsCutWellFormed | src/utils/deep_research.py:30 | urlparse's `;params` cut of a well-formed urlsplit result leaves a well-formed result |
| Url.Split | src/utils/deep_research.py:30 | urlsplit either raises (None) or yields a scheme of scheme characters, a network location free of '/', '?', '#', a path free of '?', '#' and starting with '/' after a network location, and no tab, CR or LF (the parts are tied to the input by SplitReassembles) |
| Url.SplitReassembles | src/utils/deep_research.py:30 | urlsplit raises exactly when the network location has unbalanced brackets; otherwise the scheme is the lower-cased text before the first ':' (or empty, and then nothing was cut), the network location follows a leading "//", the query holds no '#' and is empty unless a '?' comes before any '#', the fragment is empty unless there is a '#', and path, "?" query and "#" fragment put back together give the rest of the cleaned input |
| Url.SplitOnceJoin | src/utils/deep_research.py:30 | a string cut at the first occurrence of a character is the part before, then that character and the part after when it occurs |
| Url.QueryFragmentReassemble | src/utils/deep_research.py:30 | cutting at the first '#' and then at the first '?' loses nothing: path, "?" query and "#" fragment rebuild the string |
| Url.ParseReassembles | src/utils/deep_research.py:30 | urlparse raises exactly when urlsplit does and shares its scheme, network location, query and fragment; for the schemes that use params a path with a ';' in its last segment is the cut path, ";" and the params, and any other path is kept with empty params |
| Url.Parse | src/utils/deep_research.py:30 | urlparse's result is well formed as above, and no `;params` remain in the last path segment for the schemes that use them |
| Url.SplitParams | src/utils/deep_research.py:30 | the path is cut at the first ';' of its last segment: when that segment holds a ';', the path is the cut path, ";" and the params, and the cut is not before the segment's start; a path without params is kept whole |
| Url.IsUrl | src/utils/deep_research.py:30-33 | the test `normalize_url` applies: it parses, with a scheme and a network location (how Normalize then treats URLs and non-URLs is stated by Normalize) |
| Url.Unparse | src/utils/deep_research.py:35 | urlunparse of a scheme, a non-empty network location and a path; its shape is stated by RebuildShape, and SplitBuilt/ParseBuilt parse it back |
| Url.Rebuild | src/utils/deep_research.py:35-38 | urlunparse followed by the trailing-'/' cut; RebuildShape states it is scheme "://" netloc plus the trimmed path with no '?' or '#' |
| Url.TrimSlash | src/utils/deep_research.py:36-38 | exactly one trailing '/' is removed, and only when the path is not "/" |
| Url.Normalize | src/utils/deep_research.py:27-41 | a string that is not a URL (parse error, no scheme or no network location) comes back unchanged; a URL becomes scheme "://" netloc plus the trimmed path, with params, query and fragment dropped, so no '?' or '#' remains |
| Url.RebuildShape | src/utils/deep_research.py:35-38 | urlunparse of (scheme, netloc, path) with the trailing '/' cut equals scheme "://" netloc plus the trimmed path, and contains no '?' or '#' |
| Url.SplitBuilt | src/utils/deep_research.py:30 | splitting scheme "://" netloc path gives back exactly those three parts, with no query and no fragment |
| Url.ParseBuilt | src/utils/deep_research.py:30 | parsing scheme "://" netloc path gives back the parts, with the path's `;params` cut off for the schemes that use them |
| Url.ParamsDropped | src/utils/deep_research.py:30-37 | for every scheme in urlparse's params list (CPython 3.12's, rtsps included), normalizing a URL whose last path segment holds a ';' keeps only the strictly shorter path before that ';' |
| Url.NormalizeTwice | src/utils/deep_research.py:27-41 | a normalized URL is again a URL, and normalizing it again trims the params-cut, once-trimmed path a second time |
| Url.TrimStable | src/utils/deep_research.py:36-38 | the second trim changes nothing exactly for stable paths (no trailing "//", no params exposed by the trim), and otherwise shortens the path |
| Url.NormalizeIdempotent | src/utils/deep_research.py:27-41 | normalizing twice equals normalizing once if and only if the path is stable; otherwise the second result is strictly shorter |
| Retry.Linear | src/utils/deep_research.py:71-74 | the uncapped schedule: `target` when maxRetries <= 1, else linear from `initial` at r = 1 to `target` at r = maxRetries (BaseWaitEnds, BaseWaitMonotone) |
| Retry.Clamp | src/utils/deep_research.py:76-77 | the cap at `target` and the floor at 0, whose effect is stated by BaseWaitBounds |
| Retry.BaseWait | src/utils/deep_research.py:71-77 | the unjittered wait after the r-th quota failure; its range, ends, monotonicity and the bound below target are stated by BaseWaitBounds, BaseWaitEnds, BaseWaitMonotone and BaseWaitBelowTarget |
| Retry.BaseWaitBounds | src/utils/deep_research.py:71-77 | every unjittered wait lies in [0, target], and is 0 when target is negative |
| Retry.BaseWaitEnds | src/utils/deep_research.py:74 | the schedule starts at `initial` (the wait after the first quota failure) and reaches `target` at r = maxRetries, the failure after which the wrapper raises without sleeping, when 0 <= initial <= target |
| Retry.BaseWaitBelowTarget | src/utils/deep_research.py:66-77 | with 0 <= initial < target, every wait actually slept (after the r-th failure, r < maxRetries) is strictly below `target` |
| Retry.BaseWaitMonotone | src/utils/deep_research.py:74-77 | with initial <= target the waits never decrease from one quota failure to the next |
| Retry.Attempts | src/utils/deep_research.py:60-89 | the loop from attempt k on: stops on a value or another error, counts on after a quota error, exhausts at maxRetries; its meaning is stated by AttemptsMeaning |
| Retry.RetrySpec | src/utils/deep_research.py:44-89 | the wrapper's outcome and call count, from attempt 0; stated by RetryMeaning, and RetryForRateLimit's loop computes it |
| Retry.AttemptsMeaning | src/utils/deep_research.py:60-89 | from any attempt reached through quota errors: every call but the last raised a quota error, a value is returned unchanged, another error propagates at once, and exhaustion follows exactly maxRetries quota errors |
| Retry.RetryMeaning | src/utils/deep_research.py:60-89 | the wrapper makes between 1 and maxRetries calls (none when maxRetries <= 0, and then raises); it returns the first successful value unchanged, re-raises the first non-quota error, and raises after maxRetries quota errors |
| Retry.RetryForRateLimit | src/utils/deep_research.py:44-89 | the loop's outcome and call count are RetrySpec's; it sleeps exactly calls - 1 times, only when maxRetries >= 2, each wait within 10% of the r-th scheduled wait |
| Text.Replace | src/utils/deep_research.py:266 | `str.replace`: every non-overlapping occurrence, scanned from the left, is replaced; ReplaceAbsent, KeepsFirst, KeepsFirstTwo and NoFenceLeft state what it keeps and what it leaves |
| Text.ReplaceAbsent | src/utils/deep_research.py:266 | `replace` of a pattern that does not occur returns the string unchanged |
| Text.NoFenceLeft | src/utils/deep_research.py:266 | after `replace("```", "")` no run of three backticks remains |
| Text.StripFences | src/utils/deep_research.py:266 | the stripped planner reply contains no "```" |
| Text.StripFencesNoBackticks | src/utils/deep_research.py:266 | a reply without backticks passes through unchanged |
| Text.NatToString | src/utils/deep_research.py:349 | `str(n)` is a non-empty string of decimal digits |
| Text.NatToStringInjective | src/utils/deep_research.py:349 | different numbers print differently |
| Text.ResultFileName | src/utils/deep_research.py:349 | the name "{iteration}-{i}.md" of a saved result; ResultFileNameInjective states that it names one (iteration, index) pair |
| Text.ResultFileNameInjective | src/utils/deep_research.py:349 | "{iteration}-{i}.md" determines iteration and index, so no two (iteration, index) pairs share a file |
| Cookies.Capitalize | src/utils/deep_research.py:204 | `str.capitalize` on ASCII: the first letter upper case, the rest lower case; CapitalizeCaseInsensitive and SameSiteKeepsLetters state its meaning |
| Cookies.CapitalizeCaseInsensitive | src/utils/deep_research.py:204 | `capitalize` ignores the case of its input and is idempotent |
| Cookies.SameSiteOf | src/utils/deep_research.py:204 | the SameSite value is never empty, and is "Lax" when the stored one is missing or empty |
| Cookies.SameSiteKeepsLetters | src/utils/deep_research.py:204 | a present SameSite value keeps its length and its letters up to case |
| Cookies.SameSiteCanonical | src/utils/deep_research.py:204 | "strict", "lax" and "none" in any case become "Strict", "Lax" and "None" |
| Cookies.ToContextCookie | src/utils/deep_research.py:196-205 | name, value, domain, path and flags are copied; expiry -1 (a session cookie) becomes missing and any other expiry is kept; sameSite is SameSiteOf of the stored value |
| Cookies.ToContextCookies | src/utils/deep_research.py:195-206 | the list is converted element by element, in order |
| Research.LinkKey | src/utils/deep_research.py:304-306 | a query has a visited key exactly when it parses with a scheme and a network location, and the key is its normalized form |
| Research.FilterBy | src/utils/deep_research.py:301-314 | the filter loop over any key function: a query is kept when it has no key or its key is not yet visited, and then its key is reserved; FilterSnoc states each step, the Filter lemmas below the result |
| Research.FilterSnoc | src/utils/deep_research.py:301-314 | one more planned query q: it is appended to the kept ones exactly when it has no key or its key is not yet visited, and its key (if any) joins visited |
| Research.QueryFilter | src/utils/deep_research.py:301-314 | the filter with URL keys; QueryFilterStep and QueryFilterMeaning state it |
| Research.QueryFilterStep | src/utils/deep_research.py:302-314 | one more planned query q: it is kept exactly when it is not a URL or its normalized form is not yet visited, so the first of several duplicates is the one kept; a URL's normalized form joins visited |
| Research.FilterSubsequence | src/utils/deep_research.py:301-314 | the kept queries are an order-preserving subsequence of the planned ones |
| Research.FilterKeepsUnkeyed | src/utils/deep_research.py:301-314 | every query without a key (not a URL) is kept, in order |
| Research.FilterVisits | src/utils/deep_research.py:307-311 | after the filter, visited is the old set plus the keys of all planned queries |
| Research.FilterReserves | src/utils/deep_research.py:301-314 | every kept query's key was not visited before, no two kept queries share a key, and the kept keys are exactly the planned keys not visited before |
| Research.FilterDistinct | src/utils/deep_research.py:301-314 | no two kept queries share a key |
| Research.FilterKeys | src/utils/deep_research.py:301-314 | the kept queries' keys are exactly the planned queries' keys that were not visited before |
| Research.FilterEmpty | src/utils/deep_research.py:301-319 | nothing is kept if and only if every planned query has a key that was already visited |
| Research.QueryFilterMeaning | src/utils/deep_research.py:301-314 | for URLs: kept queries are a subsequence, non-URL queries are always kept, a kept URL's normalized form was not visited before, kept URLs have distinct normalized forms, the kept URLs' normalized forms are exactly the planned ones not visited before, and every URL's normalized form ends up visited |
| Research.UnkeyedMember | src/utils/deep_research.py:301-314 | a query without a key is among the unkeyed queries exactly when it is among the queries |
| Research.RecordKey | src/utils/deep_research.py:384-385 | a record has a visited key exactly when its url is present and not "unknown", and the key is the normalized url |
| Research.TagBy | src/utils/deep_research.py:383-386 | the tagging loop over any key function: each record's key joins visited; TagByAdds states the result |
| Research.TagRecords | src/utils/deep_research.py:383-386 | the tagging loop with record keys; TagRecordsMeaning states it |
| Research.TagByAdds | src/utils/deep_research.py:383-386 | tagging adds exactly the keys of the new records to visited |
| Research.TagRecordsMeaning | src/utils/deep_research.py:383-386 | visited only grows; it gains the normalized url of every record whose url is present and not "unknown", and nothing else |
| Research.SaveFrom | src/utils/deep_research.py:345-357 | the save loop from agent i on; SaveFromResult and SaveFromFiles state its `query_result` and files |
| Research.SaveFromResult | src/utils/deep_research.py:345-348 | after the save loop `query_result` is the final result of the last agent that returned a history, or is unchanged when none did |
| Research.SaveFromFiles | src/utils/deep_research.py:345-357 | the save loop appends one "{iteration}-{i}.md" file for each agent with a history, and no others; the new files are distinct |
| Research.Invoke | src/utils/deep_research.py:254 | a model call through the retry wrapper with its defaults; RetryMeaning states its outcome and DefaultWaits its waits |
| Research.DefaultWaits | src/utils/deep_research.py:44-77 | with the defaults (5 retries, 1 to 59 seconds) the slept waits run from 1 to 44.5 seconds before jitter, all below the 59-second target |
| Research.SearchWindow | src/utils/deep_research.py:254 | the planner is sent the conversation's first message and its last one, never the first twice |
| Research.RecordWindow | src/utils/deep_research.py:366 | the recorder is sent the first message and the last one, and a lone first message twice |
| Research.PlannerWindow | src/utils/deep_research.py:246-254 | however long the conversation, the planner is sent exactly its system prompt and this iteration's prompt |
| Research.RecorderWindow | src/utils/deep_research.py:360-366 | the recorder is sent exactly its system prompt and the latest prompt |
| Research.ExtendsConversations | src/utils/deep_research.py:180-181 | appending to the conversations keeps their system prompts in front |
| Research.Step | src/utils/deep_research.py:239-240 | each pass of the loop increments `search_iteration` by one |
| Research.FollowPlan | src/utils/deep_research.py:266-282 | handling the parsed reply does not touch the counter (the outcome is stated by FollowPlanFacts) |
| Research.Dispatch | src/utils/deep_research.py:292-319 | the dispatch does not touch the counter (the outcome is stated by DispatchAllVisited, DispatchReserves and DispatchCompletes) |
| Research.AfterFilter | src/utils/deep_research.py:317-319 | what follows the filter does not touch the counter |
| Research.RunAgents | src/utils/deep_research.py:320-341 | the agents do not touch the counter (the outcome is stated by RunAgentsFacts) |
| Research.Runs | src/utils/deep_research.py:336 | there is one agent result per kept query, in order: slot i holds the run of the agent for `kept[i]`, the i-th query of this iteration |
| Research.SaveResults | src/utils/deep_research.py:343-362 | the save loop does not touch the counter (the outcome is stated by SaveResultsFacts) |
| Research.RecordStep | src/utils/deep_research.py:359-391 | the recorder's turn does not touch the counter (the outcome is stated by RecordStepMeaning) |
| Research.StepCases | src/utils/deep_research.py:251-258 | an iteration ends in an exception exactly when the planner's call raises; otherwise it continues with the planner's parsed reply |
| Research.StepExtends | src/utils/deep_research.py:239-391 | an iteration only appends to `history_query`, `history_infos`, both conversations and the saved files, and only adds to `visited_links` |
| Research.RepliedExtends | src/utils/deep_research.py:254-258 | the planner's answer only appends to the search conversation |
| Research.FollowPlanExtends | src/utils/deep_research.py:266-391 | the same, from the planner's parsed reply on |
| Research.DispatchExtends | src/utils/deep_research.py:292-391 | the same, from the contexts on |
| Research.RunAgentsFacts | src/utils/deep_research.py:320-362 | the agents and the save loop only append; they fail only by an exception; they complete only with `query_result` bound and the contexts closed; with `query_result` unbound and no history they fail |
| Research.SaveResultsFacts | src/utils/deep_research.py:343-362 | the same for the save loop and the recorder's turn |
| Research.RecordStepExtends | src/utils/deep_research.py:359-391 | the recorder's turn only appends and only adds visited links |
| Research.RecordStepKeeps | src/utils/deep_research.py:359-391 | the recorder's turn fails only by an exception and keeps the contexts and `query_result` |
| Research.RecordStepMeaning | src/utils/deep_research.py:359-391 | the iteration completes iff the recorder answers; parsed records join `history_infos` and exactly their eligible urls are reserved; an unparsable answer adds no record and no link |
| Research.FollowPlanFacts | src/utils/deep_research.py:266-302 | for a parsed reply: the query history grows by the full plan; the loop breaks on an unparsable reply and on an empty plan and only then; a reply without "plan"/"queries" raises; `task` ends as the last planned query |
| Research.StepPlan | src/utils/deep_research.py:239-302 | the same for a whole iteration; a raising planner call ends it in an exception, and an iteration that continues or finds everything visited planned some queries |
| Research.DispatchKeeps | src/utils/deep_research.py:292-319 | the dispatch keeps the query history, sets `task` to the last query and stops only at the all-visited break or by an exception |
| Research.AfterFilterAllVisited | src/utils/deep_research.py:301-319 | for any key: the all-visited break happens iff every query has a key already visited, and then visited is unchanged and the contexts stay open |
| Research.DispatchAllVisited | src/utils/deep_research.py:292-319 | the all-visited break happens iff every planned query is a URL whose normalized form was visited; nothing is reserved then and all contexts made for the queries stay open |
| Research.AfterFilterReserves | src/utils/deep_research.py:301-314 | for any key: every planned query's key is visited afterwards |
| Research.DispatchReserves | src/utils/deep_research.py:301-314 | every planned URL's normalized form is visited after the dispatch, whatever happens next |
| Research.DispatchCompletes | src/utils/deep_research.py:336-362 | a completed iteration has `query_result` bound and all its contexts closed; with `query_result` unbound and no agent history, the run fails |
| Research.FollowPlanDispatch | src/utils/deep_research.py:279-319 | the dispatch facts above for a parsed reply |
| Research.StepDispatch | src/utils/deep_research.py:239-319 | the dispatch facts above for a whole iteration, in terms of its planned queries |
| Research.Loop | src/utils/deep_research.py:239-391 | the while loop: iterations until the bound, a break or an exception; LoopBounds, LoopExtends and LoopInstruction state it |
| Research.LoopBounds | src/utils/deep_research.py:239-240 | the loop stops at once when the counter has reached the bound; otherwise it runs at least one and at most up to the bound iterations, and ends by the bound only after all of them |
| Research.LoopExtends | src/utils/deep_research.py:239-391 | over the whole loop the histories, conversations and saved files only grow at their end and visited links are never forgotten |
| Research.StepInstruction | src/utils/deep_research.py:282-302 | after an iteration `task` is unchanged or one of the queries that iteration planned |
| Research.LoopInstruction | src/utils/deep_research.py:239-391 | after the loop `task` is the original instruction or one of the queries planned during it |
| Research.RunResearch | src/utils/deep_research.py:238-453 | the whole run: the loop, then the writer unless an exception escaped; ResearchMeaning states its outcome |
| Research.ResearchMeaning | src/utils/deep_research.py:238-453 | a report is returned iff no exception escaped the loop and the writer answered, and it is the writer's answer; the writer's `task` is the instruction or a planned query; at most max iterations run; both conversations keep their system prompts |
| Research.PlannerExhaustedNoReport | src/utils/deep_research.py:254 | when the first planner call exhausts its retries, no report is produced |
| ResearchLoop.InvokeWithRetry | src/utils/deep_research.py:254 | a retried model call returns RetrySpec's outcome and sleeps once between consecutive calls; wait k is within 10% of the scheduled wait after the (k+1)-th quota failure, which is below 59 seconds |
| ResearchLoop.FilterQueriesBy | src/utils/deep_research.py:301-314 | the filter loop computes FilterBy's kept queries and visited set |
| ResearchLoop.FilterQueries | src/utils/deep_research.py:301-314 | the filter loop with URL keys computes QueryFilter |
| ResearchLoop.TagRecordUrls | src/utils/deep_research.py:383-386 | the tagging loop computes TagRecords |
| ResearchLoop.SaveQueryResults | src/utils/deep_research.py:345-357 | the save loop computes SaveFrom's `query_result` and files |
| ResearchLoop.RecordResults | src/utils/deep_research.py:359-391 | the recorder's turn computes RecordStep, with bounded waits |
| ResearchLoop.DispatchQueries | src/utils/deep_research.py:292-319 | contexts, filter and break compute Dispatch, with bounded waits |
| ResearchLoop.RunQueryAgents | src/utils/deep_research.py:320-341 | running the agents computes RunAgents, with bounded waits |
| ResearchLoop.SaveAndRecord | src/utils/deep_research.py:343-391 | the save loop and the recorder compute SaveResults, with bounded waits |
| ResearchLoop.SearchIteration | src/utils/deep_research.py:239-391 | one pass of the while loop computes Step, with bounded waits |
| ResearchLoop.ActOnPlan | src/utils/deep_research.py:266-319 | the breaks on the parsed reply and the dispatch compute FollowPlan |
| ResearchLoop.DeepResearch | src/utils/deep_research.py:232-453 | the whole run returns RunResearch's outcome, its loop ends in Loop's final state and exit, and every wait is bounded |

## Left out

- Browser start-up and closing, context creation, cookie injection into
  contexts, `CustomAgent` construction and `asyncio.gather`. These are an
  external engine and concurrency. The agents are an oracle giving one
  result per kept query, and the model counts open contexts.
- `llm.invoke`, `repair_json` and `json.loads`. These are foreign calls. The
  model call is an oracle that returns, raises a quota error or raises
  another error. The two parsers are oracles onto the parsed shapes.
- Recorder replies that parse as JSON but are not a list of objects (they
  raise, or test `"url"` as a substring). These are not modelled: the
  record parser yields a list of records or fails.
- `reasoning_content` logging and all other logging.
- File writes and `os.makedirs`. Only the names of the saved files are
  kept. `save_dir`, the record dump and the report file are not modelled.
- Reading the browser's cookies (`rookiepy.chrome`) and its error fallback.
  This is I/O; only the per-record conversion is modelled.
- The sleep and the exact jitter drawn by `random.uniform`. A wait is
  recorded instead, with any factor in [0.9, 1.1].
- The prompt texts and their JSON rendering. A prompt is modelled by the
  values it is built from.
- `max_query_num` and `max_steps`. They only reach the prompt and the
  agents.
- Url.Split: the validation of bracketed IPv6 hosts and the NFKC check on
  network locations are not modelled. Unicode case mapping is ASCII only.
- Url.Unparse: only the form `normalize_url` calls it with is modelled:
  no params, query or fragment, and a non-empty network location.
- Retry.RetryForRateLimit: the real arithmetic is exact, so floating-point
  rounding of the waits is not modelled.
- Retry.BaseWaitEnds: states the end points only for `maxRetries >= 2`. With
  at most one retry the wrapper never waits (see above).
- Cookies.SameSiteKeepsLetters: case mapping is ASCII only. Python's
  `capitalize` maps other letters too, and can change the length (a
  leading 'ß' becomes "Ss").
