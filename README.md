# Worklog aggregation by sprint

This project is a Dafny model of the worklog aggregation in the xycmd
command-line tool. It covers `get_worklogs`, the sprint record, its
construction from the issue tracker's sprint data and its window test.

A run of `get_worklogs`, with the three findings below corrected, goes
through these steps:

1. It builds a search query from a project, a worklog author and a lower date
   bound. The bound is an explicit `since_date`, or `days_ago` days before
   today.
2. It runs the query against the issue tracker.
3. For every worklog of every ticket, it resolves the ticket's sprint
   references. It extracts `id=<digits>`, fetches each distinct sprint once and
   caches it.
4. It attributes the worklog to the first sprint of its own ticket whose
   window contains the log date. As written, a worklog that none of these
   sprints contains keeps the previous worklog's sprint, or raises when there
   is none (finding 1).
5. A second pass gives each still-unattributed worklog the first cached
   sprint, in discovery order, that contains it. As written, this pass raises
   on the dictionary's keys (finding 2).
6. It sorts the sprints by start date. A missing start date counts as
   1970-01-01.
7. It gives every sprint with both dates one bucket per day of its window.
8. It appends each worklog to the bucket of its sprint and log date. As
   written, a worklog without a sprint raises here (finding 3).

Modules:

- `Models` (models.dfy) holds the records, `Sprint.from_jira` and `Sprint.contains_worklog`.
- `Query` (query.dfy) holds the date-bound precedence and the query text.
- `SprintRefs` (sprint_refs.dfy) holds the `id=(\d+)` search on a sprint reference.
- `Attribution` (attribution.dfy) holds the memoised sprint resolution and both attribution passes.
- `Sorting` (sorting.dfy) holds the stable sort by start date.
- `Buckets` (buckets.dfy) holds the day buckets and the insertion.
- `Aggregate` (aggregate.dfy) holds the whole run and the theorems about its result.
- `AsWritten` (findings.dfy) holds three steps exactly as the code writes them, with inputs that make them go wrong.
- `Seqs` (seqs.dfy) holds sequence helpers: the key order of an insertion-ordered dictionary, and `str.join`.

Modelling choices:

- A date is a day number, with day 0 = 1970-01-01. A day bucket is keyed by
  that day number instead of `str(date)`. The text form of a date is
  injective, so nothing is lost.
- A Python dictionary becomes its key order plus a map (`SprintDict`, and
  `days`/`worklogs` in `Sprint`). Dictionary iteration and the result of the
  sort therefore keep their order.
- Sprints and worklogs are values. A worklog names its sprint by the key the
  sprint is cached under.
- The insertion looks a sprint up by the sprint's `uid`, as the code does. The
  whole run requires the tracker to return every sprint under its own id, so
  that `str(uid)` is the cache key.
- The tracker is two parameters: `search` (query text to tickets) and
  `fetch` (sprint id to sprint data). `fetchLog` records the ids passed to
  `fetch`, in call order.
- The current date is the parameter `today`. The formatting of a date bound
  as query text is the parameter `show`.
- A missing or empty project or author filter is the empty string. Python
  treats None and "" alike here.
- `GetWorklogs` returns what the run builds: the query, the tickets, the
  fetch log, the attributed worklogs, the sorted sprint dictionary with its
  buckets, and the worklogs left without a sprint. The code prints the
  buckets instead and returns an always-empty `days` dictionary.

The three findings below are corrected in the model used by `GetWorklogs`:

- A worklog that no sprint of its own ticket contains starts the fallback
  with no sprint.
- The fallback scans the cached sprints themselves, in discovery order.
- A worklog that no sprint contains ends up in the `sprintless` list instead
  of raising.

The code as written is modelled in `AsWritten`.

Behaviour of the code that a reader might not expect, which the model follows:

- The command-line help of `--worklog-author` says "Filter by worklog
  author." (xycmd/__main__.py:36). The author is used only in the query
  clause `worklogAuthor = X`, which selects tickets. The worklogs of other
  authors on those tickets are kept; no worklog is filtered by author after
  the search.
- A sprint without both dates can never receive a worklog, not even through
  its own ticket. The first pass uses the same window test as the fallback.
- A `since_date` given as text reaches the query as the parsed datetime, not
  cut to a date. `SinceText` therefore becomes `AtInstant`, which carries the
  time of day.
- An unparseable date raises in the code. It does not become an absent date.
  The model takes every present date as already parsed, so this case does not
  arise.

## Model

| member | source | states |
|---|---|---|
| Models.ParseDateField | xycmd/services/jira_service/models.py:62-63 | a date field is absent exactly when it is missing, empty or the text "None"; otherwise it is the parsed day |
| Models.FromJira | xycmd/services/jira_service/models.py:58-68 | id, name and state are copied; each date is absent exactly for a missing, empty or "None" field; no issues, an empty and well-formed day dictionary |
| Models.ContainsWorklog | xycmd/services/jira_service/models.py:70-74 | false when either date is absent; otherwise true exactly when start <= log date <= end, both ends inclusive |
| Models.StartKey | xycmd/services/jira_service/service.py:106 | the sort key is the start date, or 1970-01-01 (day 0) when there is none |
| Query.ResolveSince | xycmd/services/jira_service/service.py:16-28 | an explicit since_date wins (a text as the parsed datetime, a date or datetime as its date); else a non-zero days_ago gives today minus days_ago; else there is no bound |
| Query.Clauses | xycmd/services/jira_service/service.py:37-46 | one clause per present filter, in the order project, author, date, with their texts at those positions |
| Query.Query | xycmd/services/jira_service/service.py:49 | the query ends with " ORDER BY updated DESC", is exactly that with no filter, and starts with the project clause when a project is given |
| Query.ExplicitSinceWins | xycmd/services/jira_service/service.py:18-28 | with since_date given, days_ago does not affect the query |
| Query.NoBoundNoDateClause | xycmd/services/jira_service/service.py:27-46 | with neither since_date nor days_ago, the query has no date clause |
| Aggregate.MakeQuery | xycmd/services/jira_service/service.py:16-49 | the query built step by step equals the bound and clause specification joined by " AND " |
| SprintRefs.ExtractSprintId | xycmd/services/jira_service/service.py:65-71 | an extracted id is a non-empty run of digits |
| SprintRefs.ExtractSprintIdSpec | xycmd/services/jira_service/service.py:65-71 | no id exactly when "id=" followed by a digit occurs nowhere; otherwise the id is the longest digit run after the leftmost such occurrence |
| SprintRefs.ExtractExample | xycmd/services/jira_service/service.py:65-71 | in "[ViewId=7,id=55]" the case-sensitive pattern skips "ViewId=7" and yields "55" |
| Attribution.RefIdsMembers | xycmd/services/jira_service/service.py:64-71 | a ticket's sprint ids are exactly the ids extracted from its references; references without a match are skipped |
| Attribution.ResolveRef | xycmd/services/jira_service/service.py:65-77 | a reference's id is fetched and cached only when not cached yet; the cache stays consistent with the tracker |
| Attribution.ResolveTicketSprints | xycmd/services/jira_service/service.py:62-77 | the ticket's sprint list is its reference ids in order; the cache gains the new ids in order of first appearance, each fetched once |
| Attribution.FirstContaining | xycmd/services/jira_service/service.py:87-90 | a sprint found for a worklog is one of the candidates and its window contains the worklog |
| Attribution.FirstContainingSpec | xycmd/services/jira_service/service.py:87-90 | the sprint found is the first candidate, in order, whose window contains the worklog; there is none exactly when no candidate contains it |
| Attribution.FindContainingSprint | xycmd/services/jira_service/service.py:87-90 | the scan with break returns the first containing sprint |
| Attribution.TicketWorklogsSpec | xycmd/services/jira_service/service.py:80-94 | the k-th worklog of a ticket's first pass carries the k-th raw worklog's id, time and date and the ticket key; its sprint is the first of the ticket's reference ids whose window contains it, and it has none exactly when no such window does |
| Attribution.Discovered | xycmd/services/jira_service/service.py:60-77 | the cache keys have no duplicates and are exactly the reference ids of the tickets that have at least one worklog |
| Attribution.CollectTicket | xycmd/services/jira_service/service.py:60-94 | the inner loop over one ticket's worklogs appends that ticket's attributed worklogs and, when it has a worklog, caches its new sprint ids in order, each fetched once |
| Attribution.CollectWorklogs | xycmd/services/jira_service/service.py:60-94 | the first pass yields every worklog in ticket and worklog order; the cache holds the discovered sprints as read; the tracker is called once per distinct id |
| Attribution.FallbackWorklog | xycmd/services/jira_service/service.py:97-104 | the fallback changes only a worklog's sprint, and leaves a worklog that already has a sprint as it is |
| Attribution.FallbackWorklogSpec | xycmd/services/jira_service/service.py:97-104 | an unattributed worklog gets the first discovered sprint that contains it, and stays unattributed exactly when no discovered sprint contains it |
| Attribution.Fallback | xycmd/services/jira_service/service.py:96-104 | the fallback loop applies that rule to every worklog of the list |
| Attribution.PassOneInWindow | xycmd/services/jira_service/service.py:87-92 | after the first pass, a worklog's sprint was discovered in the run and its window contains the worklog |
| Attribution.AttributedInWindow | xycmd/services/jira_service/service.py:87-104 | after both passes, a worklog's sprint was discovered and has both dates, and start <= log date <= end; a sprint missing a date gets no worklog |
| Sorting.InsertByStart | xycmd/services/jira_service/service.py:106 | inserting one id into the sorted list keeps the same ids plus the inserted one |
| Sorting.InsertSorted | xycmd/services/jira_service/service.py:106 | inserting into a sorted list keeps it sorted by start date |
| Sorting.SortByStart | xycmd/services/jira_service/service.py:106 | the result is a permutation of the ids, ordered by non-decreasing start key |
| Sorting.SortStable | xycmd/services/jira_service/service.py:106 | ids with equal start keys keep their order: the sort is stable |
| Sorting.SortSprints | xycmd/services/jira_service/service.py:106 | the sorted dictionary has the same id to sprint entries, each id once, ordered by start key |
| Sorting.SortExample | xycmd/services/jira_service/service.py:106 | starts 2024-03-01, none and 2024-02-15 sort as none, 2024-02-15, 2024-03-01 |
| Buckets.DayRangeFacts | xycmd/services/jira_service/service.py:111 | the day range holds exactly the days from start to end, ascending, each once |
| Buckets.EmptyDays | xycmd/services/jira_service/service.py:111 | one empty list for exactly the days of the window |
| Buckets.FillDays | xycmd/services/jira_service/service.py:108-111 | a fully dated sprint gets the days of its window, ascending, each with an empty list; a sprint missing a date is unchanged |
| Buckets.FillDaysEmptyWindow | xycmd/services/jira_service/service.py:111 | a sprint whose end precedes its start gets no buckets |
| Buckets.ContainsIffBucketed | xycmd/services/jira_service/models.py:70-74 | a sprint contains a worklog exactly when it is fully dated and its filled buckets have the worklog's day |
| Buckets.FillAllDays | xycmd/services/jira_service/service.py:108-111 | the fill loop replaces every sprint's buckets as above and keeps the order |
| Buckets.MatchingMembers | xycmd/services/jira_service/service.py:114-119 | a worklog is in a sprint's bucket for a day exactly when it names that sprint and was logged that day |
| Buckets.UnattributedMembers | xycmd/services/jira_service/service.py:114-115 | the sprint-less list holds exactly the worklogs without a sprint |
| Buckets.InsertAllDays | xycmd/services/jira_service/service.py:114-119 | insertion adds a sprint's new log dates to its day order in order of first appearance and keeps the day dictionary well formed |
| Buckets.InsertAllLists | xycmd/services/jira_service/service.py:114-119 | after insertion a bucket is its old list followed by the matching worklogs, in list order |
| Buckets.FilledInsert | xycmd/services/jira_service/service.py:108-119 | when every worklog of a sprint lies in its window, the days stay exactly the window and each bucket holds the matching worklogs |
| Buckets.NoneFor | xycmd/services/jira_service/service.py:114-119 | a sprint that no worklog names gets no new day and no worklog |
| Buckets.CountAll | xycmd/services/jira_service/service.py:114-119 | when every attributed worklog has a bucket, bucket counts plus the unattributed worklogs add up to the number of worklogs |
| Buckets.InsertWorklogs | xycmd/services/jira_service/service.py:114-119 | the insertion loop yields the buckets of the insertion specification, keeps the order and well-formedness, and sets aside the unattributed worklogs |
| Aggregate.GetWorklogs | xycmd/services/jira_service/service.py:16-119 | the run builds the specified query, searches it, calls the tracker once per discovered id, attributes by both passes and ends with the expected buckets |
| Aggregate.ExpectedOrder | xycmd/services/jira_service/service.py:106 | the final dictionary holds each discovered sprint once, sorted by start key, ties in discovery order |
| Aggregate.ExpectedKeys | xycmd/services/jira_service/service.py:106-119 | filling and insertion keep the ids and the start dates of the cache, so they do not disturb the sort |
| Aggregate.ExpectedBuckets | xycmd/services/jira_service/service.py:108-119 | a final sprint is the fetched one with only its buckets changed: the window's days when dated, untouched otherwise, each bucket holding the matching worklogs in order |
| Aggregate.WorklogPlaced | xycmd/services/jira_service/service.py:114-119 | every attributed worklog has a bucket in its sprint for its log date |
| Aggregate.ExpectedCount | xycmd/services/jira_service/service.py:114-119 | every worklog lands exactly once: bucket entries plus sprint-less worklogs equal the number of worklogs |
| AsWritten.CarryOver | xycmd/services/jira_service/service.py:87-92 | as written, the loop raises the unbound-local error exactly when nothing was carried in and the first worklog is unmatched; otherwise it yields one worklog per worklog |
| AsWritten.CarryOverValues | xycmd/services/jira_service/service.py:87-92 | as written, each worklog gets the sprint of the last matched worklog up to and including itself, so an unmatched one keeps the previous worklog's sprint |
| AsWritten.PassOneRaises | xycmd/services/jira_service/service.py:87-92 | as written, pass one raises exactly when the first worklog of the run lies in none of its ticket's sprints |
| AsWritten.CarriedSprintExample | xycmd/services/jira_service/service.py:87-92 | as written, a worklog outside every sprint of its ticket is attributed to the previous worklog's sprint |
| AsWritten.CarryExample | xycmd/services/jira_service/service.py:87-92 | as written, the unmatched second worklog of the example takes sprint 1 from the first |
| AsWritten.UnboundSprintExample | xycmd/services/jira_service/service.py:87-92 | as written, a run whose first worklog matches no sprint raises |
| AsWritten.FallbackAsWritten | xycmd/services/jira_service/service.py:97-104 | as written, the fallback raises exactly when an unattributed worklog meets a non-empty dictionary, and otherwise changes nothing |
| AsWritten.FallbackNeverRuns | xycmd/services/jira_service/service.py:97-104 | as written, once pass one returns, the fallback changes nothing |
| AsWritten.FallbackKeysExample | xycmd/services/jira_service/service.py:101-102 | an unattributed worklog with one sprint cached makes the fallback as written raise |
| AsWritten.InsertAsWritten | xycmd/services/jira_service/service.py:114-119 | as written, insertion raises exactly when some worklog has no sprint |
| AsWritten.InsertNoneExample | xycmd/services/jira_service/service.py:115 | a worklog left without a sprint by the corrected passes makes the insertion as written raise |

## Left out

- Network access: creating the tracker client, `search_issues` and `jira.sprint` (service.py:30-35, 51-54, 74) are the parameters `search` and `fetch`. The search fields and `maxResults` are not modelled.
- Failures of the tracker are not modelled. `search` and `fetch` are total functions, so a failing search or sprint lookup (service.py:51-54, 74), which aborts the run in the code, cannot occur in the model.
- A ticket whose sprint field is None (service.py:64) makes the code raise `TypeError`, since None cannot be iterated. The model's `Ticket.sprintRefs` is a list and cannot be None; such a ticket is modelled as having no references, so its worklogs go through without a sprint instead of raising.
- Query.ResolveSince: `today - timedelta(days=days_ago)` (service.py:28) raises `OverflowError` when the result falls outside Python's date range (years 1 to 9999). Dates are unbounded integers in the model, so this error is not modelled.
- Date parsing (`dateutil.parser.parse`, service.py:22 and 84, models.py:62-63) is external. A raw worklog and a sprint date field carry the day already parsed. A text `since_date` carries the day and the time of day. Unparseable text is not modelled.
- `datetime.now()` (service.py:28) is the parameter `today`. `str(since_date)` in the query is the parameter `show`.
- The rendering at service.py:121-146 is left out: printed output, colours, weekday names, and hour and day totals in floating point.
- `Worklog.time_spent_h`, `time_spent_d` and their raw forms (models.py:24-38) are left out: floating-point division and rounding over the global configuration.
- Logging of skipped references (service.py:68) is left out.
- xycmd/config.py (configuration file loading) and xycmd/__main__.py (command-line wiring and the polling loop) are not part of this model.
- The return value `(jira, tickets, days)` (service.py:148) is replaced by the `Aggregation` result. `days` is always empty in the code.
- Object identity is not modelled. The code shares one mutable `Sprint` object between the cache, the sorted dictionary and the worklogs; the model passes values and names a sprint by its cache key. Updating a sprint in place therefore shows up as a new dictionary entry.
- `Issue` is only a record; no step of the core creates one.
- SprintRefs.ExtractSprintId: digits are ASCII `0`-`9`. Python's `\d` also matches other Unicode decimal digits.
- Query.ExplicitSinceWins and Query.NoBoundNoDateClause follow directly from the definitions, so their bodies are empty.

## Findings

| source | as written | input that shows it | evidently intended | confidence | as-written member | corrected member |
|---|---|---|---|---|---|---|
| xycmd/services/jira_service/service.py:87-92 | the local `sprint` is never reset. An unmatched worklog takes the previous worklog's sprint, and the first unmatched worklog of a run raises an unbound-local error | ticket A-1 with reference "id=1" (sprint 1970-01-11 to 1970-01-21) and a worklog on 1970-01-16, then ticket A-2 with reference "id=1" and a worklog on 1970-01-31: A-2's worklog gets sprint 1 although it lies outside its window; A-2 alone raises | a worklog no sprint of its ticket contains starts without a sprint (`sprint=None` at line 85) | high, not executed | AsWritten.CarriedSprintExample | Attribution.FirstContaining |
| xycmd/services/jira_service/service.py:101-102 | the fallback iterates the dictionary's keys (id texts) and calls `contains_worklog` on a text, which raises `AttributeError` | after the corrected first pass on the same two tickets, A-2's worklog is unattributed and sprint 1 is cached | scan the cached sprints in discovery order | high, not executed | AsWritten.FallbackKeysExample | Attribution.Fallback |
| xycmd/services/jira_service/service.py:115 | the insertion reads `w.sprint.uid` for every worklog and raises on one without a sprint | the same two tickets: no sprint contains A-2's worklog after both corrected passes | set such worklogs aside and bucket the others | high, not executed | AsWritten.InsertNoneExample | Buckets.InsertWorklogs |
