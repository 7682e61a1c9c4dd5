/** `get_worklogs` as a whole: the query, the search, the two attribution
    passes, the sort of the sprint cache, the day buckets and the insertion of
    the worklogs. The tracker is the pair of functions `search` (query text to
    tickets) and `fetch` (sprint id to sprint data); the current date is the
    parameter `today`. The result gathers what the run builds instead of
    printing it. */
module Aggregate {
  import opened Seqs
  import opened Models
  import opened Query
  import opened Attribution
  import opened Sorting
  import opened Buckets

  /** What a run builds: the query, the tickets found, the ids passed to the
      tracker's sprint lookup in call order, the attributed worklogs, the
      sorted sprint dictionary with its day buckets, and the worklogs that no
      sprint contains. */
  datatype Aggregation = Aggregation(
    query: string,
    tickets: seq<Ticket>,
    fetchLog: seq<SprintId>,
    worklogs: seq<Worklog>,
    sprints: SprintDict,
    sprintless: seq<Worklog>)

  /** The sprint cache holding exactly the sprints of `order`, as read from
      the tracker. */
  function Cache(order: seq<SprintId>, fetch: SprintId -> RawSprint): (d: SprintDict)
    requires NoDup(order)
    ensures d.order == order && CachedFrom(d, fetch)
  {
    SprintDict(order, map id | id in order :: FromJira(fetch(id)))
  }

  /** A cache is determined by its key order and the tracker. */
  lemma CachedUnique(d: SprintDict, fetch: SprintId -> RawSprint)
    requires CachedFrom(d, fetch)
    ensures d == Cache(d.order, fetch)
  {
    assert d.entries == Cache(d.order, fetch).entries;
  }

  /** Every day dictionary replaced by the buckets of its window. */
  function Filled(d: SprintDict): (r: SprintDict)
    requires d.Valid()
    ensures r.Valid() && r.order == d.order && r.entries.Keys == d.entries.Keys
  {
    SprintDict(d.order, map id | id in d.entries :: FillDays(d.entries[id]))
  }

  /** The sorted cache of the run over `tickets`, with empty day buckets. */
  function Prepared(tickets: seq<Ticket>, fetch: SprintId -> RawSprint): (d: SprintDict)
    ensures d.Valid()
    ensures multiset(d.order) == multiset(Discovered(tickets))
  {
    Filled(SortSprints(Cache(Discovered(tickets), fetch)))
  }

  /** The sprint dictionary a run over `tickets` ends with. */
  function Expected(tickets: seq<Ticket>, fetch: SprintId -> RawSprint): (d: SprintDict)
    ensures d.order == Prepared(tickets, fetch).order
  {
    var p := Prepared(tickets, fetch);
    AttributedKnown(tickets, fetch);
    SprintDict(p.order, InsertAll(p.entries, Attributed(tickets, fetch)))
  }

  /** Every attributed worklog names a sprint of the prepared dictionary. */
  lemma AttributedKnown(tickets: seq<Ticket>, fetch: SprintId -> RawSprint)
    ensures SprintsKnown(Attributed(tickets, fetch), Prepared(tickets, fetch).entries)
  {
    var ws := Attributed(tickets, fetch);
    var p := Prepared(tickets, fetch);
    AttributedInWindow(tickets, fetch);
    forall i | 0 <= i < |ws| && ws[i].sprint.Some?
      ensures ws[i].sprint.value in p.entries
    {
      assert ws[i] in ws;
      assert ws[i].sprint.value in multiset(p.order);
    }
  }

  /** The query assembly: the lower date bound from `since_date` or
      `days_ago`, then the clause list joined by " AND " and the ordering. */
  method MakeQuery(project: string, author: string, daysAgo: int, since: SinceArg, today: Date, show: Bound -> string)
    returns (query: string)
    ensures query == BuildQuery(project, author, daysAgo, since, today, show)
  {
    var bound: Option<Bound> := None;
    if SinceGiven(since) {
      match since
      case SinceText(_, day, seconds) => bound := Some(AtInstant(day, seconds));
      case SinceDateTime(day, _) => bound := Some(OnDay(day));
      case SinceDate(day) => bound := Some(OnDay(day));
    } else if daysAgo != 0 {
      bound := Some(OnDay(today - daysAgo));
    }
    assert bound == ResolveSince(since, daysAgo, today);

    var clauses: seq<string> := [];
    if project != "" {
      clauses := clauses + ["project = " + project];
    }
    if author != "" {
      clauses := clauses + ["worklogAuthor = " + author];
    }
    if bound.Some? {
      clauses := clauses + ["worklogDate >= " + show(bound.value)];
    }
    assert clauses == Clauses(project, author, bound, show);
    query := Join(clauses, " AND ") + OrderSuffix;
  }

  /** The whole run. */
  method GetWorklogs(
    project: string, author: string, daysAgo: int, since: SinceArg, today: Date,
    show: Bound -> string, search: string -> seq<Ticket>, fetch: SprintId -> RawSprint)
    returns (r: Aggregation)
    requires forall id :: fetch(id).id == id
    ensures r.query == BuildQuery(project, author, daysAgo, since, today, show)
    ensures r.tickets == search(r.query)
    ensures r.fetchLog == Discovered(r.tickets)
    ensures r.worklogs == Attributed(r.tickets, fetch)
    ensures r.sprints == Expected(r.tickets, fetch)
    ensures r.sprintless == Unattributed(r.worklogs)
  {
    var query := MakeQuery(project, author, daysAgo, since, today, show);
    var tickets := search(query);
    var worklogs, sprints, fetchLog := CollectWorklogs(tickets, fetch);
    var attributed := Fallback(worklogs, sprints, fetch);
    assert attributed == Attributed(tickets, fetch);
    CachedUnique(sprints, fetch);
    var sorted := SortSprints(sprints);
    var filled := FillAllDays(sorted);
    assert filled == Prepared(tickets, fetch);
    AttributedKnown(tickets, fetch);
    PreparedKeys(tickets, fetch);
    forall id | id in filled.entries ensures filled.entries[id].uid == id {
      PreparedEntry(tickets, fetch, id);
    }
    var buckets, sprintless := InsertWorklogs(filled, attributed);
    r := Aggregation(query, tickets, fetchLog, attributed, buckets, sprintless);
  }

  /** The final dictionary holds each discovered sprint once, in order of
      start date (a sprint without one counting as 1970-01-01), and sprints
      with the same start date keep their order of discovery. */
  lemma ExpectedOrder(tickets: seq<Ticket>, fetch: SprintId -> RawSprint, k: Date)
    ensures Expected(tickets, fetch).Valid()
    ensures multiset(Expected(tickets, fetch).order) == multiset(Discovered(tickets))
    ensures AllIn(Expected(tickets, fetch).order, Expected(tickets, fetch).entries)
    ensures SortedByStart(Expected(tickets, fetch).order, Expected(tickets, fetch).entries)
    ensures WithKey(Expected(tickets, fetch).order, Expected(tickets, fetch).entries, k)
         == WithKey(Discovered(tickets), Expected(tickets, fetch).entries, k)
  {
    var c := Cache(Discovered(tickets), fetch);
    var s := SortSprints(c);
    var e := Expected(tickets, fetch);
    ExpectedKeys(tickets, fetch);
    SameKeysSorted(s.order, c.entries, e.entries);
    SortStable(c.order, c.entries, k);
    SameKeysWithKey(s.order, c.entries, e.entries, k);
    SameKeysWithKey(c.order, c.entries, e.entries, k);
  }

  /** Filling and inserting leave the ids and the start dates of the cache. */
  lemma ExpectedKeys(tickets: seq<Ticket>, fetch: SprintId -> RawSprint)
    ensures var c, e := Cache(Discovered(tickets), fetch), Expected(tickets, fetch);
      c.entries.Keys == e.entries.Keys &&
      forall id :: id in e.entries ==> StartKey(e.entries[id]) == StartKey(c.entries[id])
  {
    var c, e := Cache(Discovered(tickets), fetch), Expected(tickets, fetch);
    AttributedKnown(tickets, fetch);
    forall id | id in e.entries ensures StartKey(e.entries[id]) == StartKey(c.entries[id]) {
      InsertAllDays(Prepared(tickets, fetch).entries, Attributed(tickets, fetch), id);
    }
  }

  /** Sortedness and the stable order depend on the start dates only. */
  lemma SameKeysSorted(ids: seq<SprintId>, m1: map<SprintId, Sprint>, m2: map<SprintId, Sprint>)
    requires AllIn(ids, m1) && SortedByStart(ids, m1) && m1.Keys == m2.Keys
    requires forall id :: id in m2 ==> StartKey(m2[id]) == StartKey(m1[id])
    ensures AllIn(ids, m2) && SortedByStart(ids, m2)
  {
  }

  lemma {:induction false} SameKeysWithKey(ids: seq<SprintId>, m1: map<SprintId, Sprint>, m2: map<SprintId, Sprint>, k: Date)
    requires AllIn(ids, m1) && m1.Keys == m2.Keys
    requires forall id :: id in m2 ==> StartKey(m2[id]) == StartKey(m1[id])
    ensures AllIn(ids, m2) && WithKey(ids, m2, k) == WithKey(ids, m1, k)
    decreases |ids|
  {
    if ids != [] {
      SameKeysWithKey(ids[1..], m1, m2, k);
    }
  }

  /** The prepared dictionary holds, under each discovered id, the sprint
      read from the tracker with the buckets of its window. */
  lemma PreparedEntry(tickets: seq<Ticket>, fetch: SprintId -> RawSprint, id: SprintId)
    requires id in Discovered(tickets)
    ensures id in Prepared(tickets, fetch).entries
    ensures Prepared(tickets, fetch).entries[id] == FillDays(FromJira(fetch(id)))
    ensures Prepared(tickets, fetch).entries[id].DaysWellFormed()
  {
    var p := Prepared(tickets, fetch);
    assert id in multiset(Discovered(tickets));
    assert id in multiset(p.order);
  }

  /** The prepared dictionary is keyed by exactly the discovered ids. */
  lemma PreparedKeys(tickets: seq<Ticket>, fetch: SprintId -> RawSprint)
    ensures forall id :: id in Prepared(tickets, fetch).entries <==> id in Discovered(tickets)
  {
    var p := Prepared(tickets, fetch);
    forall id ensures id in p.entries <==> id in Discovered(tickets) {
      assert id in p.order <==> id in multiset(p.order);
      assert id in Discovered(tickets) <==> id in multiset(Discovered(tickets));
    }
  }

  /** The worklogs attributed to `id` all fall in the window of that
      sprint; there are none when the sprint lacks a date. */
  lemma AttributedToInWindow(tickets: seq<Ticket>, fetch: SprintId -> RawSprint, id: SprintId)
    ensures forall w :: w in Attributed(tickets, fetch) && w.sprint == Some(id) ==> ContainsWorklog(FromJira(fetch(id)), w)
  {
    AttributedInWindow(tickets, fetch);
  }

  /** The buckets of one sprint at the end of the run. The sprint is the one
      read from the tracker with only its day dictionary changed. A sprint
      with both dates has one bucket per day of its window, in ascending
      order, and no other; a sprint lacking a date is left with none. The
      bucket of day `d` lists exactly the attributed worklogs of that sprint
      logged on `d`, in the order of the worklog list. */
  lemma ExpectedBuckets(tickets: seq<Ticket>, fetch: SprintId -> RawSprint, id: SprintId, d: Date)
    requires id in Discovered(tickets)
    ensures id in Expected(tickets, fetch).entries
    ensures var s, e := FromJira(fetch(id)), Expected(tickets, fetch).entries[id];
      && e == s.(days := e.days, worklogs := e.worklogs)
      && e.DaysWellFormed()
      && (s.Dated() ==> e.days == DayRange(s.startDate.value, s.endDate.value))
      && (!s.Dated() ==> e == s)
      && ListAt(e.worklogs, d) == Matching(Attributed(tickets, fetch), id, d)
  {
    AttributedKnown(tickets, fetch);
    PreparedEntry(tickets, fetch, id);
    AttributedToInWindow(tickets, fetch, id);
    FilledInsert(Prepared(tickets, fetch).entries, Attributed(tickets, fetch), id, FromJira(fetch(id)), d);
  }

  /** Every bucket holds as many entries as there are matching worklogs. */
  lemma BucketSizes(tickets: seq<Ticket>, fetch: SprintId -> RawSprint)
    ensures var e := Expected(tickets, fetch);
      forall id, d :: id in e.order && d in e.entries[id].days ==>
        id in e.entries && |ListAt(e.entries[id].worklogs, d)| == |Matching(Attributed(tickets, fetch), id, d)|
  {
    var e := Expected(tickets, fetch);
    PreparedKeys(tickets, fetch);
    forall id, d | id in e.order && d in e.entries[id].days
      ensures |ListAt(e.entries[id].worklogs, d)| == |Matching(Attributed(tickets, fetch), id, d)|
    {
      ExpectedBuckets(tickets, fetch, id, d);
    }
  }

  /** An attributed worklog has a bucket: its sprint is in the final
      dictionary and its log date is one of that sprint's days. */
  lemma WorklogPlaced(tickets: seq<Ticket>, fetch: SprintId -> RawSprint, w: Worklog)
    requires w in Attributed(tickets, fetch) && w.sprint.Some?
    ensures var e := Expected(tickets, fetch);
      w.sprint.value in e.order && w.logDate in e.entries[w.sprint.value].days
  {
    var ws, p := Attributed(tickets, fetch), Prepared(tickets, fetch);
    var id := w.sprint.value;
    AttributedKnown(tickets, fetch);
    var i :| 0 <= i < |ws| && ws[i] == w;
    assert id in p.entries && id in p.order;
    PreparedKeys(tickets, fetch);
    ExpectedBuckets(tickets, fetch, id, 0);
    AttributedToInWindow(tickets, fetch, id);
    InWindowHasDay(FromJira(fetch(id)), w);
  }

  lemma AllPlaced(tickets: seq<Ticket>, fetch: SprintId -> RawSprint)
    ensures var e := Expected(tickets, fetch);
      && (forall id :: id in e.order ==> id in e.entries && NoDup(e.entries[id].days))
      && (forall w :: w in Attributed(tickets, fetch) && w.sprint.Some? ==>
            w.sprint.value in e.order && w.logDate in e.entries[w.sprint.value].days)
  {
    var e := Expected(tickets, fetch);
    PreparedKeys(tickets, fetch);
    forall id | id in e.order ensures id in e.entries && NoDup(e.entries[id].days) {
      ExpectedBuckets(tickets, fetch, id, 0);
    }
    forall w | w in Attributed(tickets, fetch) && w.sprint.Some?
      ensures w.sprint.value in e.order && w.logDate in e.entries[w.sprint.value].days
    {
      WorklogPlaced(tickets, fetch, w);
    }
  }

  /** No worklog is lost or duplicated: the buckets of all sprints together
      with the sprint-less list hold as many entries as there are worklogs. */
  lemma ExpectedCount(tickets: seq<Ticket>, fetch: SprintId -> RawSprint)
    ensures var e := Expected(tickets, fetch);
      e.Valid() &&
      Entries(e.entries, e.order) + |Unattributed(Attributed(tickets, fetch))| == |Attributed(tickets, fetch)|
  {
    var e := Expected(tickets, fetch);
    var ws := Attributed(tickets, fetch);
    ExpectedOrder(tickets, fetch, 0);
    BucketSizes(tickets, fetch);
    EntriesMatch(e.entries, ws, e.order);
    AllPlaced(tickets, fetch);
    CountAll(ws, e.order, e.entries);
  }
}
