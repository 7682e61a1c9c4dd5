/** Sprint resolution and the two attribution passes of `get_worklogs`.

    The tracker is represented by its answers: the searched tickets are a
    sequence of `Ticket` values and `jira.sprint(id)` is the function `fetch`.
    A sprint fetched for id `id` is cached as `FromJira(fetch(id))`; the calls
    made to the tracker are recorded in a fetch log, one entry per call. */
module Attribution {
  import opened Seqs
  import opened Models
  import opened SprintRefs

  /** A worklog as the tracker returns it: id, seconds spent and the day of
      its start timestamp (the timestamp parser is not modelled). */
  datatype RawWorklog = RawWorklog(id: string, seconds: int, logDate: Date)

  /** A searched ticket: its key, its raw sprint references and its worklogs. */
  datatype Ticket = Ticket(key: string, sprintRefs: seq<string>, worklogs: seq<RawWorklog>)

  /** The sprint ids of a ticket's references, in reference order; a reference
      in which the id pattern does not match is skipped. */
  function RefIds(refs: seq<string>): (ids: seq<SprintId>)
    ensures |ids| <= |refs|
    decreases |refs|
  {
    if refs == [] then []
    else
      var ids := RefIds(refs[..|refs| - 1]);
      match ExtractSprintId(refs[|refs| - 1])
      case None => ids
      case Some(id) => ids + [id]
  }

  /** An id is among a ticket's sprint ids exactly when some reference of the
      ticket yields it. */
  lemma {:induction false} RefIdsMembers(refs: seq<string>)
    ensures forall id :: id in RefIds(refs) <==> exists r :: r in refs && ExtractSprintId(r) == Some(id)
    decreases |refs|
  {
    if refs != [] {
      assert refs == refs[..|refs| - 1] + [refs[|refs| - 1]];
      RefIdsMembers(refs[..|refs| - 1]);
    }
  }

  lemma RefIdsStep(refs: seq<string>, i: nat)
    requires i < |refs|
    ensures ExtractSprintId(refs[i]).None? ==> RefIds(refs[..i + 1]) == RefIds(refs[..i])
    ensures ExtractSprintId(refs[i]).Some? ==>
      RefIds(refs[..i + 1]) == RefIds(refs[..i]) + [ExtractSprintId(refs[i]).value]
  {
    assert refs[..i + 1][..i] == refs[..i];
  }

  /** `dict` holds, under each of its ids, the sprint built from the tracker's
      answer for that id. */
  predicate CachedFrom(dict: SprintDict, fetch: SprintId -> RawSprint) {
    dict.Valid() && forall id :: id in dict.entries ==> dict.entries[id] == FromJira(fetch(id))
  }

  /** One reference of the inner loop over a ticket's sprint field: the id
      is read from it and, when the cache does not hold it yet, fetched from
      the tracker and cached. */
  method ResolveRef(ref: string, dict: SprintDict, fetchLog: seq<SprintId>, fetch: SprintId -> RawSprint)
    returns (found: Option<SprintId>, dict': SprintDict, fetchLog': seq<SprintId>)
    requires CachedFrom(dict, fetch)
    ensures found == ExtractSprintId(ref)
    ensures CachedFrom(dict', fetch)
    ensures found.Some? ==> found.value in dict'.entries
    ensures dict'.order == if found.Some? && found.value !in dict.order then dict.order + [found.value] else dict.order
    ensures fetchLog' == if found.Some? && found.value !in dict.order then fetchLog + [found.value] else fetchLog
  {
    found, dict', fetchLog' := ExtractSprintId(ref), dict, fetchLog;
    if found.Some? && found.value !in dict.entries {
      var id := found.value;
      var fetched := fetch(id);
      fetchLog' := fetchLog + [id];
      dict' := SprintDict(dict.order + [id], dict.entries[id := FromJira(fetched)]);
    }
  }

  /** Resolution of one ticket's references (the loop over the ticket's
      sprint field): every matched id is looked up in the cache, fetched and
      cached when it is not there yet, and collected in reference order. The
      tracker is called once for each id new to the cache, in the order the
      cache records them, so the call log keeps matching the cache order. */
  method ResolveTicketSprints(refs: seq<string>, dict: SprintDict, fetchLog: seq<SprintId>, fetch: SprintId -> RawSprint)
    returns (ticketSprints: seq<SprintId>, dict': SprintDict, fetchLog': seq<SprintId>)
    requires CachedFrom(dict, fetch) && fetchLog == dict.order
    ensures ticketSprints == RefIds(refs)
    ensures CachedFrom(dict', fetch)
    ensures dict'.order == Discover(dict.order, RefIds(refs))
    ensures fetchLog' == dict'.order
  {
    ticketSprints, dict', fetchLog' := [], dict, fetchLog;
    for i := 0 to |refs|
      invariant ticketSprints == RefIds(refs[..i])
      invariant CachedFrom(dict', fetch)
      invariant dict'.order == Discover(dict.order, RefIds(refs[..i]))
      invariant fetchLog' == dict'.order
    {
      RefIdsStep(refs, i);
      var found;
      found, dict', fetchLog' := ResolveRef(refs[i], dict', fetchLog', fetch);
      if found.Some? {
        DiscoverSnoc(dict.order, RefIds(refs[..i]), found.value);
        ticketSprints := ticketSprints + [found.value];
      }
    }
    assert refs[..|refs|] == refs;
  }

  /** The sprint fetched for `id` contains `w`. */
  predicate InWindow(fetch: SprintId -> RawSprint, id: SprintId, w: Worklog) {
    ContainsWorklog(FromJira(fetch(id)), w)
  }

  /** `ids[k]` is the first of `ids` whose sprint contains `w`. */
  predicate FirstAt(ids: seq<SprintId>, fetch: SprintId -> RawSprint, w: Worklog, k: int) {
    && 0 <= k < |ids|
    && InWindow(fetch, ids[k], w)
    && forall j :: 0 <= j < k ==> !InWindow(fetch, ids[j], w)
  }

  /** The first of `ids`, in order, whose sprint contains `w`. */
  function FirstContaining(ids: seq<SprintId>, fetch: SprintId -> RawSprint, w: Worklog): (r: Option<SprintId>)
    ensures r.Some? ==> r.value in ids && InWindow(fetch, r.value, w)
    decreases |ids|
  {
    if ids == [] then None
    else if InWindow(fetch, ids[0], w) then Some(ids[0])
    else FirstContaining(ids[1..], fetch, w)
  }

  /** The result is the first candidate whose sprint contains `w`, none of
      the candidates before it doing so; there is none exactly when no
      candidate contains `w`. */
  lemma {:induction false} FirstContainingSpec(ids: seq<SprintId>, fetch: SprintId -> RawSprint, w: Worklog)
    ensures var r := FirstContaining(ids, fetch, w);
      && (r.Some? ==> exists k :: FirstAt(ids, fetch, w, k) && ids[k] == r.value)
      && (r.None? <==> forall id :: id in ids ==> !InWindow(fetch, id, w))
    decreases |ids|
  {
    if ids == [] {
    } else if InWindow(fetch, ids[0], w) {
      assert FirstAt(ids, fetch, w, 0);
    } else {
      var r := FirstContaining(ids[1..], fetch, w);
      FirstContainingSpec(ids[1..], fetch, w);
      if r.Some? {
        var k :| FirstAt(ids[1..], fetch, w, k) && ids[1..][k] == r.value;
        forall j | 0 <= j < k + 1 ensures !InWindow(fetch, ids[j], w) {
          if j > 0 { assert ids[j] == ids[1..][j - 1]; }
        }
        assert FirstAt(ids, fetch, w, k + 1);
      }
      assert ids == [ids[0]] + ids[1..];
    }
  }

  /** The scan for a sprint that contains a worklog, breaking at the first
      one: the loop of the first pass over the ticket's sprints, and the
      inner loop of the fallback pass over all discovered sprints. */
  method FindContainingSprint(ids: seq<SprintId>, dict: SprintDict, w: Worklog, ghost fetch: SprintId -> RawSprint)
    returns (sprint: Option<SprintId>)
    requires CachedFrom(dict, fetch)
    requires forall id :: id in ids ==> id in dict.entries
    ensures sprint == FirstContaining(ids, fetch, w)
  {
    sprint := None;
    for i := 0 to |ids|
      invariant FirstContaining(ids, fetch, w) == FirstContaining(ids[i..], fetch, w)
      invariant sprint.None?
    {
      assert ids[i..][1..] == ids[i + 1..];
      if ContainsWorklog(dict.entries[ids[i]], w) {
        sprint := Some(ids[i]);
        break;
      }
    }
  }

  /** The worklog record built from a raw worklog of ticket `t`, with no sprint. */
  function NewWorklog(t: Ticket, raw: RawWorklog): Worklog {
    Worklog(raw.id, raw.seconds, raw.logDate, None, t.key)
  }

  /** The first pass for one worklog: the first sprint of its own ticket, in
      reference order, that contains it, or none. */
  function PassOneWorklog(t: Ticket, raw: RawWorklog, fetch: SprintId -> RawSprint): Worklog {
    var w := NewWorklog(t, raw);
    w.(sprint := FirstContaining(RefIds(t.sprintRefs), fetch, w))
  }

  function TicketWorklogs(t: Ticket, fetch: SprintId -> RawSprint): (ws: seq<Worklog>)
    ensures |ws| == |t.worklogs|
    ensures forall k :: 0 <= k < |ws| ==> ws[k] == PassOneWorklog(t, t.worklogs[k], fetch)
  {
    seq(|t.worklogs|, k requires 0 <= k < |t.worklogs| => PassOneWorklog(t, t.worklogs[k], fetch))
  }

  /** The first pass on one ticket: the `k`-th worklog carries the `k`-th raw
      worklog's id, time and date and the ticket's key. Its sprint is the
      first id of the ticket's references whose window contains it, and it
      has none exactly when no such window contains it. */
  lemma TicketWorklogsSpec(t: Ticket, fetch: SprintId -> RawSprint, k: int)
    requires 0 <= k < |t.worklogs|
    ensures var w := TicketWorklogs(t, fetch)[k];
      && w.uid == t.worklogs[k].id && w.timeSpent == t.worklogs[k].seconds
      && w.logDate == t.worklogs[k].logDate && w.issue == t.key
    ensures var w := TicketWorklogs(t, fetch)[k];
      w.sprint.Some? ==> exists j :: FirstAt(RefIds(t.sprintRefs), fetch, w, j) && RefIds(t.sprintRefs)[j] == w.sprint.value
    ensures var w := TicketWorklogs(t, fetch)[k];
      w.sprint.None? <==> forall id :: id in RefIds(t.sprintRefs) ==> !InWindow(fetch, id, w)
  {
    var w, ids := TicketWorklogs(t, fetch)[k], RefIds(t.sprintRefs);
    var w0 := NewWorklog(t, t.worklogs[k]);
    assert w == w0.(sprint := FirstContaining(ids, fetch, w0));
    FirstContainingSpec(ids, fetch, w0);
    assert forall id :: InWindow(fetch, id, w0) == InWindow(fetch, id, w);
    if w.sprint.Some? {
      var j :| FirstAt(ids, fetch, w0, j) && ids[j] == w.sprint.value;
      assert FirstAt(ids, fetch, w, j);
    }
  }

  /** The worklog list after the first pass: every worklog of every ticket, in
      ticket order and then worklog order. */
  function PassOne(tickets: seq<Ticket>, fetch: SprintId -> RawSprint): seq<Worklog>
    decreases |tickets|
  {
    if tickets == [] then []
    else PassOne(tickets[..|tickets| - 1], fetch) + TicketWorklogs(tickets[|tickets| - 1], fetch)
  }

  /** The key order of the sprint cache after all tickets: the ids of the
      references of tickets that have at least one worklog (resolution runs
      inside the worklog loop), each once, in order of first discovery. */
  function Discovered(tickets: seq<Ticket>): (order: seq<SprintId>)
    ensures NoDup(order)
    ensures forall id :: id in order <==>
      exists t :: t in tickets && |t.worklogs| > 0 && id in RefIds(t.sprintRefs)
    decreases |tickets|
  {
    if tickets == [] then []
    else
      assert tickets == tickets[..|tickets| - 1] + [tickets[|tickets| - 1]];
      var t := tickets[|tickets| - 1];
      var o := Discovered(tickets[..|tickets| - 1]);
      if |t.worklogs| == 0 then o else Discover(o, RefIds(t.sprintRefs))
  }

  /** The first pass over one ticket (the loop over its worklogs): for each
      worklog the ticket's sprint references are resolved again, and the
      worklog is appended with the first of those sprints that contains it. */
  method CollectTicket(t: Ticket, worklogs: seq<Worklog>, dict: SprintDict, fetchLog: seq<SprintId>, fetch: SprintId -> RawSprint)
    returns (worklogs': seq<Worklog>, dict': SprintDict, fetchLog': seq<SprintId>)
    requires CachedFrom(dict, fetch) && fetchLog == dict.order
    ensures worklogs' == worklogs + TicketWorklogs(t, fetch)
    ensures CachedFrom(dict', fetch)
    ensures dict'.order == if |t.worklogs| == 0 then dict.order else Discover(dict.order, RefIds(t.sprintRefs))
    ensures fetchLog' == dict'.order
  {
    worklogs', dict', fetchLog' := worklogs, dict, fetchLog;
    ghost var ids := RefIds(t.sprintRefs);
    ghost var all := TicketWorklogs(t, fetch);
    for j := 0 to |t.worklogs|
      invariant worklogs' == worklogs + all[..j]
      invariant CachedFrom(dict', fetch)
      invariant dict'.order == if j == 0 then dict.order else Discover(dict.order, ids)
      invariant fetchLog' == dict'.order
    {
      var ticketSprints;
      ticketSprints, dict', fetchLog' := ResolveTicketSprints(t.sprintRefs, dict', fetchLog', fetch);
      if j > 0 {
        DiscoverTwice(dict.order, ids);
      }
      var w := NewWorklog(t, t.worklogs[j]);
      var sprint := FindContainingSprint(ticketSprints, dict', w, fetch);
      w := w.(sprint := sprint);
      assert w == PassOneWorklog(t, t.worklogs[j], fetch) == all[j];
      worklogs' := worklogs' + [w];
      TakeSnoc(all, j);
    }
    assert all[..|t.worklogs|] == all;
  }

  /** The first pass (the loops over tickets and their worklogs): builds the
      worklog list, the sprint cache and the log of tracker calls. */
  method CollectWorklogs(tickets: seq<Ticket>, fetch: SprintId -> RawSprint)
    returns (worklogs: seq<Worklog>, dict: SprintDict, fetchLog: seq<SprintId>)
    ensures worklogs == PassOne(tickets, fetch)
    ensures CachedFrom(dict, fetch) && dict.order == Discovered(tickets)
    ensures fetchLog == dict.order
  {
    worklogs, dict, fetchLog := [], SprintDict([], map[]), [];
    for i := 0 to |tickets|
      invariant worklogs == PassOne(tickets[..i], fetch)
      invariant CachedFrom(dict, fetch) && dict.order == Discovered(tickets[..i])
      invariant fetchLog == dict.order
    {
      assert tickets[..i + 1][..i] == tickets[..i];
      worklogs, dict, fetchLog := CollectTicket(tickets[i], worklogs, dict, fetchLog, fetch);
    }
    assert tickets[..|tickets|] == tickets;
  }

  /** The fallback for one worklog: an unattributed worklog gets the first
      sprint, in discovery order, that contains it; an attributed one is kept. */
  function FallbackWorklog(w: Worklog, order: seq<SprintId>, fetch: SprintId -> RawSprint): (r: Worklog)
    ensures r == w.(sprint := r.sprint)
    ensures w.sprint.Some? ==> r == w
  {
    if w.sprint.Some? then w else w.(sprint := FirstContaining(order, fetch, w))
  }

  /** The fallback gives an unattributed worklog a sprint of `order` that
      contains it, the first in order, and leaves it unattributed exactly when
      no sprint of `order` contains it. */
  lemma FallbackWorklogSpec(w: Worklog, order: seq<SprintId>, fetch: SprintId -> RawSprint)
    requires w.sprint.None?
    ensures var r := FallbackWorklog(w, order, fetch);
      && (r.sprint.Some? ==> exists k :: FirstAt(order, fetch, w, k) && order[k] == r.sprint.value)
      && (r.sprint.None? <==> forall id :: id in order ==> !InWindow(fetch, id, w))
  {
    FirstContainingSpec(order, fetch, w);
  }

  /** The fallback pass over the worklog list: each unattributed worklog is
      checked against every sprint discovered in the run, in discovery order. */
  method Fallback(worklogs: seq<Worklog>, dict: SprintDict, ghost fetch: SprintId -> RawSprint)
    returns (ws: seq<Worklog>)
    requires CachedFrom(dict, fetch)
    ensures |ws| == |worklogs|
    ensures forall i :: 0 <= i < |ws| ==> ws[i] == FallbackWorklog(worklogs[i], dict.order, fetch)
  {
    ws := worklogs;
    ghost var target := seq(|worklogs|, k requires 0 <= k < |worklogs| => FallbackWorklog(worklogs[k], dict.order, fetch));
    for i := 0 to |ws|
      invariant |ws| == |worklogs|
      invariant forall k :: 0 <= k < i ==> ws[k] == target[k]
      invariant forall k :: i <= k < |ws| ==> ws[k] == worklogs[k]
    {
      var w := ws[i];
      if w.sprint.Some? {
        continue;
      }
      var found := FindContainingSprint(dict.order, dict, w, fetch);
      if found.Some? {
        ws := ws[i := w.(sprint := found)];
      }
    }
  }

  /** The worklog list after both passes. */
  function Attributed(tickets: seq<Ticket>, fetch: SprintId -> RawSprint): (ws: seq<Worklog>)
    ensures |ws| == |PassOne(tickets, fetch)|
  {
    var p := PassOne(tickets, fetch);
    seq(|p|, i requires 0 <= i < |p| => FallbackWorklog(p[i], Discovered(tickets), fetch))
  }

  /** After the first pass, a worklog that has a sprint has one the run
      discovered, and that sprint's window contains it. */
  lemma {:induction false} PassOneInWindow(tickets: seq<Ticket>, fetch: SprintId -> RawSprint)
    ensures forall w :: w in PassOne(tickets, fetch) && w.sprint.Some? ==>
      w.sprint.value in Discovered(tickets) && InWindow(fetch, w.sprint.value, w)
    decreases |tickets|
  {
    if tickets != [] {
      var init, t := tickets[..|tickets| - 1], tickets[|tickets| - 1];
      assert tickets == init + [t];
      PassOneInWindow(init, fetch);
      forall w | w in TicketWorklogs(t, fetch) && w.sprint.Some?
        ensures w.sprint.value in Discovered(tickets) && InWindow(fetch, w.sprint.value, w)
      {
        var k :| 0 <= k < |t.worklogs| && TicketWorklogs(t, fetch)[k] == w;
        assert w == PassOneWorklog(t, t.worklogs[k], fetch);
        assert w.sprint.value in RefIds(t.sprintRefs);
        assert t in tickets && |t.worklogs| > 0;
      }
    }
  }

  /** After both passes, a worklog that has a sprint has one the run
      discovered; that sprint has both dates and its window contains the
      worklog's log date. A sprint lacking a date therefore never receives a
      worklog. */
  lemma AttributedInWindow(tickets: seq<Ticket>, fetch: SprintId -> RawSprint)
    ensures forall w :: w in Attributed(tickets, fetch) && w.sprint.Some? ==>
      && w.sprint.value in Discovered(tickets)
      && InWindow(fetch, w.sprint.value, w)
      && FromJira(fetch(w.sprint.value)).Dated()
  {
    PassOneInWindow(tickets, fetch);
    var p := PassOne(tickets, fetch);
    forall w | w in Attributed(tickets, fetch) && w.sprint.Some?
      ensures w.sprint.value in Discovered(tickets) && InWindow(fetch, w.sprint.value, w)
    {
      var i :| 0 <= i < |p| && Attributed(tickets, fetch)[i] == w;
      assert w == FallbackWorklog(p[i], Discovered(tickets), fetch);
      if p[i].sprint.Some? {
        assert p[i] in p;
      }
    }
  }
}
