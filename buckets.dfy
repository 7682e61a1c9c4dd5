/** The day buckets of the sprints: every fully dated sprint first gets an
    empty list for each day of its window, then each worklog is appended to
    the list of its sprint for its log date, and a worklog without a sprint
    is set aside in a list of its own. */
module Buckets {
  import opened Seqs
  import opened Models

  /** The days `start`, `start + 1`, ..., `end`; none when `end < start`. */
  function DayRange(start: Date, end: Date): (r: seq<Date>)
    ensures |r| == if end < start then 0 else end - start + 1
    ensures forall k :: 0 <= k < |r| ==> r[k] == start + k
  {
    seq(if end < start then 0 else end - start + 1, k => start + k)
  }

  /** The range holds exactly the days of the inclusive window, ascending. */
  lemma DayRangeFacts(start: Date, end: Date)
    ensures forall d :: d in DayRange(start, end) <==> start <= d <= end
    ensures forall i, j :: 0 <= i < j < |DayRange(start, end)| ==> DayRange(start, end)[i] < DayRange(start, end)[j]
    ensures NoDup(DayRange(start, end))
  {
    var r := DayRange(start, end);
    forall d | start <= d <= end ensures d in r {
      assert r[d - start] == d;
    }
  }

  /** A worklog inside the window of a sprint falls on one of its days. */
  lemma InWindowHasDay(s: Sprint, w: Worklog)
    requires ContainsWorklog(s, w)
    ensures w.logDate in DayRange(s.startDate.value, s.endDate.value)
  {
    DayRangeFacts(s.startDate.value, s.endDate.value);
  }

  /** One empty list for each day of the range. */
  function EmptyDays(start: Date, end: Date): (m: map<Date, seq<Worklog>>)
    ensures forall d :: d in m <==> start <= d <= end
    ensures forall d :: d in m ==> m[d] == []
  {
    DayRangeFacts(start, end);
    map d | d in DayRange(start, end) :: []
  }

  /** The day buckets of one sprint before any worklog is added: a sprint with
      both dates gets exactly the days of its window, ascending, each with an
      empty list; a sprint lacking a date is left as it is. */
  function FillDays(s: Sprint): (r: Sprint)
    ensures !s.Dated() ==> r == s
    ensures s.Dated() ==> r.days == DayRange(s.startDate.value, s.endDate.value)
    ensures s.Dated() ==> forall d :: d in r.worklogs <==> s.startDate.value <= d <= s.endDate.value
    ensures s.Dated() ==> forall d :: d in r.worklogs ==> r.worklogs[d] == []
    ensures s.Dated() ==> r.DaysWellFormed()
    ensures r == s.(days := r.days, worklogs := r.worklogs)
  {
    if !s.Dated() then s
    else
      var start, end := s.startDate.value, s.endDate.value;
      DayRangeFacts(start, end);
      s.(days := DayRange(start, end), worklogs := EmptyDays(start, end))
  }

  /** A sprint whose end precedes its start gets no buckets at all. */
  lemma FillDaysEmptyWindow(s: Sprint)
    requires s.Dated() && s.endDate.value < s.startDate.value
    ensures FillDays(s).days == [] && FillDays(s).worklogs == map[]
  {
    assert FillDays(s).worklogs.Keys == {};
  }

  /** Filling twice gives what filling once gives. */
  lemma FillDaysIdempotent(s: Sprint)
    ensures FillDays(FillDays(s)) == FillDays(s)
  {
  }

  /** The window test and the day buckets agree: a sprint contains a worklog
      exactly when it is fully dated and its filled buckets have a list for
      the worklog's log date. */
  lemma ContainsIffBucketed(s: Sprint, w: Worklog)
    ensures ContainsWorklog(s, w) <==> s.Dated() && w.logDate in FillDays(s).worklogs
  {
  }

  /** The loop over the sorted sprints that replaces the day buckets of every
      fully dated sprint by empty lists for each day of its window. */
  method FillAllDays(d: SprintDict) returns (r: SprintDict)
    requires d.Valid()
    ensures r.order == d.order && r.Valid()
    ensures r.entries == map id | id in d.entries :: FillDays(d.entries[id])
  {
    r := d;
    for i := 0 to |d.order|
      invariant r.order == d.order
      invariant r.entries.Keys == d.entries.Keys
      invariant forall id :: id in r.entries ==>
        r.entries[id] == if id in d.order[..i] then FillDays(d.entries[id]) else d.entries[id]
    {
      var id := d.order[i];
      assert id !in d.order[..i];
      assert d.order[..i + 1] == d.order[..i] + [id];
      var s := r.entries[id];
      if s.startDate.None? || s.endDate.None? {
        continue;
      }
      var start, end := s.startDate.value, s.endDate.value;
      r := r.(entries := r.entries[id := s.(days := DayRange(start, end), worklogs := EmptyDays(start, end))]);
    }
    assert d.order[..|d.order|] == d.order;
  }

  /** The worklogs of `ws` attributed to sprint `id` and logged on `day`, in
      list order. */
  function Matching(ws: seq<Worklog>, id: SprintId, day: Date): (r: seq<Worklog>)
    ensures |r| <= |ws|
    decreases |ws|
  {
    if ws == [] then []
    else
      var w := ws[|ws| - 1];
      Matching(ws[..|ws| - 1], id, day) + (if w.sprint == Some(id) && w.logDate == day then [w] else [])
  }

  /** The worklogs of `ws` with no sprint, in list order. */
  function Unattributed(ws: seq<Worklog>): (r: seq<Worklog>)
    ensures |r| <= |ws|
    decreases |ws|
  {
    if ws == [] then []
    else
      var w := ws[|ws| - 1];
      Unattributed(ws[..|ws| - 1]) + (if w.sprint.None? then [w] else [])
  }

  /** A worklog is in a day list exactly when it is one of the worklogs,
      attributed to that sprint and logged on that day: no worklog is in the
      lists of two different sprints or two different days. */
  lemma {:induction false} MatchingMembers(ws: seq<Worklog>, id: SprintId, day: Date)
    ensures forall w :: w in Matching(ws, id, day) <==> w in ws && w.sprint == Some(id) && w.logDate == day
    decreases |ws|
  {
    if ws != [] {
      assert ws == ws[..|ws| - 1] + [ws[|ws| - 1]];
      MatchingMembers(ws[..|ws| - 1], id, day);
    }
  }

  /** The sprint-less list holds exactly the worklogs without a sprint. */
  lemma {:induction false} UnattributedMembers(ws: seq<Worklog>)
    ensures forall w :: w in Unattributed(ws) <==> w in ws && w.sprint.None?
    decreases |ws|
  {
    if ws != [] {
      assert ws == ws[..|ws| - 1] + [ws[|ws| - 1]];
      UnattributedMembers(ws[..|ws| - 1]);
    }
  }

  /** The log dates of the worklogs of `ws` attributed to `id`, in list order. */
  function DatesOf(ws: seq<Worklog>, id: SprintId): (r: seq<Date>)
    ensures forall d :: d in r <==> exists w :: w in ws && w.sprint == Some(id) && w.logDate == d
    decreases |ws|
  {
    if ws == [] then []
    else
      var w := ws[|ws| - 1];
      assert ws == ws[..|ws| - 1] + [w];
      DatesOf(ws[..|ws| - 1], id) + (if w.sprint == Some(id) then [w.logDate] else [])
  }

  /** Every attributed worklog of `ws` names a sprint of `m`. */
  predicate SprintsKnown(ws: seq<Worklog>, m: map<SprintId, Sprint>) {
    forall i :: 0 <= i < |ws| && ws[i].sprint.Some? ==> ws[i].sprint.value in m
  }

  /** Appending a worklog to the list of its log date, creating the list when
      the day has none yet. */
  function AddToDay(s: Sprint, w: Worklog): Sprint {
    var d := w.logDate;
    if d in s.worklogs then s.(worklogs := s.worklogs[d := s.worklogs[d] + [w]])
    else s.(days := s.days + [d], worklogs := s.worklogs[d := [w]])
  }

  /** The insertion loop over the worklog list: each attributed worklog is
      appended to its sprint's list for its day. */
  function InsertAll(m: map<SprintId, Sprint>, ws: seq<Worklog>): (r: map<SprintId, Sprint>)
    requires SprintsKnown(ws, m)
    ensures r.Keys == m.Keys
    decreases |ws|
  {
    if ws == [] then m
    else
      var w := ws[|ws| - 1];
      var r := InsertAll(m, ws[..|ws| - 1]);
      if w.sprint.None? then r else r[w.sprint.value := AddToDay(r[w.sprint.value], w)]
  }

  /** The list a day dictionary holds for `d`, or the empty list. */
  function ListAt(worklogs: map<Date, seq<Worklog>>, d: Date): seq<Worklog> {
    if d in worklogs then worklogs[d] else []
  }

  /** Appending changes only the list of the worklog's day, and adds that
      day to the key order when it is new. */
  lemma AddToDayList(s: Sprint, w: Worklog, d: Date)
    ensures ListAt(AddToDay(s, w).worklogs, d) == ListAt(s.worklogs, d) + (if w.logDate == d then [w] else [])
  {
  }

  lemma AddToDayFacts(s: Sprint, w: Worklog)
    requires s.DaysWellFormed()
    ensures AddToDay(s, w).DaysWellFormed()
    ensures AddToDay(s, w).days == if w.logDate in s.days then s.days else s.days + [w.logDate]
    ensures AddToDay(s, w) == s.(days := AddToDay(s, w).days, worklogs := AddToDay(s, w).worklogs)
  {
  }

  lemma InsertAllStep(m: map<SprintId, Sprint>, ws: seq<Worklog>, id: SprintId)
    requires SprintsKnown(ws, m) && id in m && ws != []
    ensures SprintsKnown(ws[..|ws| - 1], m)
    ensures InsertAll(m, ws)[id]
         == if ws[|ws| - 1].sprint == Some(id) then AddToDay(InsertAll(m, ws[..|ws| - 1])[id], ws[|ws| - 1])
            else InsertAll(m, ws[..|ws| - 1])[id]
  {
    assert SprintsKnown(ws[..|ws| - 1], m);
  }

  /** After insertion, the day order of sprint `id` is its old order followed
      by the log dates of its worklogs that were not days yet, in order of
      first appearance, and the day dictionary stays well formed. */
  lemma {:induction false} InsertAllDays(m: map<SprintId, Sprint>, ws: seq<Worklog>, id: SprintId)
    requires SprintsKnown(ws, m) && id in m && m[id].DaysWellFormed()
    ensures InsertAll(m, ws)[id].days == Discover(m[id].days, DatesOf(ws, id))
    ensures InsertAll(m, ws)[id].DaysWellFormed()
    ensures InsertAll(m, ws)[id] == m[id].(days := InsertAll(m, ws)[id].days, worklogs := InsertAll(m, ws)[id].worklogs)
    decreases |ws|
  {
    if ws != [] {
      var init, w := ws[..|ws| - 1], ws[|ws| - 1];
      InsertAllStep(m, ws, id);
      InsertAllDays(m, init, id);
      if w.sprint == Some(id) {
        var before := InsertAll(m, init)[id];
        AddToDayFacts(before, w);
        assert DatesOf(ws, id) == DatesOf(init, id) + [w.logDate];
        DiscoverSnoc(m[id].days, DatesOf(init, id), w.logDate);
      } else {
        assert DatesOf(ws, id) == DatesOf(init, id);
      }
    }
  }

  /** After insertion, the list of sprint `id` for day `d` is what it held
      before followed by the worklogs attributed to `id` and logged on `d`, in
      list order. */
  lemma {:induction false} InsertAllLists(m: map<SprintId, Sprint>, ws: seq<Worklog>, id: SprintId, d: Date)
    requires SprintsKnown(ws, m) && id in m
    ensures ListAt(InsertAll(m, ws)[id].worklogs, d) == ListAt(m[id].worklogs, d) + Matching(ws, id, d)
    decreases |ws|
  {
    if ws != [] {
      var init, w := ws[..|ws| - 1], ws[|ws| - 1];
      InsertAllStep(m, ws, id);
      InsertAllLists(m, init, id, d);
      if w.sprint == Some(id) {
        AddToDayList(InsertAll(m, init)[id], w, d);
      }
    }
  }

  /** Insertion into the buckets of a sprint freshly read from the tracker,
      when every worklog attributed to it falls in its window: the window's
      buckets stay exactly the days, and each holds the matching worklogs. */
  lemma FilledInsert(m: map<SprintId, Sprint>, ws: seq<Worklog>, id: SprintId, s: Sprint, d: Date)
    requires SprintsKnown(ws, m) && id in m && m[id] == FillDays(s)
    requires s.days == [] && s.worklogs == map[]
    requires forall w :: w in ws && w.sprint == Some(id) ==> ContainsWorklog(s, w)
    ensures var e := InsertAll(m, ws)[id];
      && e == s.(days := e.days, worklogs := e.worklogs)
      && e.DaysWellFormed()
      && (s.Dated() ==> e.days == DayRange(s.startDate.value, s.endDate.value))
      && (!s.Dated() ==> e == s)
      && ListAt(e.worklogs, d) == Matching(ws, id, d)
  {
    InsertAllDays(m, ws, id);
    InsertAllLists(m, ws, id, d);
    if s.Dated() {
      FilledInsertDated(m, ws, id, s);
    } else {
      NoneFor(ws, id, d);
      var e := InsertAll(m, ws)[id];
      assert e.worklogs.Keys == {};
    }
  }

  lemma FilledInsertDated(m: map<SprintId, Sprint>, ws: seq<Worklog>, id: SprintId, s: Sprint)
    requires SprintsKnown(ws, m) && id in m && m[id] == FillDays(s) && s.Dated()
    requires forall w :: w in ws && w.sprint == Some(id) ==> ContainsWorklog(s, w)
    requires InsertAll(m, ws)[id].days == Discover(m[id].days, DatesOf(ws, id))
    ensures InsertAll(m, ws)[id].days == DayRange(s.startDate.value, s.endDate.value)
  {
    DayRangeFacts(s.startDate.value, s.endDate.value);
    forall x | x in DatesOf(ws, id) ensures x in m[id].days {
      var w :| w in ws && w.sprint == Some(id) && w.logDate == x;
    }
    DiscoverKnown(m[id].days, DatesOf(ws, id));
  }

  /** A sprint named by no worklog gets no dates and no matching worklogs. */
  lemma {:induction false} NoneFor(ws: seq<Worklog>, id: SprintId, d: Date)
    requires forall w :: w in ws ==> w.sprint != Some(id)
    ensures DatesOf(ws, id) == [] && Matching(ws, id, d) == []
    decreases |ws|
  {
    if ws != [] {
      assert ws[|ws| - 1] in ws;
      assert forall w :: w in ws[..|ws| - 1] ==> w in ws;
      NoneFor(ws[..|ws| - 1], id, d);
    }
  }

  /** The worklogs of `ws` attributed to `id` and logged on one of `days`. */
  function DayCount(ws: seq<Worklog>, id: SprintId, days: seq<Date>): nat
    decreases |days|
  {
    if days == [] then 0
    else DayCount(ws, id, days[..|days| - 1]) + |Matching(ws, id, days[|days| - 1])|
  }

  /** The worklogs of `ws` attributed to one of `ids` on one of its days. */
  function SprintCount(ws: seq<Worklog>, ids: seq<SprintId>, m: map<SprintId, Sprint>): nat
    requires forall id :: id in ids ==> id in m
    decreases |ids|
  {
    if ids == [] then 0
    else SprintCount(ws, ids[..|ids| - 1], m) + DayCount(ws, ids[|ids| - 1], m[ids[|ids| - 1]].days)
  }

  lemma {:induction false} DayCountSnoc(ws: seq<Worklog>, w: Worklog, id: SprintId, days: seq<Date>)
    requires NoDup(days)
    ensures DayCount(ws + [w], id, days)
         == DayCount(ws, id, days) + (if w.sprint == Some(id) && w.logDate in days then 1 else 0)
    decreases |days|
  {
    assert (ws + [w])[..|ws|] == ws;
    if days != [] {
      var init := days[..|days| - 1];
      assert days == init + [days[|days| - 1]];
      DayCountSnoc(ws, w, id, init);
    }
  }

  lemma {:induction false} SprintCountSnoc(ws: seq<Worklog>, w: Worklog, ids: seq<SprintId>, m: map<SprintId, Sprint>)
    requires forall id :: id in ids ==> id in m && NoDup(m[id].days)
    requires NoDup(ids)
    ensures SprintCount(ws + [w], ids, m) == SprintCount(ws, ids, m)
      + (if w.sprint.Some? && w.sprint.value in ids && w.logDate in m[w.sprint.value].days then 1 else 0)
    decreases |ids|
  {
    if ids != [] {
      var init, last := ids[..|ids| - 1], ids[|ids| - 1];
      assert ids == init + [last];
      SprintCountSnoc(ws, w, init, m);
      DayCountSnoc(ws, w, last, m[last].days);
    }
  }

  lemma {:induction false} CountEmpty(ids: seq<SprintId>, m: map<SprintId, Sprint>)
    requires forall id :: id in ids ==> id in m
    ensures SprintCount([], ids, m) == 0
    decreases |ids|
  {
    if ids != [] {
      CountEmpty(ids[..|ids| - 1], m);
      DayCountEmpty(ids[|ids| - 1], m[ids[|ids| - 1]].days);
    }
  }

  lemma {:induction false} DayCountEmpty(id: SprintId, days: seq<Date>)
    ensures DayCount([], id, days) == 0
    decreases |days|
  {
    if days != [] {
      DayCountEmpty(id, days[..|days| - 1]);
    }
  }

  /** When every attributed worklog names one of `ids` and one of that
      sprint's days, each worklog is counted exactly once: in the buckets
      when it is attributed, in the unattributed list otherwise. */
  lemma {:induction false} CountAll(ws: seq<Worklog>, ids: seq<SprintId>, m: map<SprintId, Sprint>)
    requires forall id :: id in ids ==> id in m && NoDup(m[id].days)
    requires NoDup(ids)
    requires forall w :: w in ws && w.sprint.Some? ==> w.sprint.value in ids && w.logDate in m[w.sprint.value].days
    ensures SprintCount(ws, ids, m) + |Unattributed(ws)| == |ws|
    decreases |ws|
  {
    if ws != [] {
      var init, w := ws[..|ws| - 1], ws[|ws| - 1];
      assert ws == init + [w];
      assert w in ws;
      assert Unattributed(ws) == Unattributed(init) + (if w.sprint.None? then [w] else []);
      CountAll(init, ids, m);
      SprintCountSnoc(init, w, ids, m);
    } else {
      CountEmpty(ids, m);
    }
  }

  /** The number of worklogs in the day lists of `s` for `days`. */
  function DayEntries(s: Sprint, days: seq<Date>): nat
    decreases |days|
  {
    if days == [] then 0
    else DayEntries(s, days[..|days| - 1]) + |ListAt(s.worklogs, days[|days| - 1])|
  }

  /** The number of worklogs in all day lists of the sprints `ids`. */
  function Entries(m: map<SprintId, Sprint>, ids: seq<SprintId>): nat
    requires forall id :: id in ids ==> id in m
    decreases |ids|
  {
    if ids == [] then 0
    else Entries(m, ids[..|ids| - 1]) + DayEntries(m[ids[|ids| - 1]], m[ids[|ids| - 1]].days)
  }

  lemma {:induction false} DayEntriesMatch(s: Sprint, ws: seq<Worklog>, id: SprintId, days: seq<Date>)
    requires forall d :: d in days ==> |ListAt(s.worklogs, d)| == |Matching(ws, id, d)|
    ensures DayEntries(s, days) == DayCount(ws, id, days)
    decreases |days|
  {
    if days != [] {
      DayEntriesMatch(s, ws, id, days[..|days| - 1]);
    }
  }

  /** When every day list holds exactly the matching worklogs, the number of
      entries in the buckets is the number of worklogs counted by sprint and day. */
  lemma {:induction false} EntriesMatch(m: map<SprintId, Sprint>, ws: seq<Worklog>, ids: seq<SprintId>)
    requires forall id :: id in ids ==> id in m
    requires forall id, d :: id in ids && d in m[id].days ==> |ListAt(m[id].worklogs, d)| == |Matching(ws, id, d)|
    ensures Entries(m, ids) == SprintCount(ws, ids, m)
    decreases |ids|
  {
    if ids != [] {
      var last := ids[|ids| - 1];
      EntriesMatch(m, ws, ids[..|ids| - 1]);
      DayEntriesMatch(m[last], ws, last, m[last].days);
    }
  }

  /** One more worklog of the list inserted. */
  lemma InsertSnoc(m: map<SprintId, Sprint>, ws: seq<Worklog>, i: nat)
    requires SprintsKnown(ws, m) && i < |ws|
    ensures SprintsKnown(ws[..i], m) && SprintsKnown(ws[..i + 1], m)
    ensures InsertAll(m, ws[..i + 1])
         == if ws[i].sprint.None? then InsertAll(m, ws[..i])
            else InsertAll(m, ws[..i])[ws[i].sprint.value := AddToDay(InsertAll(m, ws[..i])[ws[i].sprint.value], ws[i])]
    ensures Unattributed(ws[..i + 1]) == Unattributed(ws[..i]) + (if ws[i].sprint.None? then [ws[i]] else [])
  {
    assert ws[..i + 1][..i] == ws[..i];
    assert SprintsKnown(ws[..i + 1], m);
  }

  /** The insertion loop: an attributed worklog is appended to the list of
      its sprint for its log date, the list being created when the day is
      missing; a worklog without a sprint goes to the sprint-less list. */
  method InsertWorklogs(d: SprintDict, ws: seq<Worklog>) returns (r: SprintDict, sprintless: seq<Worklog>)
    requires d.Valid() && SprintsKnown(ws, d.entries)
    requires forall id :: id in d.entries ==> d.entries[id].uid == id
    ensures r.order == d.order && r.Valid()
    ensures r.entries == InsertAll(d.entries, ws)
    ensures sprintless == Unattributed(ws)
  {
    r, sprintless := d, [];
    for i := 0 to |ws|
      invariant r.order == d.order
      invariant SprintsKnown(ws[..i], d.entries)
      invariant r.entries == InsertAll(d.entries, ws[..i])
      invariant sprintless == Unattributed(ws[..i])
    {
      var w := ws[i];
      InsertSnoc(d.entries, ws, i);
      if w.sprint.None? {
        sprintless := sprintless + [w];
        continue;
      }
      var key := d.entries[w.sprint.value].uid;
      var sprint := r.entries[key];
      if w.logDate in sprint.worklogs {
        sprint := sprint.(worklogs := sprint.worklogs[w.logDate := sprint.worklogs[w.logDate] + [w]]);
      } else {
        sprint := sprint.(days := sprint.days + [w.logDate], worklogs := sprint.worklogs[w.logDate := [w]]);
      }
      r := r.(entries := r.entries[key := sprint]);
    }
    assert ws[..|ws|] == ws;
  }
}
