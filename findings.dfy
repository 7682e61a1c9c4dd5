/** Three steps of `get_worklogs` as they are written, next to the corrected
    steps the rest of the model uses.

    1. The first pass never resets its local `sprint`: a worklog that no
       sprint of its own ticket contains takes the sprint of the previous
       worklog, and when there is no previous one the lookup of the unbound
       local raises.
    2. The fallback iterates the sprint dictionary itself, i.e. its keys (the
       id texts), and calls `contains_worklog` on a text, which raises as soon
       as an unattributed worklog meets a non-empty dictionary.
    3. The insertion reads `w.sprint.uid` for every worklog and raises on a
       worklog whose sprint is None. */
module AsWritten {
  import opened Seqs
  import opened Models
  import opened SprintRefs
  import opened Attribution
  import opened Buckets

  /** What a step of the source does: return a value or raise. */
  datatype Outcome<T> = Returns(value: T) | Raises(error: string)

  const UnboundSprint: string := "UnboundLocalError: sprint"
  const TextHasNoContains: string := "AttributeError: 'str' object has no attribute 'contains_worklog'"
  const NoneHasNoUid: string := "AttributeError: 'NoneType' object has no attribute 'uid'"

  /** The sprint the local `sprint` holds after the worklogs `ws`, starting
      from `carried`: the last one found. */
  function LastFound(ws: seq<Worklog>, carried: Option<SprintId>): (r: Option<SprintId>)
    ensures r.None? <==> carried.None? && forall k :: 0 <= k < |ws| ==> ws[k].sprint.None?
    decreases |ws|
  {
    if ws == [] then carried
    else if ws[|ws| - 1].sprint.Some? then ws[|ws| - 1].sprint
    else LastFound(ws[..|ws| - 1], carried)
  }

  /** The first pass as written, applied to the results of the per-worklog
      search of the corrected pass (`ws`): a worklog whose own sprints do not
      contain it keeps the value `sprint` still holds from before, and the
      pass raises when that value was never assigned. */
  function CarryOver(ws: seq<Worklog>, carried: Option<SprintId>): (r: Outcome<seq<Worklog>>)
    ensures r.Raises? <==> carried.None? && ws != [] && ws[0].sprint.None?
    ensures r.Raises? ==> r.error == UnboundSprint
    ensures r.Returns? ==> |r.value| == |ws|
    decreases |ws|
  {
    if ws == [] then Returns([])
    else
      var s := if ws[0].sprint.Some? then ws[0].sprint else carried;
      if s.None? then Raises(UnboundSprint)
      else
        match CarryOver(ws[1..], s)
        case Raises(e) => Raises(e)
        case Returns(rest) => Returns([ws[0].(sprint := s)] + rest)
  }

  /** When the pass returns, each worklog is unchanged but for its sprint,
      which is the last sprint found up to and including it, and is set. */
  lemma {:induction false} CarryOverValues(ws: seq<Worklog>, carried: Option<SprintId>)
    requires CarryOver(ws, carried).Returns?
    ensures forall k :: 0 <= k < |ws| ==>
      && CarryOver(ws, carried).value[k] == ws[k].(sprint := LastFound(ws[..k + 1], carried))
      && LastFound(ws[..k + 1], carried).Some?
    decreases |ws|
  {
    if ws != [] {
      var s := if ws[0].sprint.Some? then ws[0].sprint else carried;
      CarryOverValues(ws[1..], s);
      var r := CarryOver(ws, carried).value;
      forall k | 0 <= k < |ws|
        ensures r[k] == ws[k].(sprint := LastFound(ws[..k + 1], carried)) && LastFound(ws[..k + 1], carried).Some?
      {
        if k == 0 {
          assert ws[..1] == [ws[0]] && [ws[0]][..0] == [];
        } else {
          CarryShift(ws, carried, k);
          assert ws[1..][k - 1] == ws[k] && ws[1..][..k - 1 + 1] == ws[1..][..k];
        }
      }
    }
  }

  /** Dropping the first worklog into the carried value. */
  lemma {:induction false} CarryShift(ws: seq<Worklog>, carried: Option<SprintId>, k: nat)
    requires 1 <= k < |ws|
    ensures LastFound(ws[..k + 1], carried)
         == LastFound(ws[1..][..k], if ws[0].sprint.Some? then ws[0].sprint else carried)
    decreases k
  {
    assert ws[..k + 1][..k] == ws[..k];
    assert ws[1..][..k][..k - 1] == ws[1..][..k - 1];
    if k > 1 {
      CarryShift(ws, carried, k - 1);
    }
  }

  /** The first pass as written over the tickets of a run. */
  function PassOneAsWritten(tickets: seq<Ticket>, fetch: SprintId -> RawSprint): Outcome<seq<Worklog>> {
    CarryOver(PassOne(tickets, fetch), None)
  }

  /** The fallback as written: the inner loop runs over the keys of the
      dictionary, so the first unattributed worklog raises unless the
      dictionary is empty, in which case nothing changes. */
  function FallbackAsWritten(ws: seq<Worklog>, order: seq<SprintId>): (r: Outcome<seq<Worklog>>)
    ensures r.Raises? <==> order != [] && exists k :: 0 <= k < |ws| && ws[k].sprint.None?
    ensures r.Raises? ==> r.error == TextHasNoContains
    ensures r.Returns? ==> r.value == ws
    decreases |ws|
  {
    if ws == [] then Returns([])
    else if ws[0].sprint.None? && order != [] then Raises(TextHasNoContains)
    else
      match FallbackAsWritten(ws[1..], order)
      case Raises(e) =>
        assert forall k :: 1 <= k < |ws| ==> ws[1..][k - 1] == ws[k];
        Raises(e)
      case Returns(rest) =>
        assert forall k :: 0 <= k < |ws[1..]| ==> ws[1..][k] == ws[k + 1];
        Returns([ws[0]] + rest)
  }

  /** The insertion as written: every worklog is looked up through the uid of
      its sprint, which raises on the first worklog without one. */
  function InsertAsWritten(m: map<SprintId, Sprint>, ws: seq<Worklog>): (r: Outcome<map<SprintId, Sprint>>)
    requires SprintsKnown(ws, m)
    ensures r.Raises? <==> exists k :: 0 <= k < |ws| && ws[k].sprint.None?
    ensures r.Raises? ==> r.error == NoneHasNoUid
    ensures r.Returns? ==> r.value == InsertAll(m, ws)
    decreases |ws|
  {
    if ws == [] then Returns(m)
    else
      var w := ws[|ws| - 1];
      assert SprintsKnown(ws[..|ws| - 1], m);
      match InsertAsWritten(m, ws[..|ws| - 1])
      case Raises(e) => Raises(e)
      case Returns(r) =>
        if w.sprint.None? then Raises(NoneHasNoUid)
        else
          assert forall k :: 0 <= k < |ws| - 1 ==> ws[..|ws| - 1][k] == ws[k];
          Returns(r[w.sprint.value := AddToDay(r[w.sprint.value], w)])
  }

  /** As written, the first pass raises exactly when the very first worklog
      of the run lies in none of its own ticket's sprints. */
  lemma PassOneRaises(tickets: seq<Ticket>, fetch: SprintId -> RawSprint)
    ensures PassOneAsWritten(tickets, fetch).Raises?
        <==> PassOne(tickets, fetch) != [] && PassOne(tickets, fetch)[0].sprint.None?
  {
  }

  /** As written, once the first pass returns every worklog has a sprint, so
      the fallback never changes anything: it is unreachable. */
  lemma FallbackNeverRuns(tickets: seq<Ticket>, fetch: SprintId -> RawSprint, order: seq<SprintId>)
    requires PassOneAsWritten(tickets, fetch).Returns?
    ensures FallbackAsWritten(PassOneAsWritten(tickets, fetch).value, order)
         == Returns(PassOneAsWritten(tickets, fetch).value)
  {
    CarryOverValues(PassOne(tickets, fetch), None);
  }

  /** A tracker with one sprint, "1", running from 1970-01-11 to 1970-01-21
      (days 10 to 20); every other id has no dates. */
  function OneSprint(id: SprintId): RawSprint {
    if id == "1" then RawSprint("1", Text("1970-01-11", 10), Text("1970-01-21", 20), "S1", "closed")
    else RawSprint(id, Missing, Missing, "", "")
  }

  const InSprint: Ticket := Ticket("A-1", ["id=1"], [RawWorklog("w1", 3600, 15)])
  const AfterSprint: Ticket := Ticket("A-2", ["id=1"], [RawWorklog("w2", 7200, 30)])

  /** The worklog of A-1, on 1970-01-16 (day 15), in sprint "1". */
  const W1: Worklog := Worklog("w1", 3600, 15, Some("1"), "A-1")
  /** The worklog of A-2, on 1970-01-31 (day 30), with no sprint. */
  const W2: Worklog := Worklog("w2", 7200, 30, None, "A-2")

  lemma RefOne()
    ensures RefIds(["id=1"]) == ["1"]
  {
    var s := "id=1";
    assert IdAt(s, 0);
    assert DigitsEnd(s, 3) == 4 by {
      assert IsDigit(s[3]);
    }
    assert s[3..4] == "1";
    assert ["id=1"][..0] == [];
  }

  /** The first pass on each ticket: A-1's worklog lies in sprint "1"; A-2's
      worklog is logged after sprint "1" ends on day 20, so it lies in no
      sprint of its ticket. */
  lemma ExampleTickets()
    ensures TicketWorklogs(InSprint, OneSprint) == [W1]
    ensures TicketWorklogs(AfterSprint, OneSprint) == [W2]
  {
    RefOne();
    var w1, w2 := NewWorklog(InSprint, InSprint.worklogs[0]), NewWorklog(AfterSprint, AfterSprint.worklogs[0]);
    assert InWindow(OneSprint, "1", w1);
    assert FirstContaining(["1"], OneSprint, w1) == Some("1");
    assert !InWindow(OneSprint, "1", w2);
    assert ["1"][1..] == [];
    assert FirstContaining(["1"], OneSprint, w2) == None;
  }

  /** The run over A-1 then A-2 lists both worklogs and discovers sprint
      "1" only. */
  lemma ExamplePassOne()
    ensures PassOne([InSprint, AfterSprint], OneSprint) == [W1, W2]
    ensures Discovered([InSprint, AfterSprint]) == ["1"]
  {
    ExampleTickets();
    var ts := [InSprint, AfterSprint];
    assert ts[..|ts| - 1] == [InSprint] && ts[|ts| - 1] == AfterSprint;
    assert [InSprint][..0] == [];
    assert PassOne([InSprint], OneSprint) == [W1];
    assert PassOne(ts, OneSprint) == PassOne([InSprint], OneSprint) + TicketWorklogs(AfterSprint, OneSprint);
    ExampleDiscovered();
  }

  lemma DiscoverOne()
    ensures Discover([], ["1"]) == ["1"] && Discover(["1"], ["1"]) == ["1"]
  {
    assert ["1"][..|["1"]| - 1] == [];
  }

  lemma ExampleDiscovered()
    ensures Discovered([AfterSprint]) == ["1"]
    ensures Discovered([InSprint, AfterSprint]) == ["1"]
  {
    RefOne();
    DiscoverOne();
    var ts := [InSprint, AfterSprint];
    assert ts[..|ts| - 1] == [InSprint] && ts[|ts| - 1] == AfterSprint;
    assert [InSprint][..0] == [] && [AfterSprint][..0] == [];
    assert Discovered([InSprint]) == ["1"];
  }

  /** A two-element sequence is the display of its elements. */
  lemma PairEq<T>(s: seq<T>, x: T, y: T)
    requires |s| == 2 && s[0] == x && s[1] == y
    ensures s == [x, y]
  {
  }

  /** The corrected fallback against sprint "1" keeps both worklogs as they
      are: W1 already has a sprint and day 30 is outside sprint "1". */
  lemma ExampleFallback()
    ensures FallbackWorklog(W1, ["1"], OneSprint) == W1
    ensures FallbackWorklog(W2, ["1"], OneSprint) == W2
  {
    assert !InWindow(OneSprint, "1", W2);
    assert ["1"][1..] == [];
  }

  /** After both corrected passes, A-2's worklog still has no sprint: sprint
      "1" ends on day 20. */
  lemma ExampleAttributed()
    ensures Attributed([InSprint, AfterSprint], OneSprint) == [W1, W2]
  {
    var ts := [InSprint, AfterSprint];
    ExamplePassOne();
    ExampleFallback();
    var p, a := PassOne(ts, OneSprint), Attributed(ts, OneSprint);
    assert |a| == 2 && p[0] == W1 && p[1] == W2;
    assert a[0] == FallbackWorklog(W1, ["1"], OneSprint);
    assert a[1] == FallbackWorklog(W2, ["1"], OneSprint);
    PairEq(a, W1, W2);
  }

  /** Finding 1, carried sprint: as written, A-2's worklog is attributed to
      sprint "1" although day 30 is outside that sprint's window; the
      corrected passes leave it without a sprint. */
  lemma CarriedSprintExample()
    ensures PassOneAsWritten([InSprint, AfterSprint], OneSprint) == Returns([W1, W2.(sprint := Some("1"))])
    ensures !InWindow(OneSprint, "1", W2)
    ensures Attributed([InSprint, AfterSprint], OneSprint)[1].sprint.None?
  {
    ExamplePassOne();
    ExampleAttributed();
    CarryExample();
  }

  lemma CarryExample()
    ensures CarryOver([W1, W2], None) == Returns([W1, W2.(sprint := Some("1"))])
  {
    var v2 := W2.(sprint := Some("1"));
    assert W2.sprint.None? && W1.sprint == Some("1");
    assert [W2][1..] == [];
    assert [v2] + [] == [v2];
    assert CarryOver([W2], Some("1")) == Returns([v2]);
    assert [W1, W2][1..] == [W2];
    assert [W1.(sprint := Some("1"))] + [v2] == [W1, v2];
  }

  /** Finding 1, unbound local: as written, a run whose first worklog lies in
      none of its ticket's sprints raises; the corrected passes return it
      without a sprint. */
  lemma UnboundSprintExample()
    ensures PassOneAsWritten([AfterSprint], OneSprint) == Raises(UnboundSprint)
    ensures Attributed([AfterSprint], OneSprint) == [W2]
  {
    ExampleTickets();
    ExampleDiscovered();
    ExampleFallback();
    assert [AfterSprint][..0] == [];
    assert PassOne([AfterSprint], OneSprint) == [W2];
    var a := Attributed([AfterSprint], OneSprint);
    assert a[0] == W2;
  }

  /** Finding 2: after the corrected first pass, A-2's worklog is
      unattributed while sprint "1" is cached, so the fallback as written
      raises; the corrected fallback checks it against sprint "1". */
  lemma FallbackKeysExample()
    ensures FallbackAsWritten(PassOne([InSprint, AfterSprint], OneSprint), Discovered([InSprint, AfterSprint]))
         == Raises(TextHasNoContains)
  {
    ExamplePassOne();
    assert [W1, W2][1].sprint.None?;
  }

  /** Finding 3: after the corrected passes A-2's worklog still has no
      sprint, and the insertion as written raises on it; the corrected
      insertion sets it aside. */
  lemma InsertNoneExample(m: map<SprintId, Sprint>)
    requires SprintsKnown([W1, W2], m)
    ensures Attributed([InSprint, AfterSprint], OneSprint) == [W1, W2]
    ensures InsertAsWritten(m, [W1, W2]) == Raises(NoneHasNoUid)
    ensures Unattributed([W1, W2]) == [W2]
  {
    ExampleAttributed();
    assert [W1, W2][1].sprint.None?;
    assert [W1, W2][..1] == [W1] && [W1][..0] == [];
  }
}
