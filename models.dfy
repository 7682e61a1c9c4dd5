/** The records of xycmd/services/jira_service/models.py: worklogs, issues and
    sprints, the rule that turns the tracker's sprint data into a Sprint, and
    the sprint window test.

    Dates are whole days counted from 1970-01-01 (day 0), so comparing two
    dates is comparing two integers, the day after `d` is `d + 1`, and the
    text key `str(d)` the source uses for a day is replaced by the day itself
    (the text form of a date is injective, so nothing is lost). */
module Models {
  import opened Seqs

  datatype Option<+T> = None | Some(value: T)

  type Date = int

  /** A sprint id: the digits the service extracts from a sprint reference. */
  type SprintId = string

  /** 1970-01-01, the date the service sorts a sprint without a start date as. */
  const Epoch: Date := 0

  /** A start or end field of the tracker's sprint data. `Missing` is a field
      whose value is None; `Text` carries the raw text together with the day
      the date parser reads from it. */
  datatype DateField = Missing | Text(text: string, day: Date)

  /** The tracker's sprint data, as `jira.sprint(id)` returns it. */
  datatype RawSprint = RawSprint(id: SprintId, startDate: DateField, endDate: DateField, name: string, state: string)

  datatype Issue = Issue(uid: string, key: string)

  /** A worklog. `issue` holds the ticket key; `sprint` names the sprint the
      worklog was attributed to by the key it is cached under, or None while
      it is unattributed. */
  datatype Worklog = Worklog(uid: string, timeSpent: int, logDate: Date, sprint: Option<SprintId>, issue: string)

  /** A sprint. The source's `worklogs` dictionary from day to worklog list is
      split into its key order `days` and the mapping `worklogs`. */
  datatype Sprint = Sprint(
    uid: SprintId,
    startDate: Option<Date>,
    endDate: Option<Date>,
    name: string,
    state: string,
    issues: seq<Issue>,
    days: seq<Date>,
    worklogs: map<Date, seq<Worklog>>)
  {
    /** Both window ends are present. */
    predicate Dated() {
      startDate.Some? && endDate.Some?
    }

    /** The day dictionary is a dictionary: its key order lists each key once. */
    predicate DaysWellFormed() {
      NoDup(days) && (forall d :: d in days ==> d in worklogs) && (forall d :: d in worklogs ==> d in days)
    }
  }

  /** The service's `sprints` dictionary: the ids in insertion order and the
      sprint cached under each. */
  datatype SprintDict = SprintDict(order: seq<SprintId>, entries: map<SprintId, Sprint>)
  {
    predicate Valid() {
      NoDup(order) && (forall id :: id in order ==> id in entries) && (forall id :: id in entries ==> id in order)
    }
  }

  /** A start or end field becomes a date unless it is missing, empty or the
      literal text "None". */
  function ParseDateField(f: DateField): (r: Option<Date>)
    ensures r.None? <==> f.Missing? || f.text == "" || f.text == "None"
    ensures r.Some? ==> f.Text? && r.value == f.day
  {
    if f.Text? && f.text != "" && f.text != "None" then Some(f.day) else None
  }

  /** `Sprint.from_jira`: copies id, name and state, reads both dates with
      ParseDateField, and starts with no issues and an empty day dictionary. */
  function FromJira(raw: RawSprint): (s: Sprint)
    ensures s.uid == raw.id && s.name == raw.name && s.state == raw.state
    ensures s.startDate.None? <==> raw.startDate.Missing? || raw.startDate.text in {"", "None"}
    ensures s.endDate.None? <==> raw.endDate.Missing? || raw.endDate.text in {"", "None"}
    ensures s.startDate.Some? ==> s.startDate.value == raw.startDate.day
    ensures s.endDate.Some? ==> s.endDate.value == raw.endDate.day
    ensures s.issues == [] && s.days == [] && s.worklogs == map[]
    ensures s.DaysWellFormed()
  {
    Sprint(raw.id, ParseDateField(raw.startDate), ParseDateField(raw.endDate), raw.name, raw.state, [], [], map[])
  }

  /** `Sprint.contains_worklog`: a sprint lacking either date contains no
      worklog; otherwise the window is inclusive at both ends. Only the two
      dates of the sprint and the log date of the worklog are read. */
  function ContainsWorklog(s: Sprint, w: Worklog): (r: bool)
    ensures !s.Dated() ==> !r
    ensures s.Dated() ==> (r <==> s.startDate.value <= w.logDate && w.logDate <= s.endDate.value)
  {
    s.Dated() && s.startDate.value <= w.logDate <= s.endDate.value
  }

  /** The sort key of the service: the start date, or 1970-01-01 without one. */
  function StartKey(s: Sprint): (k: Date)
    ensures s.startDate.None? ==> k == Epoch
    ensures s.startDate.Some? ==> k == s.startDate.value
  {
    if s.startDate.Some? then s.startDate.value else Epoch
  }
}
