/** Query assembly at the start of `get_worklogs`: which lower date bound the
    search uses, and the search text built from the filters. The text of a
    bound (`str(since_date)`) comes from Python's date formatting, which is
    taken as the parameter `show`; an absent project or author filter (None or
    the empty text, both false in Python) is the empty string. */
module Query {
  import opened Models
  import opened Seqs

  /** The `since_date` argument: absent, a text, a datetime or a date. A text
      carries the day and the time of day (in seconds) the parser reads from it. */
  datatype SinceArg =
    | NoSince
    | SinceText(text: string, day: Date, seconds: nat)
    | SinceDateTime(day: Date, seconds: nat)
    | SinceDate(day: Date)

  /** The bound that reaches the query: a date, or, for a text argument, the
      datetime the parser returns (the source does not cut it to a date). */
  datatype Bound = OnDay(day: Date) | AtInstant(day: Date, seconds: nat)

  /** `since_date` is given: Python treats None and the empty text as false. */
  predicate SinceGiven(since: SinceArg) {
    !since.NoSince? && !(since.SinceText? && since.text == "")
  }

  /** The lower bound: an explicit `since_date` wins; otherwise a non-zero
      `days_ago` counts back from `today`; otherwise there is no bound. */
  function ResolveSince(since: SinceArg, daysAgo: int, today: Date): (b: Option<Bound>)
    ensures SinceGiven(since) ==> b.Some? && b.value.day == since.day
    ensures since.SinceText? && since.text != "" ==> b == Some(AtInstant(since.day, since.seconds))
    ensures since.SinceDateTime? || since.SinceDate? ==> b == Some(OnDay(since.day))
    ensures !SinceGiven(since) && daysAgo != 0 ==> b == Some(OnDay(today - daysAgo))
    ensures !SinceGiven(since) && daysAgo == 0 ==> b.None?
  {
    if SinceGiven(since) then
      match since
      case SinceText(_, day, seconds) => Some(AtInstant(day, seconds))
      case SinceDateTime(day, _) => Some(OnDay(day))
      case SinceDate(day) => Some(OnDay(day))
    else if daysAgo != 0 then Some(OnDay(today - daysAgo))
    else None
  }

  function CountGiven(project: string, author: string, bound: Option<Bound>): nat {
    (if project != "" then 1 else 0) + (if author != "" then 1 else 0) + (if bound.Some? then 1 else 0)
  }

  /** The filter clauses, present ones only, in the order project, author, date. */
  function Clauses(project: string, author: string, bound: Option<Bound>, show: Bound -> string): (cs: seq<string>)
    ensures |cs| == CountGiven(project, author, bound)
    ensures project != "" ==> cs[0] == "project = " + project
    ensures author != "" ==> cs[if project != "" then 1 else 0] == "worklogAuthor = " + author
    ensures bound.Some? ==> cs[|cs| - 1] == "worklogDate >= " + show(bound.value)
  {
    (if project != "" then ["project = " + project] else [])
    + (if author != "" then ["worklogAuthor = " + author] else [])
    + (if bound.Some? then ["worklogDate >= " + show(bound.value)] else [])
  }

  const OrderSuffix: string := " ORDER BY updated DESC"

  /** The search text: the clauses joined by " AND ", then the ordering. */
  function Query(project: string, author: string, bound: Option<Bound>, show: Bound -> string): (q: string)
    ensures |OrderSuffix| <= |q| && q[|q| - |OrderSuffix|..] == OrderSuffix
    ensures CountGiven(project, author, bound) == 0 ==> q == OrderSuffix
    ensures project != "" ==> |"project = " + project| <= |q| && q[..|"project = " + project|] == "project = " + project
  {
    var cs := Clauses(project, author, bound, show);
    var q := Join(cs, " AND ") + OrderSuffix;
    assert q[|q| - |OrderSuffix|..] == OrderSuffix;
    assert project != "" ==> q[..|cs[0]|] == Join(cs, " AND ")[..|cs[0]|];
    q
  }

  /** The whole query assembly, from the arguments of `get_worklogs`. */
  function BuildQuery(project: string, author: string, daysAgo: int, since: SinceArg, today: Date, show: Bound -> string): string {
    Query(project, author, ResolveSince(since, daysAgo, today), show)
  }

  /** An explicit `since_date` makes `days_ago` irrelevant. */
  lemma ExplicitSinceWins(project: string, author: string, since: SinceArg, d1: int, d2: int, today: Date, show: Bound -> string)
    requires SinceGiven(since)
    ensures BuildQuery(project, author, d1, since, today, show) == BuildQuery(project, author, d2, since, today, show)
  {
  }

  /** With neither `since_date` nor `days_ago` the query has no date clause. */
  lemma NoBoundNoDateClause(project: string, author: string, since: SinceArg, today: Date, show: Bound -> string)
    requires !SinceGiven(since)
    ensures BuildQuery(project, author, 0, since, today, show)
         == Join(Clauses(project, author, None, show), " AND ") + OrderSuffix
  {
  }
}
