/** The time-sheet records that the per-user summary reads, the month label that stands in for
    `strftime('%b-%y')`, the placeholder for a missing project, and the (month, project) key
    that the summary groups by. */
module Timesheet {
  import opened Wrappers
  import opened Strings
  import opened Collections

  type MonthNumber = m: int | 1 <= m <= 12 witness 1

  /** A parsed calendar date; the day is not needed by anything downstream. */
  datatype Date = Date(year: nat, month: MonthNumber)

  /** One input row, restricted to the five columns the summary reads:
      'User', 'Project' (may be missing), 'Date', 'Hours' and 'Spółka (user field)'
      (present only when the cell holds a string). */
  datatype Record = Record(user: string, project: Option<string>, date: Date, hours: real, company: Option<string>)

  /** Placeholder for an empty 'Project' cell ("no project selected"). */
  const NoProject: string := "BRAK WYBRANEGO PROJEKTU"

  /** `%b` in the C/English locale. */
  const MonthAbbreviations: seq<string> :=
    ["Jan", "Feb", "Mar", "Apr", "May", "Jun", "Jul", "Aug", "Sep", "Oct", "Nov", "Dec"]

  function Digit(d: nat): (c: char)
    requires d < 10
    ensures '0' <= c <= '9'
  {
    "0123456789"[d]
  }

  /** The '%b-%y' label of a date, e.g. "Jan-24": three-letter month, a dash, the year modulo 100
      in two digits. */
  function MonthLabel(d: Date): (l: string)
    ensures |l| == 6 && l[3] == '-'
    ensures l[..3] == MonthAbbreviations[d.month - 1]
    ensures l[4] == Digit(d.year % 100 / 10) && l[5] == Digit(d.year % 10)
  {
    MonthAbbreviations[d.month - 1] + "-" + [Digit(d.year % 100 / 10), Digit(d.year % 10)]
  }

  lemma LastDigitOfCentury(y: nat)
    ensures y % 100 % 10 == y % 10
    ensures y % 100 == 10 * (y % 100 / 10) + y % 10
  {
    var r := y % 100;
    var q := y / 100;
    var t, u := r / 10, r % 10;
    assert r == 10 * t + u;
    assert y == 10 * (10 * q + t) + u;
    TenRemainder(y, 10 * q + t, u);
  }

  lemma TenRemainder(y: nat, q: nat, u: nat)
    requires y == 10 * q + u && u < 10
    ensures y % 10 == u
  {
  }

  /** Two dates get the same label exactly when they share the month and the year modulo 100
      (so dates a century apart fall into the same group). */
  lemma MonthLabelsEqual(a: Date, b: Date)
    ensures MonthLabel(a) == MonthLabel(b) <==> a.month == b.month && a.year % 100 == b.year % 100
  {
    LastDigitOfCentury(a.year);
    LastDigitOfCentury(b.year);
    if MonthLabel(a) == MonthLabel(b) {
      var i, j := a.month - 1, b.month - 1;
      assert MonthAbbreviations[i] == MonthAbbreviations[j];
      assert i == j;
      assert "0123456789"[a.year % 100 / 10] == "0123456789"[b.year % 100 / 10];
      assert "0123456789"[a.year % 10] == "0123456789"[b.year % 10];
    }
  }

  /** A 'Project' value with a missing one filled in by the placeholder. */
  function ProjectLabel(p: Option<string>): (l: string)
    ensures p.None? ==> l == NoProject
    ensures p.Some? ==> l == p.value
  {
    p.GetOr(NoProject)
  }

  /** A group key: (Month-Year, Project). */
  datatype Key = Key(monthYear: string, project: string)

  function KeyOf(r: Record): Key
  {
    Key(MonthLabel(r.date), ProjectLabel(r.project))
  }

  /** pandas' sort of the group keys: lexicographic on the pair, each part in string order. */
  predicate KeyLess(a: Key, b: Key)
  {
    LexLess(a.monthYear, b.monthYear) || (a.monthYear == b.monthYear && LexLess(a.project, b.project))
  }

  lemma KeyIrreflexive(a: Key)
    ensures !KeyLess(a, a)
  {
    LexIrreflexive(a.monthYear);
    LexIrreflexive(a.project);
  }

  lemma KeyTransitive(a: Key, b: Key, c: Key)
    requires KeyLess(a, b) && KeyLess(b, c)
    ensures KeyLess(a, c)
  {
    if LexLess(a.monthYear, b.monthYear) && LexLess(b.monthYear, c.monthYear) {
      LexTransitive(a.monthYear, b.monthYear, c.monthYear);
    } else if a.monthYear == b.monthYear == c.monthYear {
      LexTransitive(a.project, b.project, c.project);
    }
  }

  lemma KeyTotal(a: Key, b: Key)
    ensures a == b || KeyLess(a, b) || KeyLess(b, a)
  {
    LexTotal(a.monthYear, b.monthYear);
    LexTotal(a.project, b.project);
  }

  /** Some record falls under key `k`. */
  predicate Occurs(rs: seq<Record>, k: Key)
  {
    exists i :: 0 <= i < |rs| && KeyOf(rs[i]) == k
  }

  lemma OccursCons(rs: seq<Record>, k: Key)
    requires rs != []
    ensures Occurs(rs, k) <==> KeyOf(rs[0]) == k || Occurs(rs[1..], k)
  {
    if Occurs(rs, k) && KeyOf(rs[0]) != k {
      var i :| 0 <= i < |rs| && KeyOf(rs[i]) == k;
      assert KeyOf(rs[1..][i - 1]) == k;
    }
    if Occurs(rs[1..], k) {
      var i :| 0 <= i < |rs[1..]| && KeyOf(rs[1..][i]) == k;
      assert KeyOf(rs[i + 1]) == k;
    }
  }

  /** The rows of one user, in input order. */
  function ForUser(rs: seq<Record>, user: string): (r: seq<Record>)
    ensures |r| <= |rs|
    ensures forall x :: x in r <==> x in rs && x.user == user
  {
    if rs == [] then []
    else if rs[0].user == user then [rs[0]] + ForUser(rs[1..], user)
    else ForUser(rs[1..], user)
  }

  /** Sum of 'Hours' over the records of one user, counted where they stand in the input. */
  function UserHours(rs: seq<Record>, user: string): real
  {
    if rs == [] then 0.0 else (if rs[0].user == user then rs[0].hours else 0.0) + UserHours(rs[1..], user)
  }

  /** The user's rows are kept as often as they occur and in input order, nothing else is kept,
      and their hours are the hours of that user's records. */
  lemma {:induction false} ForUserSpec(rs: seq<Record>, user: string)
    ensures forall x :: multiset(ForUser(rs, user))[x] == if x.user == user then multiset(rs)[x] else 0
    ensures SubsequenceOf(ForUser(rs, user), rs)
    ensures Hours(ForUser(rs, user)) == UserHours(rs, user)
  {
    if rs != [] {
      ForUserSpec(rs[1..], user);
      assert rs == [rs[0]] + rs[1..];
      var rest := ForUser(rs[1..], user);
      if rs[0].user == user {
        var r := [rs[0]] + rest;
        assert r[1..] == rest;
      }
    }
  }

  /** Sum of 'Hours' over the records. */
  function Hours(rs: seq<Record>): real
  {
    if rs == [] then 0.0 else rs[0].hours + Hours(rs[1..])
  }

  /** Sum of 'Hours' over the records that fall under key `k`. */
  function HoursFor(rs: seq<Record>, k: Key): real
  {
    if rs == [] then 0.0 else (if KeyOf(rs[0]) == k then rs[0].hours else 0.0) + HoursFor(rs[1..], k)
  }

  /** Sum of 'Hours' over the records whose month label is `m`. */
  function HoursInMonth(rs: seq<Record>, m: string): real
  {
    if rs == [] then 0.0 else (if MonthLabel(rs[0].date) == m then rs[0].hours else 0.0) + HoursInMonth(rs[1..], m)
  }

  /** With no negative hours, a key's hours never exceed its month's hours. */
  lemma {:induction false} HoursForAtMostMonth(rs: seq<Record>, k: Key)
    requires forall i :: 0 <= i < |rs| ==> rs[i].hours >= 0.0
    ensures 0.0 <= HoursFor(rs, k) <= HoursInMonth(rs, k.monthYear)
  {
    if rs != [] {
      HoursForAtMostMonth(rs[1..], k);
    }
  }
}
