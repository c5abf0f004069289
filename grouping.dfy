/** The summary of one user's records: the hours summed per (Month-Year, Project) group, and
    each group's share of its Month-Year's hours as 'Percentage'.
    Groups are built by inserting each record into a list kept in key order, which is the
    order `groupby` (sort=True) returns them in. */
module Grouping {
  import opened Wrappers
  import opened Strings
  import opened Timesheet

  /** One (Month-Year, Project) group with its summed hours. */
  datatype Group = Group(key: Key, total: real)

  predicate HasKey(gs: seq<Group>, k: Key)
  {
    exists i :: 0 <= i < |gs| && gs[i].key == k
  }

  /** Keys strictly increase along the list: each key at most once, in pandas' sort order. */
  predicate Increasing(gs: seq<Group>)
  {
    forall i, j :: 0 <= i < j < |gs| ==> KeyLess(gs[i].key, gs[j].key)
  }

  /** Sum of the totals of the groups under key `k`. */
  function TotalFor(gs: seq<Group>, k: Key): real
  {
    if gs == [] then 0.0 else (if gs[0].key == k then gs[0].total else 0.0) + TotalFor(gs[1..], k)
  }

  /** The month total every row of month `m` is divided by: the summed totals of its groups. */
  function TotalInMonth(gs: seq<Group>, m: string): real
  {
    if gs == [] then 0.0
    else (if gs[0].key.monthYear == m then gs[0].total else 0.0) + TotalInMonth(gs[1..], m)
  }

  function SumTotals(gs: seq<Group>): real
  {
    if gs == [] then 0.0 else gs[0].total + SumTotals(gs[1..])
  }

  /** Add `h` hours under key `k`: to the existing group of that key, or as a new group at the
      position its key takes in the order. */
  function Insert(gs: seq<Group>, k: Key, h: real): seq<Group>
  {
    if gs == [] then [Group(k, h)]
    else if gs[0].key == k then [Group(k, gs[0].total + h)] + gs[1..]
    else if KeyLess(k, gs[0].key) then [Group(k, h)] + gs
    else [gs[0]] + Insert(gs[1..], k, h)
  }

  /** Insertion adds `h` to the total of key `k`, of its month, and of the whole list, and
      leaves every other key's total alone. */
  lemma {:induction false} InsertTotals(gs: seq<Group>, k: Key, h: real)
    ensures var r := Insert(gs, k, h);
      && (forall q :: TotalFor(r, q) == TotalFor(gs, q) + (if q == k then h else 0.0))
      && (forall m :: TotalInMonth(r, m) == TotalInMonth(gs, m) + (if m == k.monthYear then h else 0.0))
      && SumTotals(r) == SumTotals(gs) + h
  {
    if gs != [] && gs[0].key != k && !KeyLess(k, gs[0].key) {
      InsertTotals(gs[1..], k, h);
      assert ([gs[0]] + Insert(gs[1..], k, h))[1..] == Insert(gs[1..], k, h);
    }
  }

  lemma HasKeyCons(g: Group, gs: seq<Group>, q: Key)
    ensures HasKey([g] + gs, q) <==> g.key == q || HasKey(gs, q)
  {
    var r := [g] + gs;
    if HasKey(r, q) && g.key != q {
      var i :| 0 <= i < |r| && r[i].key == q;
      assert gs[i - 1].key == q;
    }
    if HasKey(gs, q) {
      var i :| 0 <= i < |gs| && gs[i].key == q;
      assert r[i + 1].key == q;
    }
    assert r[0] == g;
  }

  /** The keys after an insertion are the old keys and the inserted one. */
  lemma {:induction false} InsertKeys(gs: seq<Group>, k: Key, h: real)
    ensures forall q :: HasKey(Insert(gs, k, h), q) <==> HasKey(gs, q) || q == k
  {
    var r := Insert(gs, k, h);
    if gs == [] {
      assert r[0].key == k;
    } else {
      assert gs == [gs[0]] + gs[1..];
      forall q ensures HasKey(gs, q) <==> gs[0].key == q || HasKey(gs[1..], q) { HasKeyCons(gs[0], gs[1..], q); }
      if gs[0].key == k {
        forall q ensures HasKey(r, q) <==> k == q || HasKey(gs[1..], q) { HasKeyCons(Group(k, gs[0].total + h), gs[1..], q); }
      } else if KeyLess(k, gs[0].key) {
        forall q ensures HasKey(r, q) <==> k == q || HasKey(gs, q) { HasKeyCons(Group(k, h), gs, q); }
      } else {
        InsertKeys(gs[1..], k, h);
        forall q ensures HasKey(r, q) <==> gs[0].key == q || HasKey(Insert(gs[1..], k, h), q) {
          HasKeyCons(gs[0], Insert(gs[1..], k, h), q);
        }
      }
    }
  }

  /** Insertion keeps the keys strictly increasing. */
  lemma {:induction false} InsertIncreasing(gs: seq<Group>, k: Key, h: real)
    requires Increasing(gs)
    ensures Increasing(Insert(gs, k, h))
  {
    var r := Insert(gs, k, h);
    if gs != [] && gs[0].key != k {
      if KeyLess(k, gs[0].key) {
        forall j | 0 < j < |r| ensures KeyLess(k, r[j].key) {
          if j > 1 { KeyTransitive(k, gs[0].key, gs[j - 1].key); }
        }
      } else {
        var rest := Insert(gs[1..], k, h);
        InsertIncreasing(gs[1..], k, h);
        InsertKeys(gs[1..], k, h);
        KeyTotal(k, gs[0].key);
        forall j | 0 <= j < |rest| ensures KeyLess(gs[0].key, rest[j].key) {
          assert HasKey(rest, rest[j].key);
          if rest[j].key != k {
            var i :| 0 <= i < |gs[1..]| && gs[1..][i].key == rest[j].key;
            assert gs[i + 1].key == rest[j].key;
          }
        }
      }
    }
  }

  /** The grouped sum of 'Hours' by (Month-Year, Project) over the records. */
  function GroupByKey(rs: seq<Record>): seq<Group>
  {
    if rs == [] then [] else Insert(GroupByKey(rs[1..]), KeyOf(rs[0]), rs[0].hours)
  }

  /** The groups are exactly the keys that occur, in strictly increasing order, and each
      total, month total and the grand total is the matching sum of the records' hours. */
  lemma {:induction false} GroupByKeySpec(rs: seq<Record>)
    ensures var gs := GroupByKey(rs);
      && Increasing(gs)
      && (forall q :: HasKey(gs, q) <==> Occurs(rs, q))
      && (forall q :: TotalFor(gs, q) == HoursFor(rs, q))
      && (forall m :: TotalInMonth(gs, m) == HoursInMonth(rs, m))
      && SumTotals(gs) == Hours(rs)
  {
    if rs != [] {
      var rest := GroupByKey(rs[1..]);
      GroupByKeySpec(rs[1..]);
      InsertKeys(rest, KeyOf(rs[0]), rs[0].hours);
      InsertIncreasing(rest, KeyOf(rs[0]), rs[0].hours);
      InsertTotals(rest, KeyOf(rs[0]), rs[0].hours);
      forall q ensures Occurs(rs, q) <==> KeyOf(rs[0]) == q || Occurs(rs[1..], q) { OccursCons(rs, q); }
    }
  }

  lemma {:induction false} TotalForAbsent(gs: seq<Group>, k: Key)
    requires !HasKey(gs, k)
    ensures TotalFor(gs, k) == 0.0
  {
    if gs != [] {
      assert gs == [gs[0]] + gs[1..];
      HasKeyCons(gs[0], gs[1..], k);
      TotalForAbsent(gs[1..], k);
    }
  }

  /** Where keys are unique, the total under a group's key is that group's own total. */
  lemma {:induction false} TotalForOwnKey(gs: seq<Group>, i: nat)
    requires Increasing(gs) && i < |gs|
    ensures TotalFor(gs, gs[i].key) == gs[i].total
  {
    if i == 0 {
      assert !HasKey(gs[1..], gs[0].key) by {
        if HasKey(gs[1..], gs[0].key) {
          var j :| 0 <= j < |gs[1..]| && gs[1..][j].key == gs[0].key;
          assert KeyLess(gs[0].key, gs[j + 1].key);
          KeyIrreflexive(gs[0].key);
        }
      }
      TotalForAbsent(gs[1..], gs[0].key);
    } else {
      assert gs[i].key != gs[0].key by {
        assert KeyLess(gs[0].key, gs[i].key);
        KeyIrreflexive(gs[0].key);
      }
      TotalForOwnKey(gs[1..], i - 1);
    }
  }

  /** One output row, in the column order ['Month-Year', 'Project', 'Total Hours', 'Percentage'].
      `percentage` is missing where the month's total is zero (pandas then holds NaN or an
      infinity; `Processing.PercentageCell` says how that is written). */
  datatype SummaryRow = SummaryRow(monthYear: string, project: string, totalHours: real, percentage: Option<real>)

  function RowKey(row: SummaryRow): Key
  {
    Key(row.monthYear, row.project)
  }

  /** `part / whole`, undefined for a zero `whole`. */
  function Share(part: real, whole: real): (r: Option<real>)
    ensures r.Some? <==> whole != 0.0
    ensures r.Some? ==> r.value * whole == part
  {
    if whole == 0.0 then None else Some(part / whole)
  }

  /** The rows for the groups `part`, each divided by its month's total over all groups `all`. */
  function WithPercentages(part: seq<Group>, all: seq<Group>): (rows: seq<SummaryRow>)
    ensures |rows| == |part|
  {
    if part == [] then []
    else
      var g := part[0];
      [SummaryRow(g.key.monthYear, g.key.project, g.total, Share(g.total, TotalInMonth(all, g.key.monthYear)))]
        + WithPercentages(part[1..], all)
  }

  /** The summary sheet's rows for one user's records. */
  function Summarize(rs: seq<Record>): seq<SummaryRow>
  {
    var gs := GroupByKey(rs);
    WithPercentages(gs, gs)
  }

  lemma {:induction false} WithPercentagesAt(part: seq<Group>, all: seq<Group>, i: nat)
    requires i < |part|
    ensures WithPercentages(part, all)[i] ==
      SummaryRow(part[i].key.monthYear, part[i].key.project, part[i].total,
                 Share(part[i].total, TotalInMonth(all, part[i].key.monthYear)))
  {
    if i > 0 { WithPercentagesAt(part[1..], all, i - 1); }
  }

  lemma SummaryRowAt(rs: seq<Record>, i: nat)
    requires i < |Summarize(rs)|
    ensures var row := Summarize(rs)[i];
      && Occurs(rs, RowKey(row))
      && row.totalHours == HoursFor(rs, RowKey(row))
      && row.percentage == Share(row.totalHours, HoursInMonth(rs, row.monthYear))
  {
    var gs := GroupByKey(rs);
    GroupByKeySpec(rs);
    assert Summarize(rs) == WithPercentages(gs, gs);
    WithPercentagesAt(gs, gs, i);
    TotalForOwnKey(gs, i);
    assert HasKey(gs, gs[i].key);
  }

  /** Every row is some group of records: its 'Total Hours' is the sum of 'Hours' over exactly
      the records with its Month-Year and Project, and its 'Percentage' is that sum divided by
      the hours of the whole month. */
  lemma SummaryRowsAreRecordSums(rs: seq<Record>)
    ensures var rows := Summarize(rs);
      forall i :: 0 <= i < |rows| ==>
        && Occurs(rs, RowKey(rows[i]))
        && rows[i].totalHours == HoursFor(rs, RowKey(rows[i]))
        && rows[i].percentage == Share(rows[i].totalHours, HoursInMonth(rs, rows[i].monthYear))
  {
    forall i | 0 <= i < |Summarize(rs)| { SummaryRowAt(rs, i); }
  }

  /** Every record is counted in the row of its (Month-Year, Project) key. */
  lemma SummaryCoversRecords(rs: seq<Record>, j: nat)
    requires j < |rs|
    ensures var rows := Summarize(rs);
      exists i :: 0 <= i < |rows| && RowKey(rows[i]) == KeyOf(rs[j])
  {
    var gs := GroupByKey(rs);
    GroupByKeySpec(rs);
    var k := KeyOf(rs[j]);
    assert Occurs(rs, k);
    assert HasKey(gs, k);
    var i :| 0 <= i < |gs| && gs[i].key == k;
    WithPercentagesAt(gs, gs, i);
    assert Summarize(rs) == WithPercentages(gs, gs);
    assert RowKey(Summarize(rs)[i]) == k;
  }

  /** A record without a project is counted under "BRAK WYBRANEGO PROJEKTU" in its month. */
  lemma MissingProjectCountsAsNoProject(rs: seq<Record>, j: nat)
    requires j < |rs| && rs[j].project.None?
    ensures var rows := Summarize(rs);
      exists i :: 0 <= i < |rows| && rows[i].project == NoProject && rows[i].monthYear == MonthLabel(rs[j].date)
        && rows[i].totalHours == HoursFor(rs, Key(MonthLabel(rs[j].date), NoProject))
  {
    var rows := Summarize(rs);
    SummaryCoversRecords(rs, j);
    var i :| 0 <= i < |rows| && RowKey(rows[i]) == KeyOf(rs[j]);
    SummaryRowAt(rs, i);
  }

  /** When neither the placeholder nor any record's project is in `excluded`, no summary row's
      project is: a missing project becomes the placeholder, a present one is a record's own. */
  lemma ProjectsAvoid(rs: seq<Record>, excluded: set<string>)
    requires NoProject !in excluded
    requires forall i :: 0 <= i < |rs| && rs[i].project.Some? ==> rs[i].project.value !in excluded
    ensures forall i :: 0 <= i < |Summarize(rs)| ==> Summarize(rs)[i].project !in excluded
  {
    forall i | 0 <= i < |Summarize(rs)| ensures Summarize(rs)[i].project !in excluded {
      SummaryRowAt(rs, i);
      var j :| 0 <= j < |rs| && KeyOf(rs[j]) == RowKey(Summarize(rs)[i]);
    }
  }

  /** Rows come in strictly increasing (Month-Year, Project) order, so no key appears twice. */
  lemma SummaryKeysIncrease(rs: seq<Record>)
    ensures var rows := Summarize(rs);
      forall i, j :: 0 <= i < j < |rows| ==> KeyLess(RowKey(rows[i]), RowKey(rows[j])) && RowKey(rows[i]) != RowKey(rows[j])
  {
    var gs := GroupByKey(rs);
    GroupByKeySpec(rs);
    var rows := Summarize(rs);
    forall i, j | 0 <= i < j < |rows| ensures KeyLess(RowKey(rows[i]), RowKey(rows[j])) && RowKey(rows[i]) != RowKey(rows[j]) {
      WithPercentagesAt(gs, gs, i);
      WithPercentagesAt(gs, gs, j);
      KeyIrreflexive(gs[i].key);
    }
  }

  function SumHours(rows: seq<SummaryRow>): real
  {
    if rows == [] then 0.0 else rows[0].totalHours + SumHours(rows[1..])
  }

  lemma {:induction false} SumHoursOfPercentages(part: seq<Group>, all: seq<Group>)
    ensures SumHours(WithPercentages(part, all)) == SumTotals(part)
  {
    if part != [] { SumHoursOfPercentages(part[1..], all); }
  }

  /** Conservation: a sheet's 'Total Hours' add up to the user's hours. */
  lemma SummaryConservesHours(rs: seq<Record>)
    ensures SumHours(Summarize(rs)) == Hours(rs)
  {
    var gs := GroupByKey(rs);
    GroupByKeySpec(rs);
    SumHoursOfPercentages(gs, gs);
  }

  /** Sum of the 'Percentage' values of the rows of month `m` (a missing one counts as 0). */
  function SumPercentages(rows: seq<SummaryRow>, m: string): real
  {
    if rows == [] then 0.0
    else (if rows[0].monthYear == m then rows[0].percentage.GetOr(0.0) else 0.0) + SumPercentages(rows[1..], m)
  }

  lemma {:induction false} SharesOfMonth(part: seq<Group>, all: seq<Group>, m: string)
    requires TotalInMonth(all, m) != 0.0
    ensures SumPercentages(WithPercentages(part, all), m) == TotalInMonth(part, m) / TotalInMonth(all, m)
  {
    if part != [] {
      SharesOfMonth(part[1..], all, m);
      var rows := WithPercentages(part, all);
      var whole := TotalInMonth(all, m);
      assert rows[1..] == WithPercentages(part[1..], all);
      if part[0].key.monthYear == m {
        assert rows[0].percentage == Some(part[0].total / whole);
        Divide(part[0].total, TotalInMonth(part[1..], m), whole);
      }
    }
  }

  lemma Divide(a: real, b: real, w: real)
    requires w != 0.0
    ensures a / w + b / w == (a + b) / w
  {
  }

  lemma DivideSelf(w: real)
    requires w != 0.0
    ensures w / w == 1.0
  {
  }

  lemma RatioBounds(p: real, t: real, w: real)
    requires w != 0.0 && 0.0 <= t <= w && p == t / w
    ensures 0.0 <= p <= 1.0
  {
  }

  /** Normalisation: the percentages of a month with a nonzero total add up to 1. */
  lemma MonthPercentagesSumToOne(rs: seq<Record>, m: string)
    requires HoursInMonth(rs, m) != 0.0
    ensures SumPercentages(Summarize(rs), m) == 1.0
  {
    var gs := GroupByKey(rs);
    GroupByKeySpec(rs);
    var w := TotalInMonth(gs, m);
    assert w == HoursInMonth(rs, m);
    SharesOfMonth(gs, gs, m);
    assert Summarize(rs) == WithPercentages(gs, gs);
    DivideSelf(w);
  }

  lemma PercentageInUnitRangeAt(rs: seq<Record>, i: nat)
    requires forall j :: 0 <= j < |rs| ==> rs[j].hours >= 0.0
    requires i < |Summarize(rs)|
    ensures var row := Summarize(rs)[i];
      row.percentage.Some? ==> 0.0 <= row.percentage.value <= 1.0
  {
    var row := Summarize(rs)[i];
    SummaryRowAt(rs, i);
    var k := RowKey(row);
    HoursForAtMostMonth(rs, k);
    var t, whole := HoursFor(rs, k), HoursInMonth(rs, k.monthYear);
    assert row.totalHours == t && row.percentage == Share(t, whole);
    if whole != 0.0 {
      var p := t / whole;
      assert row.percentage == Some(p);
      RatioBounds(p, t, whole);
    }
  }

  /** With no negative hours, every defined percentage lies in [0, 1]. */
  lemma PercentagesInUnitRange(rs: seq<Record>)
    requires forall i :: 0 <= i < |rs| ==> rs[i].hours >= 0.0
    ensures var rows := Summarize(rs);
      forall i :: 0 <= i < |rows| && rows[i].percentage.Some? ==> 0.0 <= rows[i].percentage.value <= 1.0
  {
    forall i | 0 <= i < |Summarize(rs)| { PercentageInUnitRangeAt(rs, i); }
  }

  lemma {:induction false} PrefixThenLess(p: string, x: char, y: char)
    requires x < y
    ensures LexLess(p + [x], p + [y])
  {
    if p != [] {
      assert (p + [x])[1..] == p[1..] + [x] && (p + [y])[1..] == p[1..] + [y];
      PrefixThenLess(p[1..], x, y);
    }
  }

  lemma ExampleKeys(a: Record, b: Record)
    requires a == Record("Alice", Some("Project A"), Date(2024, 1), 5.0, None)
    requires b == Record("Alice", Some("Project B"), Date(2024, 1), 15.0, None)
    ensures KeyOf(a) == Key("Jan-24", "Project A") && KeyOf(b) == Key("Jan-24", "Project B")
    ensures KeyLess(KeyOf(a), KeyOf(b))
  {
    assert MonthLabel(Date(2024, 1)) == "Jan-24";
    assert "Project A" == "Project " + ['A'] && "Project B" == "Project " + ['B'];
    PrefixThenLess("Project ", 'A', 'B');
  }

  lemma ExampleGroups(a: Record, b: Record)
    requires a == Record("Alice", Some("Project A"), Date(2024, 1), 5.0, None)
    requires b == Record("Alice", Some("Project B"), Date(2024, 1), 15.0, None)
    ensures GroupByKey([a, b]) == [Group(Key("Jan-24", "Project A"), 5.0), Group(Key("Jan-24", "Project B"), 15.0)]
  {
    ExampleKeys(a, b);
    KeyIrreflexive(KeyOf(a));
    assert [b][1..] == [];
    assert GroupByKey([b]) == [Group(KeyOf(b), 15.0)];
    assert [a, b][1..] == [b];
  }

  lemma ExampleShares(gs: seq<Group>)
    requires gs == [Group(Key("Jan-24", "Project A"), 5.0), Group(Key("Jan-24", "Project B"), 15.0)]
    ensures WithPercentages(gs, gs) == [SummaryRow("Jan-24", "Project A", 5.0, Some(0.25)),
                                        SummaryRow("Jan-24", "Project B", 15.0, Some(0.75))]
  {
    assert gs[1..] == [Group(Key("Jan-24", "Project B"), 15.0)] && gs[1..][1..] == [];
    assert TotalInMonth(gs[1..], "Jan-24") == 15.0;
    assert TotalInMonth(gs, "Jan-24") == 20.0;
  }

  /** Two projects of one user in January 2024, with 5 and 15 hours, make two rows of
      Jan-24 with 25% and 75%. */
  lemma JanuaryExample()
    ensures Summarize([Record("Alice", Some("Project A"), Date(2024, 1), 5.0, None),
                       Record("Alice", Some("Project B"), Date(2024, 1), 15.0, None)])
         == [SummaryRow("Jan-24", "Project A", 5.0, Some(0.25)),
             SummaryRow("Jan-24", "Project B", 15.0, Some(0.75))]
  {
    var a := Record("Alice", Some("Project A"), Date(2024, 1), 5.0, None);
    var b := Record("Alice", Some("Project B"), Date(2024, 1), 15.0, None);
    ExampleGroups(a, b);
    ExampleShares(GroupByKey([a, b]));
  }
}
