/** The name of a user's sheet: the user id, then the sorted distinct company values
    ('Spółka (user field)') joined with '_', cut to Excel's 31-character limit. */
module SheetNames {
  import opened Wrappers
  import opened Strings
  import opened Collections
  import opened Timesheet

  /** Excel's limit on the length of a sheet name, which the name is cut to. */
  const MaxSheetNameLength: nat := 31

  /** Some record holds the string `s` in its company column. */
  predicate HasCompany(rs: seq<Record>, s: string)
  {
    exists i :: 0 <= i < |rs| && rs[i].company == Some(s)
  }

  /** The company column, as read. */
  function Companies(rs: seq<Record>): (cs: seq<Option<string>>)
    ensures |cs| == |rs| && forall i :: 0 <= i < |rs| ==> cs[i] == rs[i].company
  {
    seq(|rs|, i requires 0 <= i < |rs| => rs[i].company)
  }

  /** The values that are strings; missing (NaN) values are dropped. */
  function Present(xs: seq<Option<string>>): (r: seq<string>)
    ensures forall s :: s in r <==> Some(s) in xs
    ensures NoDuplicates(xs) ==> NoDuplicates(r)
  {
    if xs == [] then []
    else match xs[0]
      case None => Present(xs[1..])
      case Some(s) =>
        assert xs == [xs[0]] + xs[1..];
        [s] + Present(xs[1..])
  }

  /** The distinct company values of the records, first-seen order, strings only. */
  function CompanyValues(rs: seq<Record>): seq<string>
  {
    Present(Distinct(Companies(rs)))
  }

  /** The company strings in sorted order. */
  function SortedCompanies(rs: seq<Record>): seq<string>
  {
    Sort(CompanyValues(rs))
  }

  /** The sorted company list holds each company string of the records exactly once, in
      increasing order; no list other than it does both. */
  lemma SortedCompaniesSpec(rs: seq<Record>)
    ensures StrictlyIncreasing(SortedCompanies(rs))
    ensures forall s :: s in SortedCompanies(rs) <==> HasCompany(rs, s)
    ensures forall xs :: StrictlyIncreasing(xs) && (forall s :: s in xs <==> HasCompany(rs, s)) ==> xs == SortedCompanies(rs)
  {
    var cs := Companies(rs);
    forall s ensures Some(s) in cs <==> HasCompany(rs, s) {
      if Some(s) in cs { var i :| 0 <= i < |cs| && cs[i] == Some(s); }
      if HasCompany(rs, s) { var i :| 0 <= i < |rs| && rs[i].company == Some(s); assert cs[i] == Some(s); }
    }
    SortDistinct(CompanyValues(rs));
    forall xs | StrictlyIncreasing(xs) && (forall s :: s in xs <==> HasCompany(rs, s))
      ensures xs == SortedCompanies(rs)
    {
      StrictlyIncreasingUnique(xs, SortedCompanies(rs));
    }
  }

  /** The sorted company strings joined with '_'. */
  function Suffix(rs: seq<Record>): string
  {
    Join("_", SortedCompanies(rs))
  }

  /** The user, then '_' and the suffix when the suffix is not empty; before the cut. */
  function FullSheetName(user: string, rs: seq<Record>): string
  {
    var suffix := Suffix(rs);
    if suffix != "" then user + "_" + suffix else user
  }

  /** The name cut to its first 31 characters: at most 31 characters, a prefix of the full name, and the full name
      itself when that already fits. */
  function SheetName(user: string, rs: seq<Record>): (name: string)
    ensures |name| <= MaxSheetNameLength && |name| <= |FullSheetName(user, rs)|
    ensures name == FullSheetName(user, rs)[..|name|]
    ensures |FullSheetName(user, rs)| <= MaxSheetNameLength ==> name == FullSheetName(user, rs)
    ensures |FullSheetName(user, rs)| > MaxSheetNameLength ==> |name| == MaxSheetNameLength
  {
    Truncate(FullSheetName(user, rs), MaxSheetNameLength)
  }

  lemma JoinEmpty(sep: string, xs: seq<string>)
    requires sep != []
    ensures Join(sep, xs) == "" <==> |xs| == 0 || (|xs| == 1 && xs[0] == "")
  {
    if |xs| > 1 {
      assert |Join(sep, xs)| >= |sep|;
    }
  }

  /** A user without any string company value gets a sheet named after the user alone. */
  lemma NoCompanyMeansBareUser(user: string, rs: seq<Record>)
    requires forall s :: !HasCompany(rs, s)
    ensures FullSheetName(user, rs) == user
  {
    SortedCompaniesSpec(rs);
    StrictlyIncreasingUnique([], SortedCompanies(rs));
  }

  /** With a nonempty company string, the name is the user, '_', and the sorted distinct
      company strings joined with '_'. */
  lemma CompaniesJoinedBehindUser(user: string, rs: seq<Record>, c: string)
    requires HasCompany(rs, c) && c != ""
    ensures FullSheetName(user, rs) == user + "_" + Join("_", SortedCompanies(rs))
  {
    SortedCompaniesSpec(rs);
    JoinEmpty("_", SortedCompanies(rs));
    assert c in SortedCompanies(rs);
  }

  /** Reading the name back: when no company string contains '_', splitting what follows
      "user_" at '_' gives back the sorted company list. */
  lemma SheetNameListsCompanies(user: string, rs: seq<Record>, c: string)
    requires HasCompany(rs, c) && c != ""
    requires forall s :: HasCompany(rs, s) ==> '_' !in s
    ensures var full := FullSheetName(user, rs);
      |full| > |user| && full[..|user| + 1] == user + "_"
      && Split(full[|user| + 1..], '_') == SortedCompanies(rs)
  {
    CompaniesJoinedBehindUser(user, rs, c);
    var sorted := SortedCompanies(rs);
    SortedCompaniesSpec(rs);
    assert c in sorted;
    forall i | 0 <= i < |sorted| ensures '_' !in sorted[i] { assert sorted[i] in sorted; }
    SplitJoin(sorted, '_');
    var full := FullSheetName(user, rs);
    assert full[|user| + 1..] == Join("_", sorted);
  }
}
