/**
 The persisted-failure list of the admin dashboard: the newest 25 of each of two
 tables, concatenated, sorted and cut to 25. Which rows the database picks among equal
 times is left open; any admissible pick is covered.
 */
module FailureMerge {
  import opened Wrappers

  const LIMIT := 25

  datatype Job = Job(id: string, failed: bool, updatedAt: int, message: Option<string>, email: string)

  datatype Source = AiDigest | OpmlImport

  datatype Failure = Failure(id: string, message: Option<string>, occurredAt: int, source: Source, email: string)

  datatype Error = AdministratorRequired

  datatype Range = Range(start: int, end: int)

  function ToFailure(j: Job, source: Source): Failure {
    Failure(j.id, j.message, j.updatedAt, source, j.email)
  }

  function ToFailures(jobs: seq<Job>, source: Source): seq<Failure> {
    if jobs == [] then [] else [ToFailure(jobs[0], source)] + ToFailures(jobs[1..], source)
  }

  /** The `where` clause: failed, and updated in the half-open range. */
  function Matching(table: seq<Job>, range: Range): seq<Job> {
    if table == [] then []
    else
      var rest := Matching(table[1..], range);
      if table[0].failed && range.start <= table[0].updatedAt < range.end then [table[0]] + rest else rest
  }

  /** Exactly the failed rows updated from the start of the range up to, not including, its end. */
  lemma {:induction false} MatchingExactly(table: seq<Job>, range: Range, j: Job)
    ensures multiset(Matching(table, range))[j] ==
      if j.failed && range.start <= j.updatedAt && j.updatedAt < range.end then multiset(table)[j] else 0
  {
    if table != [] {
      MatchingExactly(table[1..], range, j);
      assert table == [table[0]] + table[1..];
    }
  }

  // ---------- Sorting by time, newest first ----------

  function Insert(f: Failure, sorted: seq<Failure>): seq<Failure> {
    if sorted == [] || f.occurredAt >= sorted[0].occurredAt then [f] + sorted
    else [sorted[0]] + Insert(f, sorted[1..])
  }

  /** A stable sort by descending time. */
  function Sort(fs: seq<Failure>): seq<Failure> {
    if fs == [] then [] else Insert(fs[0], Sort(fs[1..]))
  }

  function Times(fs: seq<Failure>): (r: seq<int>)
    ensures |r| == |fs| && forall i :: 0 <= i < |fs| ==> r[i] == fs[i].occurredAt
  {
    seq(|fs|, i requires 0 <= i < |fs| => fs[i].occurredAt)
  }

  function Min(a: nat, b: nat): nat {
    if a < b then a else b
  }

  function Cut(fs: seq<Failure>): seq<Failure> {
    fs[..Min(LIMIT, |fs|)]
  }

  /** Rows of both tables as the dashboard shows them. */
  function AllFailures(digests: seq<Job>, imports: seq<Job>): seq<Failure> {
    ToFailures(digests, AiDigest) + ToFailures(imports, OpmlImport)
  }

  /** What the dashboard returns for the rows the two queries answered with. */
  function Merge(digests: seq<Job>, imports: seq<Job>): seq<Failure> {
    Cut(Sort(AllFailures(digests, imports)))
  }

  function PersistedFailures(isAdmin: bool, digests: seq<Job>, imports: seq<Job>): Result<seq<Failure>, Error> {
    if !isAdmin then Err(AdministratorRequired) else Ok(Merge(digests, imports))
  }

  // ---------- A query answer ----------

  /** `orderBy updatedAt desc, take k`: sorted, as many as there are up to k, and none left out is newer. */
  ghost predicate Answers(k: nat, table: seq<Job>, rows: seq<Job>) {
    && |rows| == Min(k, |table|)
    && multiset(rows) <= multiset(table)
    && (forall i, j :: 0 <= i < j < |rows| ==> rows[i].updatedAt >= rows[j].updatedAt)
    && (forall x, i :: x in multiset(table) - multiset(rows) && 0 <= i < |rows| ==> x.updatedAt <= rows[i].updatedAt)
  }

  // ---------- Top k of a multiset of times ----------

  ghost predicate Descending(s: seq<int>) {
    forall i, j :: 0 <= i < j < |s| ==> s[i] >= s[j]
  }

  ghost predicate Dominates(s: seq<int>, rest: multiset<int>) {
    forall x, i :: x in rest && 0 <= i < |s| ==> x <= s[i]
  }

  /** The k largest of `all`, largest first. */
  ghost predicate IsTop(k: nat, all: multiset<int>, s: seq<int>) {
    && |s| == Min(k, |all|)
    && multiset(s) <= all
    && Descending(s)
    && Dominates(s, all - multiset(s))
  }

  /** If two sequences first differ at i, the sorted one with the smaller value leaves out the larger. */
  lemma LargerIsLeftOut(all: multiset<int>, s: seq<int>, t: seq<int>, i: nat)
    requires multiset(s) <= all && Descending(t)
    requires i < |s| && i < |t| && s[..i] == t[..i] && s[i] > t[i]
    ensures s[i] in all - multiset(t)
  {
    var x := s[i];
    assert s == s[..i] + s[i..] && t == t[..i] + t[i..];
    assert multiset(s) == multiset(s[..i]) + multiset(s[i..]);
    assert multiset(t) == multiset(t[..i]) + multiset(t[i..]);
    assert s[i..][0] == x;
    assert forall j :: 0 <= j < |t[i..]| ==> t[i..][j] == t[i + j] && t[i + j] <= t[i];
    assert x !in multiset(t[i..]);
    assert multiset(t)[x] < multiset(s)[x];
  }

  lemma TopsCannotDiffer(k: nat, all: multiset<int>, s: seq<int>, t: seq<int>, i: nat)
    requires IsTop(k, all, s) && IsTop(k, all, t)
    requires i < |s| && s[..i] == t[..i]
    ensures s[i] <= t[i]
  {
    if s[i] > t[i] {
      LargerIsLeftOut(all, s, t, i);
    }
  }

  lemma {:induction false} TopsAgreeUpTo(k: nat, all: multiset<int>, s: seq<int>, t: seq<int>, n: nat)
    requires IsTop(k, all, s) && IsTop(k, all, t) && n <= |s|
    ensures s[..n] == t[..n]
  {
    if n > 0 {
      TopsAgreeUpTo(k, all, s, t, n - 1);
      TopsCannotDiffer(k, all, s, t, n - 1);
      TopsCannotDiffer(k, all, t, s, n - 1);
      assert s[..n] == s[..n - 1] + [s[n - 1]] && t[..n] == t[..n - 1] + [t[n - 1]];
    }
  }

  /** The times of the k largest are determined, however ties were broken. */
  lemma TopIsUnique(k: nat, all: multiset<int>, s: seq<int>, t: seq<int>)
    requires IsTop(k, all, s) && IsTop(k, all, t)
    ensures s == t
  {
    TopsAgreeUpTo(k, all, s, t, |s|);
    assert s[..|s|] == s && t[..|t|] == t;
  }

  lemma SubsetSize(a: multiset<int>, b: multiset<int>)
    requires a <= b
    ensures |a| <= |b|
  {
    assert b == a + (b - a);
  }

  lemma SliceInDescending(sorted: seq<int>, m: nat)
    requires Descending(sorted) && m <= |sorted|
    ensures multiset(sorted) == multiset(sorted[..m]) + multiset(sorted[m..])
    ensures Descending(sorted[..m]) && Dominates(sorted[..m], multiset(sorted[m..]))
  {
    assert sorted == sorted[..m] + sorted[m..];
    forall x, i | x in multiset(sorted[m..]) && 0 <= i < m
      ensures x <= sorted[..m][i]
    {
      var j :| 0 <= j < |sorted[m..]| && sorted[m..][j] == x;
      assert sorted[m + j] == x;
    }
  }

  /** A prefix of a sorted sequence is its top. */
  lemma PrefixIsTop(k: nat, sorted: seq<int>)
    requires Descending(sorted)
    ensures IsTop(k, multiset(sorted), sorted[..Min(k, |sorted|)])
  {
    SliceInDescending(sorted, Min(k, |sorted|));
  }

  /** If the sorted elements fall below x at i, at most i of them are at least x. */
  lemma FewLarge(sorted: seq<int>, a: seq<int>, x: int, i: nat)
    requires Descending(sorted) && multiset(a) <= multiset(sorted)
    requires forall j :: 0 <= j < |a| ==> x <= a[j]
    requires i < |sorted| && sorted[i] < x
    ensures |a| <= i
  {
    SliceInDescending(sorted, i);
    forall v
      ensures multiset(a)[v] <= multiset(sorted[..i])[v]
    {
      if v >= x {
        assert forall j :: 0 <= j < |sorted[i..]| ==> sorted[i..][j] == sorted[i + j] && sorted[i + j] <= sorted[i];
        assert v !in multiset(sorted[i..]);
      } else {
        assert v !in multiset(a);
      }
    }
    SubsetSize(multiset(a), multiset(sorted[..i]));
  }

  lemma NothingLeftOut(all: multiset<int>, part: multiset<int>)
    requires part <= all && |part| == |all|
    ensures all - part == multiset{}
  {
    assert all == part + (all - part);
  }

  /** An element of one side that its own top left out is dominated by the merged top. */
  lemma LeftOutIsDominated(k: nat, all: multiset<int>, a: seq<int>, sorted: seq<int>, x: int, i: nat)
    requires IsTop(k, all, a) && Descending(sorted) && multiset(a) <= multiset(sorted)
    requires x in all - multiset(a) && i < Min(k, |sorted|)
    ensures x <= sorted[i]
  {
    if |a| == |all| {
      NothingLeftOut(all, multiset(a));
    } else if sorted[i] < x {
      FewLarge(sorted, a, x, i);
    }
  }

  /** The top of the two tops is the top of the union. */
  lemma TopOfTops(k: nat, p: multiset<int>, q: multiset<int>, a: seq<int>, b: seq<int>, sorted: seq<int>)
    requires IsTop(k, p, a) && IsTop(k, q, b)
    requires Descending(sorted) && multiset(sorted) == multiset(a) + multiset(b)
    ensures IsTop(k, p + q, sorted[..Min(k, |sorted|)])
  {
    var s, rest := sorted[..Min(k, |sorted|)], sorted[Min(k, |sorted|)..];
    SliceInDescending(sorted, Min(k, |sorted|));
    assert |sorted| == |multiset(sorted)| == |a| + |b|;
    assert multiset(s) <= multiset(a) + multiset(b) <= p + q;
    forall x, i | x in p + q - multiset(s) && 0 <= i < |s|
      ensures x <= s[i]
    {
      if x in p - multiset(a) {
        LeftOutIsDominated(k, p, a, sorted, x, i);
      } else if x in q - multiset(b) {
        LeftOutIsDominated(k, q, b, sorted, x, i);
      } else {
        assert p[x] <= multiset(a)[x] && q[x] <= multiset(b)[x];
        assert x in multiset(rest);
      }
    }
  }

  // ---------- From rows to times ----------

  lemma {:induction false} InsertKeepsAll(f: Failure, sorted: seq<Failure>)
    ensures multiset(Insert(f, sorted)) == multiset{f} + multiset(sorted)
  {
    if sorted != [] && f.occurredAt < sorted[0].occurredAt {
      InsertKeepsAll(f, sorted[1..]);
      assert sorted == [sorted[0]] + sorted[1..];
    }
  }

  predicate AtMost(fs: seq<Failure>, bound: int) {
    forall i :: 0 <= i < |fs| ==> fs[i].occurredAt <= bound
  }

  lemma {:induction false} InsertAtMost(f: Failure, sorted: seq<Failure>, bound: int)
    requires f.occurredAt <= bound && AtMost(sorted, bound)
    ensures AtMost(Insert(f, sorted), bound)
  {
    if sorted != [] && f.occurredAt < sorted[0].occurredAt {
      InsertAtMost(f, sorted[1..], bound);
    }
  }

  lemma {:induction false} InsertSorts(f: Failure, sorted: seq<Failure>)
    requires Descending(Times(sorted))
    ensures Descending(Times(Insert(f, sorted)))
  {
    if sorted != [] && f.occurredAt < sorted[0].occurredAt {
      assert Times(sorted)[1..] == Times(sorted[1..]);
      InsertSorts(f, sorted[1..]);
      assert forall i :: 0 < i < |sorted| ==> Times(sorted)[i] <= Times(sorted)[0];
      InsertAtMost(f, sorted[1..], sorted[0].occurredAt);
    }
  }

  lemma {:induction false} SortSorts(fs: seq<Failure>)
    ensures Descending(Times(Sort(fs))) && multiset(Sort(fs)) == multiset(fs)
  {
    if fs != [] {
      SortSorts(fs[1..]);
      InsertSorts(fs[0], Sort(fs[1..]));
      InsertKeepsAll(fs[0], Sort(fs[1..]));
      assert fs == [fs[0]] + fs[1..];
    }
  }

  lemma TimesConcat(fs: seq<Failure>, gs: seq<Failure>)
    ensures Times(fs + gs) == Times(fs) + Times(gs)
  {
  }

  lemma TimesCons(f: Failure, rest: seq<Failure>)
    ensures multiset(Times([f] + rest)) == multiset{f.occurredAt} + multiset(Times(rest))
  {
    TimesConcat([f], rest);
    assert Times([f]) == [f.occurredAt];
  }

  lemma {:induction false} InsertTimes(f: Failure, sorted: seq<Failure>)
    ensures multiset(Times(Insert(f, sorted))) == multiset{f.occurredAt} + multiset(Times(sorted))
  {
    hide Times;
    if sorted == [] || f.occurredAt >= sorted[0].occurredAt {
      TimesCons(f, sorted);
    } else {
      InsertTimes(f, sorted[1..]);
      TimesCons(sorted[0], Insert(f, sorted[1..]));
      TimesCons(sorted[0], sorted[1..]);
      assert sorted == [sorted[0]] + sorted[1..];
    }
  }

  lemma {:induction false} SortTimes(fs: seq<Failure>)
    ensures multiset(Times(Sort(fs))) == multiset(Times(fs))
  {
    hide Times, Insert;
    if fs != [] {
      SortTimes(fs[1..]);
      InsertTimes(fs[0], Sort(fs[1..]));
      TimesCons(fs[0], fs[1..]);
      assert fs == [fs[0]] + fs[1..];
    }
  }

  function JobTimes(jobs: seq<Job>): (r: seq<int>)
    ensures |r| == |jobs| && forall i :: 0 <= i < |jobs| ==> r[i] == jobs[i].updatedAt
  {
    seq(|jobs|, i requires 0 <= i < |jobs| => jobs[i].updatedAt)
  }

  lemma JobTimesConcat(a: seq<Job>, b: seq<Job>)
    ensures JobTimes(a + b) == JobTimes(a) + JobTimes(b)
  {
  }

  lemma {:induction false} TimesOfFailures(jobs: seq<Job>, source: Source)
    ensures Times(ToFailures(jobs, source)) == JobTimes(jobs)
  {
    if jobs != [] {
      TimesOfFailures(jobs[1..], source);
      TimesConcat([ToFailure(jobs[0], source)], ToFailures(jobs[1..], source));
      JobTimesConcat([jobs[0]], jobs[1..]);
      assert jobs == [jobs[0]] + jobs[1..];
    }
  }

  /** A table around one of its rows. */
  lemma TakeRow(table: seq<Job>, j: Job) returns (rest: seq<Job>)
    requires j in table
    ensures multiset(table) == multiset(rest) + multiset{j}
    ensures multiset(JobTimes(table)) == multiset(JobTimes(rest)) + multiset{j.updatedAt}
  {
    var i :| 0 <= i < |table| && table[i] == j;
    var before, after := table[..i], table[i + 1..];
    rest := before + after;
    assert table == before + [j] + after;
    MultisetAround(before, j, after);
    JobTimesConcat(before + [j], after);
    JobTimesConcat(before, [j]);
    JobTimesConcat(before, after);
    assert JobTimes([j]) == [j.updatedAt];
    MultisetAround(JobTimes(before), j.updatedAt, JobTimes(after));
  }

  lemma MultisetAround<T>(before: seq<T>, x: T, after: seq<T>)
    ensures multiset(before + [x] + after) == multiset(before + after) + multiset{x}
  {
  }

  lemma FirstRow(rows: seq<Job>)
    requires rows != []
    ensures multiset(rows) == multiset{rows[0]} + multiset(rows[1..])
    ensures multiset(JobTimes(rows)) == multiset{rows[0].updatedAt} + multiset(JobTimes(rows[1..]))
  {
    assert rows == [rows[0]] + rows[1..];
    JobTimesConcat([rows[0]], rows[1..]);
    assert JobTimes([rows[0]]) == [rows[0].updatedAt];
  }

  lemma RemoveFromBoth<T>(a: multiset<T>, b: multiset<T>, x: T)
    requires multiset{x} + a <= b + multiset{x}
    ensures a <= b
    ensures b + multiset{x} - (multiset{x} + a) == b - a
  {
    forall v
      ensures a[v] <= b[v]
    {
      assert (multiset{x} + a)[v] <= (b + multiset{x})[v];
    }
  }

  /** Removing an answer's rows from a table removes their times from its times. */
  lemma {:induction false} AnswerTimes(table: seq<Job>, rows: seq<Job>) returns (left: seq<Job>)
    requires multiset(rows) <= multiset(table)
    ensures multiset(left) == multiset(table) - multiset(rows)
    ensures multiset(JobTimes(table)) == multiset(JobTimes(rows)) + multiset(JobTimes(left))
    decreases |rows|
  {
    if rows == [] {
      left := table;
    } else {
      FirstRow(rows);
      assert rows[0] in multiset(table);
      var table' := TakeRow(table, rows[0]);
      hide JobTimes;
      RemoveFromBoth(multiset(rows[1..]), multiset(table'), rows[0]);
      left := AnswerTimes(table', rows[1..]);
    }
  }

  /** A query answer is a top of the table's times. */
  lemma AnswerIsTop(k: nat, table: seq<Job>, rows: seq<Job>)
    requires Answers(k, table, rows)
    ensures IsTop(k, multiset(JobTimes(table)), JobTimes(rows))
  {
    var left := AnswerTimes(table, rows);
    var rest := multiset(JobTimes(table)) - multiset(JobTimes(rows));
    assert rest == multiset(JobTimes(left));
    forall x, i | x in rest && 0 <= i < |rows|
      ensures x <= JobTimes(rows)[i]
    {
      var j :| 0 <= j < |left| && JobTimes(left)[j] == x;
      assert left[j] in multiset(left);
    }
  }

  // ---------- Main result ----------

  /**
   Whatever the two queries answer, the dashboard shows the same times, in the same
   order, as sorting the union of both whole tables and cutting it to 25.
   */
  lemma MergedTimesAreGlobal(digests: seq<Job>, imports: seq<Job>, range: Range, d: seq<Job>, i: seq<Job>)
    requires Answers(25, Matching(digests, range), d) && Answers(25, Matching(imports, range), i)
    ensures PersistedFailures(false, d, i) == Err(AdministratorRequired)
    ensures PersistedFailures(true, d, i).Ok?
    ensures Times(PersistedFailures(true, d, i).value)
         == Times(Cut(Sort(AllFailures(Matching(digests, range), Matching(imports, range)))))
  {
    var dt, it := Matching(digests, range), Matching(imports, range);
    var some, every := Sort(AllFailures(d, i)), Sort(AllFailures(dt, it));
    var p, q := multiset(JobTimes(dt)), multiset(JobTimes(it));
    hide Matching, Answers, Sort, AllFailures, IsTop, Times, JobTimes, Cut, Min;
    AnswerIsTop(LIMIT, dt, d);
    AnswerIsTop(LIMIT, it, i);
    SortedTimes(d, i);
    SortedTimes(dt, it);
    TopOfTops(LIMIT, p, q, JobTimes(d), JobTimes(i), Times(some));
    PrefixIsTop(LIMIT, Times(every));
    CutTimes(some);
    CutTimes(every);
    TopIsUnique(LIMIT, p + q, Times(Cut(some)), Times(Cut(every)));
  }

  lemma CutTimes(fs: seq<Failure>)
    ensures Times(Cut(fs)) == Times(fs)[..Min(LIMIT, |Times(fs)|)]
  {
  }

  lemma SortedTimes(d: seq<Job>, i: seq<Job>)
    ensures Descending(Times(Sort(AllFailures(d, i))))
    ensures multiset(Times(Sort(AllFailures(d, i)))) == multiset(JobTimes(d)) + multiset(JobTimes(i))
  {
    var fs := AllFailures(d, i);
    SortSorts(fs);
    SortTimes(fs);
    TimesOfFailures(d, AiDigest);
    TimesOfFailures(i, OpmlImport);
    TimesConcat(ToFailures(d, AiDigest), ToFailures(i, OpmlImport));
  }

  /** No row is invented or repeated: the result is part of what the queries answered. */
  lemma MergedRowsAreAnswered(d: seq<Job>, i: seq<Job>)
    ensures multiset(Merge(d, i)) <= multiset(AllFailures(d, i))
    ensures |Merge(d, i)| == if |d| + |i| < 25 then |d| + |i| else 25
  {
    hide Sort, ToFailures;
    var fs := AllFailures(d, i);
    var sorted := Sort(fs);
    SortSorts(fs);
    SameLength(d, AiDigest);
    SameLength(i, OpmlImport);
    assert |multiset(sorted)| == |multiset(fs)|;
    FrontIsPart(sorted, Min(LIMIT, |sorted|));
  }

  lemma FrontIsPart(fs: seq<Failure>, m: nat)
    requires m <= |fs|
    ensures multiset(fs[..m]) <= multiset(fs)
  {
    assert fs == fs[..m] + fs[m..];
  }

  lemma {:induction false} SameLength(jobs: seq<Job>, source: Source)
    ensures |ToFailures(jobs, source)| == |jobs|
  {
    if jobs != [] {
      SameLength(jobs[1..], source);
    }
  }

  /** A shown row is a row of the source it names, field by field. */
  predicate Shows(f: Failure, j: Job) {
    f.id == j.id && f.message == j.message && f.occurredAt == j.updatedAt && f.email == j.email
  }

  lemma {:induction false} ShownFrom(jobs: seq<Job>, source: Source, f: Failure)
    requires f in ToFailures(jobs, source)
    ensures f.source == source && exists j :: j in jobs && Shows(f, j)
  {
    if f == ToFailure(jobs[0], source) {
      assert Shows(f, jobs[0]);
    } else {
      ShownFrom(jobs[1..], source, f);
      var j :| j in jobs[1..] && Shows(f, j);
      assert j in jobs;
    }
  }

  /** Every shown row equals an answered row of the source that it names. */
  lemma ShownRowsAreOfTheirSource(d: seq<Job>, i: seq<Job>, f: Failure)
    requires f in Merge(d, i)
    ensures f.source == AiDigest ==> exists j :: j in d && Shows(f, j)
    ensures f.source == OpmlImport ==> exists j :: j in i && Shows(f, j)
  {
    MergedRowsAreAnswered(d, i);
    assert f in multiset(Merge(d, i));
    assert f in multiset(AllFailures(d, i));
    if f in ToFailures(d, AiDigest) {
      ShownFrom(d, AiDigest, f);
    } else {
      ShownFrom(i, OpmlImport, f);
    }
  }
}
