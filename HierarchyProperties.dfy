/**
 * What the reporting-structure computation guarantees, proved about the
 * value-level definitions of module Hierarchy.
 */
module HierarchyProperties {
  import opened Wrappers
  import opened Employees
  import opened Hierarchy

  /** The sequential result for the stored record `id`, aggregated from count 0. */
  function SlowRecord(dir: Directory, rank: Ranking, id: string): Result<Structure, Error>
    requires WellFormed(dir, rank) && id in dir
  {
    Slow(dir, rank, Structure(dir[id], 0), rank[id])
  }

  /**
   * The stream over the references succeeds exactly when every reference is
   * in the directory and every one of them aggregates; its i-th result is then
   * the aggregate of the record the i-th reference names.
   */
  lemma {:induction false} SlowAllResolvesEach(dir: Directory, rank: Ranking, refs: seq<EmployeeValue>, k: nat)
    requires WellFormed(dir, rank) && RefsRankedBelow(dir, rank, refs, k)
    ensures SlowAll(dir, rank, refs, k).Ok? <==>
      forall i :: 0 <= i < |refs| ==> Present(dir, refs[i]) && SlowRecord(dir, rank, refs[i].employeeId.value).Ok?
    ensures SlowAll(dir, rank, refs, k).Ok? ==>
      var subs := SlowAll(dir, rank, refs, k).value;
      |subs| == |refs| &&
      forall i :: 0 <= i < |refs| ==> SlowRecord(dir, rank, refs[i].employeeId.value) == Ok(subs[i])
    decreases |refs|
  {
    if refs != [] {
      SlowAllResolvesEach(dir, rank, refs[1..], k);
      var tail := refs[1..];
      assert forall i :: 1 <= i < |refs| ==> refs[i] == tail[i - 1];
    }
  }

  /** Aggregation changes only the list of direct reports and the count. */
  lemma SlowKeepsRecord(dir: Directory, rank: Ranking, s: Structure, k: nat)
    requires WellFormed(dir, rank) && RankedBelow(dir, rank, s.employee, k)
    ensures Slow(dir, rank, s, k).Ok? ==>
      var r := Slow(dir, rank, s, k).value.employee;
      && r.(directReports := s.employee.directReports) == s.employee
      && r.directReports.Null? == s.employee.directReports.Null?
      && (r.directReports.List? ==> |r.directReports.items| == |s.employee.directReports.items|)
  {
    if s.employee.directReports.List? && |s.employee.directReports.items| > 0 {
      SlowAllResolvesEach(dir, rank, s.employee.directReports.items, k);
    }
  }

  /**
   * For a non-empty list, the resolved list has the same length and order as
   * the listed ids: element i is the record of the i-th listed id, itself
   * aggregated.  Nothing else about the employee changes.
   */
  lemma SlowResolvesInOrder(dir: Directory, rank: Ranking, s: Structure, k: nat)
    requires WellFormed(dir, rank) && RankedBelow(dir, rank, s.employee, k)
    requires s.employee.directReports.List? && |s.employee.directReports.items| > 0
    ensures Slow(dir, rank, s, k).Ok? ==>
      var refs := s.employee.directReports.items;
      var r := Slow(dir, rank, s, k).value.employee;
      && r.(directReports := s.employee.directReports) == s.employee
      && r.directReports.List? && |r.directReports.items| == |refs|
      && forall i :: 0 <= i < |refs| ==>
           && Present(dir, refs[i])
           && r.directReports.items[i].employeeId == refs[i].employeeId
           && SlowRecord(dir, rank, refs[i].employeeId.value).Ok?
           && r.directReports.items[i] == SlowRecord(dir, rank, refs[i].employeeId.value).value.employee
  {
    var refs := s.employee.directReports.items;
    SlowAllResolvesEach(dir, rank, refs, k);
    if Slow(dir, rank, s, k).Ok? {
      forall i | 0 <= i < |refs|
        ensures SlowRecord(dir, rank, refs[i].employeeId.value).value.employee.employeeId == refs[i].employeeId
      {
        var id := refs[i].employeeId.value;
        SlowKeepsRecord(dir, rank, Structure(dir[id], 0), rank[id]);
      }
    }
  }

  /**
   * Starting from count 0, the count is the number of employees strictly
   * below the root of the resolved tree.
   */
  lemma {:induction false} SlowCountsDescendants(dir: Directory, rank: Ranking, s: Structure, k: nat)
    requires WellFormed(dir, rank) && RankedBelow(dir, rank, s.employee, k)
    requires s.numberOfReports == 0
    ensures Slow(dir, rank, s, k).Ok? ==>
      Slow(dir, rank, s, k).value.numberOfReports == |Descendants(Slow(dir, rank, s, k).value.employee)|
    decreases k, 1
  {
    match s.employee.directReports
    case Null =>
    case List(refs) =>
      if |refs| > 0 {
        SlowAllCountsDescendants(dir, rank, refs, k);
      }
  }

  lemma {:induction false} SlowAllCountsDescendants(dir: Directory, rank: Ranking, refs: seq<EmployeeValue>, k: nat)
    requires WellFormed(dir, rank) && RefsRankedBelow(dir, rank, refs, k)
    ensures SlowAll(dir, rank, refs, k).Ok? ==>
      var subs := SlowAll(dir, rank, refs, k).value;
      |subs| == |refs| && |refs| + SumOfCounts(subs) == |DescendantsOfAll(EmployeesOf(subs))|
    decreases k, 0, |refs|
  {
    if refs != [] && SlowAll(dir, rank, refs, k).Ok? {
      var id := refs[0].employeeId.value;
      SlowCountsDescendants(dir, rank, Structure(dir[id], 0), rank[id]);
      SlowAllCountsDescendants(dir, rank, refs[1..], k);
      var subs := SlowAll(dir, rank, refs, k).value;
      assert EmployeesOf(subs)[1..] == EmployeesOf(subs[1..]);
    }
  }

  /** A list of employees has at least as many descendants as members. */
  lemma {:induction false} DescendantsCoverList(cs: seq<EmployeeValue>)
    ensures |DescendantsOfAll(cs)| >= |cs|
  {
    if cs != [] {
      DescendantsCoverList(cs[1..]);
    }
  }

  /**
   * Starting from count 0: the count is never negative, is at least the number
   * of direct reports, and is 0 exactly when the list is null or empty.
   */
  lemma SlowCountBounds(dir: Directory, rank: Ranking, s: Structure, k: nat)
    requires WellFormed(dir, rank) && RankedBelow(dir, rank, s.employee, k)
    requires s.numberOfReports == 0
    ensures Slow(dir, rank, s, k).Ok? ==>
      var n := Slow(dir, rank, s, k).value.numberOfReports;
      && n >= 0
      && (s.employee.directReports.List? ==> n >= |s.employee.directReports.items|)
      && (n == 0 <==> s.employee.directReports.Null? || s.employee.directReports.items == [])
  {
    if Slow(dir, rank, s, k).Ok? {
      SlowCountsDescendants(dir, rank, s, k);
      SlowKeepsRecord(dir, rank, s, k);
      var r := Slow(dir, rank, s, k).value.employee;
      if r.directReports.List? {
        DescendantsCoverList(r.directReports.items);
      }
    }
  }

  /** A failure always names an id that the directory does not hold. */
  lemma {:induction false} SlowFailsOnlyOnMissing(dir: Directory, rank: Ranking, s: Structure, k: nat)
    requires WellFormed(dir, rank) && RankedBelow(dir, rank, s.employee, k)
    ensures Slow(dir, rank, s, k).Err? ==>
      var id := Slow(dir, rank, s, k).error.id;
      id.None? || id.value !in dir
    decreases k, 1
  {
    if s.employee.directReports.List? && |s.employee.directReports.items| > 0 {
      SlowAllFailsOnlyOnMissing(dir, rank, s.employee.directReports.items, k);
    }
  }

  lemma {:induction false} SlowAllFailsOnlyOnMissing(dir: Directory, rank: Ranking, refs: seq<EmployeeValue>, k: nat)
    requires WellFormed(dir, rank) && RefsRankedBelow(dir, rank, refs, k)
    ensures SlowAll(dir, rank, refs, k).Err? ==>
      var id := SlowAll(dir, rank, refs, k).error.id;
      id.None? || id.value !in dir
    decreases k, 0, |refs|
  {
    if refs != [] && Present(dir, refs[0]) {
      var id := refs[0].employeeId.value;
      SlowFailsOnlyOnMissing(dir, rank, Structure(dir[id], 0), rank[id]);
      SlowAllFailsOnlyOnMissing(dir, rank, refs[1..], k);
    }
  }

  /** The first phase of the pool version fails with the first id the directory does not hold. */
  lemma {:induction false} ReadAllFailsAtFirstMissing(dir: Directory, refs: seq<EmployeeValue>, i: nat)
    requires i < |refs| && !Present(dir, refs[i])
    requires forall j :: 0 <= j < i ==> Present(dir, refs[j])
    ensures ReadAll(dir, refs) == Err(InvalidEmployeeId(refs[i].employeeId))
  {
    if i > 0 {
      ReadAllFailsAtFirstMissing(dir, refs[1..], i - 1);
    }
  }

  /**
   * The pool version succeeds exactly when the sequential one does, and then
   * gives the same resolved tree and the same count.
   */
  lemma {:induction false} FastIsSlow(dir: Directory, rank: Ranking, s: Structure, k: nat)
    requires WellFormed(dir, rank) && RankedBelow(dir, rank, s.employee, k)
    ensures Fast(dir, rank, s, k).Ok? <==> Slow(dir, rank, s, k).Ok?
    ensures Slow(dir, rank, s, k).Ok? ==> Fast(dir, rank, s, k) == Slow(dir, rank, s, k)
    decreases k, 1
  {
    match s.employee.directReports
    case Null =>
    case List(refs) =>
      if |refs| > 0 {
        match ReadAll(dir, refs)
        case Err(_) =>
          SlowAllResolvesEach(dir, rank, refs, k);
        case Ok(cs) =>
          FastAllIsSlowAll(dir, rank, refs, cs, k);
      }
  }

  lemma {:induction false} FastAllIsSlowAll(dir: Directory, rank: Ranking, refs: seq<EmployeeValue>, cs: seq<EmployeeValue>, k: nat)
    requires WellFormed(dir, rank) && RefsRankedBelow(dir, rank, refs, k)
    requires |cs| == |refs|
    requires forall i :: 0 <= i < |refs| ==> Present(dir, refs[i]) && cs[i] == dir[refs[i].employeeId.value]
    ensures FastAll(dir, rank, refs, cs, k).Ok? <==> SlowAll(dir, rank, refs, k).Ok?
    ensures SlowAll(dir, rank, refs, k).Ok? ==> FastAll(dir, rank, refs, cs, k) == SlowAll(dir, rank, refs, k)
    decreases k, 0, |refs|
  {
    if refs != [] {
      var id := refs[0].employeeId.value;
      FastIsSlow(dir, rank, Structure(cs[0], 0), rank[id]);
      FastAllIsSlowAll(dir, rank, refs[1..], cs[1..], k);
    }
  }

  /** A failure of the pool version also names an id the directory does not hold. */
  lemma {:induction false} FastFailsOnlyOnMissing(dir: Directory, rank: Ranking, s: Structure, k: nat)
    requires WellFormed(dir, rank) && RankedBelow(dir, rank, s.employee, k)
    ensures Fast(dir, rank, s, k).Err? ==>
      var id := Fast(dir, rank, s, k).error.id;
      id.None? || id.value !in dir
    decreases k, 1
  {
    match s.employee.directReports
    case Null =>
    case List(refs) =>
      if |refs| > 0 && ReadAll(dir, refs).Ok? {
        FastAllFailsOnlyOnMissing(dir, rank, refs, ReadAll(dir, refs).value, k);
      }
  }

  lemma {:induction false} FastAllFailsOnlyOnMissing(dir: Directory, rank: Ranking, refs: seq<EmployeeValue>, cs: seq<EmployeeValue>, k: nat)
    requires WellFormed(dir, rank) && RefsRankedBelow(dir, rank, refs, k)
    requires |cs| == |refs|
    requires forall i :: 0 <= i < |refs| ==> Present(dir, refs[i]) && cs[i] == dir[refs[i].employeeId.value]
    ensures FastAll(dir, rank, refs, cs, k).Err? ==>
      var id := FastAll(dir, rank, refs, cs, k).error.id;
      id.None? || id.value !in dir
    decreases k, 0, |refs|
  {
    if refs != [] {
      var id := refs[0].employeeId.value;
      FastFailsOnlyOnMissing(dir, rank, Structure(cs[0], 0), rank[id]);
      FastAllFailsOnlyOnMissing(dir, rank, refs[1..], cs[1..], k);
    }
  }

  /** A direct report missing from the directory fails both versions. */
  lemma MissingReportFails(dir: Directory, rank: Ranking, s: Structure, k: nat, i: nat)
    requires WellFormed(dir, rank) && RankedBelow(dir, rank, s.employee, k)
    requires s.employee.directReports.List? && i < |s.employee.directReports.items|
    requires !Present(dir, s.employee.directReports.items[i])
    ensures Slow(dir, rank, s, k).Err? && Fast(dir, rank, s, k).Err?
  {
    SlowAllResolvesEach(dir, rank, s.employee.directReports.items, k);
    FastIsSlow(dir, rank, s, k);
  }

  /** Two lists naming the same ids, in the same order. */
  predicate SameIds(a: seq<EmployeeValue>, b: seq<EmployeeValue>)
  {
    |a| == |b| && forall i :: 0 <= i < |a| ==> a[i].employeeId == b[i].employeeId
  }

  /** The stream over the references looks only at their ids. */
  lemma {:induction false} SlowAllReadsOnlyIds(dir: Directory, rank: Ranking, a: seq<EmployeeValue>, b: seq<EmployeeValue>, k: nat)
    requires WellFormed(dir, rank) && RefsRankedBelow(dir, rank, a, k)
    requires SameIds(a, b)
    ensures RefsRankedBelow(dir, rank, b, k)
    ensures SlowAll(dir, rank, a, k) == SlowAll(dir, rank, b, k)
    decreases |a|
  {
    forall r | r in b && Present(dir, r)
      ensures r.employeeId.value in rank && rank[r.employeeId.value] < k
    {
      var i :| 0 <= i < |b| && b[i] == r;
      assert a[i] in a;
    }
    if a != [] {
      SlowAllReadsOnlyIds(dir, rank, a[1..], b[1..], k);
    }
  }

  /**
   * Aggregating an already aggregated employee again, from count 0, gives the
   * same tree and the same count: the resolved reports carry the ids that were
   * listed, and the directory is read again for the same records.
   */
  lemma SlowIdempotent(dir: Directory, rank: Ranking, v: EmployeeValue, k: nat)
    requires WellFormed(dir, rank) && RankedBelow(dir, rank, v, k)
    ensures Slow(dir, rank, Structure(v, 0), k).Ok? ==>
      var r := Slow(dir, rank, Structure(v, 0), k).value;
      RankedBelow(dir, rank, r.employee, k) && Slow(dir, rank, Structure(r.employee, 0), k) == Ok(r)
  {
    var s := Structure(v, 0);
    if Slow(dir, rank, s, k).Ok? && v.directReports.List? && |v.directReports.items| > 0 {
      var refs := v.directReports.items;
      SlowResolvesInOrder(dir, rank, s, k);
      var r := Slow(dir, rank, s, k).value;
      var subs := SlowAll(dir, rank, refs, k).value;
      assert r.employee.directReports.items == EmployeesOf(subs);
      SlowAllReadsOnlyIds(dir, rank, refs, EmployeesOf(subs), k);
    }
  }

  /**
   * The employee `d` is the directory's record for its own id, with only its
   * list of direct reports resolved (null stays null, a list keeps its length).
   */
  ghost predicate ResolvedRecord(dir: Directory, d: EmployeeValue)
  {
    && Present(dir, d)
    && var rec := dir[d.employeeId.value];
       && d.(directReports := rec.directReports) == rec
       && d.directReports.Null? == rec.directReports.Null?
       && (d.directReports.List? ==> |d.directReports.items| == |rec.directReports.items|)
  }

  /** Every employee below the root of a resolved tree is a resolved directory record. */
  lemma {:induction false} SlowResolvesAllDescendants(dir: Directory, rank: Ranking, s: Structure, k: nat)
    requires WellFormed(dir, rank) && RankedBelow(dir, rank, s.employee, k)
    ensures Slow(dir, rank, s, k).Ok? ==>
      forall d :: d in Descendants(Slow(dir, rank, s, k).value.employee) ==> ResolvedRecord(dir, d)
    decreases k, 1
  {
    match s.employee.directReports
    case Null =>
    case List(refs) =>
      if |refs| > 0 {
        SlowAllResolvesAllDescendants(dir, rank, refs, k);
      }
  }

  lemma {:induction false} SlowAllResolvesAllDescendants(dir: Directory, rank: Ranking, refs: seq<EmployeeValue>, k: nat)
    requires WellFormed(dir, rank) && RefsRankedBelow(dir, rank, refs, k)
    ensures SlowAll(dir, rank, refs, k).Ok? ==>
      forall d :: d in DescendantsOfAll(EmployeesOf(SlowAll(dir, rank, refs, k).value)) ==> ResolvedRecord(dir, d)
    decreases k, 0, |refs|
  {
    if refs != [] && SlowAll(dir, rank, refs, k).Ok? {
      var id := refs[0].employeeId.value;
      var head := Structure(dir[id], 0);
      SlowKeepsRecord(dir, rank, head, rank[id]);
      SlowResolvesAllDescendants(dir, rank, head, rank[id]);
      SlowAllResolvesAllDescendants(dir, rank, refs[1..], k);
      var subs := SlowAll(dir, rank, refs, k).value;
      var es := EmployeesOf(subs);
      assert es[1..] == EmployeesOf(subs[1..]);
      assert DescendantsOfAll(es) == [es[0]] + Descendants(es[0]) + DescendantsOfAll(es[1..]);
      assert ResolvedRecord(dir, es[0]);
    }
  }
}
