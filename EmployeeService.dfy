/**
 * The employee service: reading an employee from the repository and
 * computing an employee's reporting structure, sequentially and with the
 * worker pool.  Both computations replace each visited employee's list of
 * direct reports in place and write the count into the structure they were
 * given; each is proved to leave exactly what module Hierarchy computes.
 */
module Service {
  import opened Wrappers
  import opened Employees
  import opened Reporting
  import opened Hierarchy
  import HierarchyProperties

  /** `done` followed by the successful remainder, or the remainder's failure. */
  function Then<T>(done: seq<T>, rest: Result<seq<T>, Error>): Result<seq<T>, Error>
  {
    match rest
    case Ok(tail) => Ok(done + tail)
    case Err(e) => Err(e)
  }

  lemma ThenNothing<T>(rest: Result<seq<T>, Error>)
    ensures Then([], rest) == rest
  {
    match rest
    case Ok(tail) => assert [] + tail == tail;
    case Err(_) =>
  }

  lemma ThenOneMore<T>(done: seq<T>, x: T, rest: Result<seq<T>, Error>)
    ensures Then(done, Then([x], rest)) == Then(done + [x], rest)
  {
    match rest
    case Ok(tail) => assert done + ([x] + tail) == done + [x] + tail;
    case Err(_) =>
  }

  /** `map(Employee::getEmployeeId)`: the ids of the references, in order. */
  function IdsOf(refs: seq<Employee>): seq<Option<string>>
    reads refs
  {
    seq(|refs|, i requires 0 <= i < |refs| reads refs => refs[i].employeeId)
  }

  /** `map(ReportingStructure::getEmployee)`: the employees of the structures, in order. */
  function EmployeesOfAll(structures: seq<ReportingStructure>): seq<Employee>
    requires forall j :: 0 <= j < |structures| ==> structures[j].employee != null
  {
    seq(|structures|, i requires 0 <= i < |structures| => structures[i].employee)
  }

  /** `mapToInt(ReportingStructure::getNumberOfReports).sum()`. */
  function CountsSum(structures: seq<ReportingStructure>): int
    reads structures
  {
    if structures == [] then 0 else structures[0].numberOfReports + CountsSum(structures[1..])
  }

  /** One element of the sequential stream: read the reference, then aggregate it from count 0. */
  ghost function SlowOne(dir: Directory, rank: Ranking, ref: EmployeeValue, k: nat): Result<Structure, Error>
    requires WellFormed(dir, rank) && RefsRankedBelow(dir, rank, [ref], k)
  {
    match Lookup(dir, ref.employeeId)
    case Err(e) => Err(e)
    case Ok(c) => Slow(dir, rank, Structure(c, 0), rank[ref.employeeId.value])
  }

  lemma SlowAllStep(dir: Directory, rank: Ranking, refs: seq<EmployeeValue>, k: nat)
    requires WellFormed(dir, rank) && RefsRankedBelow(dir, rank, refs, k) && refs != []
    ensures RefsRankedBelow(dir, rank, [refs[0]], k) && RefsRankedBelow(dir, rank, refs[1..], k)
    ensures SlowAll(dir, rank, refs, k) ==
      match SlowOne(dir, rank, refs[0], k)
      case Err(e) => Err(e)
      case Ok(s) => Then([s], SlowAll(dir, rank, refs[1..], k))
  {
    assert refs[0] in refs;
    assert forall r :: r in refs[1..] ==> r in refs;
  }

  /** The results of the pool version's two phases over `refs`. */
  ghost function FastReports(dir: Directory, rank: Ranking, refs: seq<EmployeeValue>, k: nat): Result<seq<Structure>, Error>
    requires WellFormed(dir, rank) && RefsRankedBelow(dir, rank, refs, k)
  {
    match ReadAll(dir, refs)
    case Err(e) => Err(e)
    case Ok(cs) => FastAll(dir, rank, refs, cs, k)
  }

  /**
   * `cs` holds the directory's record for each of `refs`, every reference has
   * a rank below `k`, and the directory is well formed: what the second phase
   * of the pool version starts from.
   */
  ghost predicate Aligned(dir: Directory, rank: Ranking, refs: seq<EmployeeValue>, cs: seq<EmployeeValue>, k: nat)
  {
    && WellFormed(dir, rank) && RefsRankedBelow(dir, rank, refs, k) && |cs| == |refs|
    && forall j :: 0 <= j < |refs| ==> Present(dir, refs[j]) && cs[j] == dir[refs[j].employeeId.value]
  }

  /** The second phase of the pool version from position `i` of the references on. */
  ghost function FastFrom(dir: Directory, rank: Ranking, refs: seq<EmployeeValue>, cs: seq<EmployeeValue>, k: nat, i: nat)
    : Result<seq<Structure>, Error>
    requires Aligned(dir, rank, refs, cs, k) && i <= |refs|
  {
    assert forall r :: r in refs[i..] ==> r in refs;
    FastAll(dir, rank, refs[i..], cs[i..], k)
  }

  /** The pool version on the record read for position `i` of the references. */
  ghost function FastAt(dir: Directory, rank: Ranking, refs: seq<EmployeeValue>, cs: seq<EmployeeValue>, k: nat, i: nat)
    : Result<Structure, Error>
    requires Aligned(dir, rank, refs, cs, k) && i < |refs|
  {
    assert refs[i] in refs;
    Fast(dir, rank, Structure(cs[i], 0), rank[refs[i].employeeId.value])
  }

  lemma FastFromStep(dir: Directory, rank: Ranking, refs: seq<EmployeeValue>, cs: seq<EmployeeValue>, k: nat, i: nat)
    requires Aligned(dir, rank, refs, cs, k) && i < |refs|
    ensures FastFrom(dir, rank, refs, cs, k, i) ==
      match FastAt(dir, rank, refs, cs, k, i)
      case Err(e) => Err(e)
      case Ok(s) => Then([s], FastFrom(dir, rank, refs, cs, k, i + 1))
  {
    assert refs[i] in refs;
    assert refs[i..][1..] == refs[i + 1..] && cs[i..][1..] == cs[i + 1..];
  }

  /** When every position from `i` on succeeds, the phase from `i` on yields those structures. */
  lemma {:induction false} FastFromAllOk(dir: Directory, rank: Ranking, refs: seq<EmployeeValue>, cs: seq<EmployeeValue>,
                                         k: nat, subs: seq<Structure>, i: nat)
    requires Aligned(dir, rank, refs, cs, k) && i <= |refs| == |subs|
    requires forall j :: i <= j < |refs| ==> FastAt(dir, rank, refs, cs, k, j) == Ok(subs[j])
    ensures FastFrom(dir, rank, refs, cs, k, i) == Ok(subs[i..])
    ensures i == 0 ==> FastAll(dir, rank, refs, cs, k) == Ok(subs)
    decreases |refs| - i
  {
    if i < |refs| {
      FastFromStep(dir, rank, refs, cs, k, i);
      FastFromAllOk(dir, rank, refs, cs, k, subs, i + 1);
      assert subs[i..] == [subs[i]] + subs[i + 1..];
    }
    assert refs[0..] == refs && cs[0..] == cs && subs[0..] == subs;
  }

  /**
   * When the positions from `i0` up to `i` succeed and position `i` fails, the
   * phase from `i0` on fails with that error.
   */
  lemma {:induction false} FastFromFirstErr(dir: Directory, rank: Ranking, refs: seq<EmployeeValue>, cs: seq<EmployeeValue>,
                                            k: nat, i0: nat, i: nat, e: Error)
    requires Aligned(dir, rank, refs, cs, k) && i0 <= i < |refs|
    requires forall j :: i0 <= j < i ==> FastAt(dir, rank, refs, cs, k, j).Ok?
    requires FastAt(dir, rank, refs, cs, k, i) == Err(e)
    ensures FastFrom(dir, rank, refs, cs, k, i0) == Err(e)
    ensures i0 == 0 ==> FastAll(dir, rank, refs, cs, k) == Err(e)
    decreases i - i0
  {
    FastFromStep(dir, rank, refs, cs, k, i0);
    if i0 < i {
      FastFromFirstErr(dir, rank, refs, cs, k, i0 + 1, i, e);
    }
    assert refs[0..] == refs && cs[0..] == cs;
  }

  /**
   * Each structure's employee is a valid tree inside `trees` standing for the
   * matching value, and each structure's count is the matching count.
   */
  ghost predicate Holds(structures: seq<ReportingStructure>, subs: seq<Structure>, trees: set<Employee>)
    reads structures, trees
  {
    && |structures| == |subs|
    && forall j :: 0 <= j < |structures| ==>
         && structures[j].employee != null
         && structures[j].employee in trees
         && structures[j].employee.repr <= trees
         && structures[j].employee.Valid()
         && structures[j].employee.value == subs[j].employee
         && structures[j].numberOfReports == subs[j].numberOfReports
  }

  lemma HoldsAppend(structures: seq<ReportingStructure>, subs: seq<Structure>, trees: set<Employee>,
                    rs: ReportingStructure, s: Structure)
    requires Holds(structures, subs, trees)
    requires rs.employee != null && rs.employee.Valid()
    requires rs.employee.value == s.employee && rs.numberOfReports == s.numberOfReports
    ensures Holds(structures + [rs], subs + [s], trees + rs.employee.repr)
  {
  }

  /**
   * The finished structures give the resolved list of direct reports
   * (`map(ReportingStructure::getEmployee)`) and the counts to add
   * (`mapToInt(ReportingStructure::getNumberOfReports).sum()`).
   */
  lemma HoldsTrees(structures: seq<ReportingStructure>, subs: seq<Structure>, trees: set<Employee>)
    requires Holds(structures, subs, trees)
    ensures ValidTrees(EmployeesOfAll(structures), EmployeesOf(subs), trees)
    ensures CountsSum(structures) == SumOfCounts(subs)
  {
    if structures != [] {
      HoldsTrees(structures[1..], subs[1..], trees);
    }
  }

  /** No employee of `es` lies in the tree of another. */
  ghost predicate Separate(es: seq<Employee>)
    reads es
  {
    forall i, j :: 0 <= i < |es| && 0 <= j < |es| && i != j ==> es[i] !in es[j].repr
  }

  /** A valid tree outside `pool` joins the trees read so far, apart from all of them. */
  lemma ReadOneMore(es: seq<Employee>, vs: seq<EmployeeValue>, pool: set<Employee>, e: Employee)
    requires ValidTrees(es, vs, pool) && Separate(es)
    requires e.Valid() && e.repr !! pool
    ensures ValidTrees(es + [e], vs + [e.value], pool + e.repr) && Separate(es + [e])
  {
    assert forall j :: 0 <= j < |es| ==> es[j] in pool;
  }

  class EmployeeServiceImpl {
    /** The contents of the employee repository. */
    const directory: Directory
    /** Ranks showing that the reporting graph of the repository is acyclic. */
    ghost const rank: Ranking
    /** Every id the service has looked up, in order. */
    ghost var lookups: seq<Option<string>>

    constructor (directory: Directory, ghost rank: Ranking)
      requires WellFormed(directory, rank)
      ensures this.directory == directory && this.rank == rank && lookups == []
    {
      this.directory := directory;
      this.rank := rank;
      lookups := [];
    }

    /**
     * `read`: loads the stored record for `id` as fresh objects, or fails with
     * "Invalid employeeId" when the repository holds none.
     */
    method Read(id: Option<string>) returns (r: Result<Employee, Error>)
      modifies this`lookups
      ensures lookups == old(lookups) + [id]
      ensures r.Ok? <==> id.Some? && id.value in directory
      ensures r.Ok? ==> fresh(r.value.repr) && r.value.Valid() && r.value.value == directory[id.value]
      ensures r.Err? ==> r.error == InvalidEmployeeId(id)
    {
      lookups := lookups + [id];
      if id.Some? && id.value in directory {
        var e := Employee.FromValue(directory[id.value]);
        return Ok(e);
      }
      return Err(InvalidEmployeeId(id));
    }

    /**
     * `getReportingStructure`: reads the employee, computes its structure
     * with the pool version from a count of 0, then runs the sequential
     * version on the same employee object, whose result it drops.  The answer
     * is what the pool version computes; the second run cannot fail and
     * leaves the employee standing for the same tree.
     */
    method GetReportingStructure(employeeId: Option<string>) returns (r: Result<ReportingStructure, Error>)
      requires WellFormed(directory, rank)
      modifies this`lookups
      ensures !(employeeId.Some? && employeeId.value in directory) ==> r == Err(InvalidEmployeeId(employeeId))
      ensures employeeId.Some? && employeeId.value in directory ==>
        match Fast(directory, rank, Structure(directory[employeeId.value], 0), rank[employeeId.value])
        case Ok(s) =>
          && r.Ok? && fresh(r.value) && r.value.employee != null
          && fresh(r.value.employee.repr) && r.value.employee.Valid()
          && r.value.employee.value == s.employee && r.value.numberOfReports == s.numberOfReports
        case Err(e) => r == Err(e)
    {
      var current := Read(employeeId);
      if current.Err? {
        return Err(current.error);
      }
      var employee := current.value;
      ghost var id := employeeId.value;
      var initial := Starting(employee);
      ghost var grown, again;
      r, grown := CalculateReportStructure(initial, rank[id]);
      if r.Err? {
        return;
      }
      HierarchyProperties.FastIsSlow(directory, rank, Structure(directory[id], 0), rank[id]);
      again := RepeatSlow(employee, id);
    }

    /**
     * The sequential run `getReportingStructure` makes on the employee the
     * pool version has just resolved, with a new structure of count 0 and its
     * result dropped.  It cannot fail, and the employee goes on standing for
     * the same tree.
     */
    method RepeatSlow(employee: Employee, ghost id: string) returns (ghost grown: set<Employee>)
      requires WellFormed(directory, rank) && id in directory
      requires Slow(directory, rank, Structure(directory[id], 0), rank[id]).Ok?
      requires employee.Valid()
      requires employee.value == Slow(directory, rank, Structure(directory[id], 0), rank[id]).value.employee
      modifies this`lookups, employee
      ensures employee.Valid() && fresh(grown) && employee.repr <= old(employee.repr) + grown
      ensures employee.value == old(employee.value)
    {
      HierarchyProperties.SlowIdempotent(directory, rank, directory[id], rank[id]);
      var second := Starting(employee);
      var check;
      check, grown := CalculateReportStructureSlow(second, rank[id]);
      assert check.Ok?;
    }

    /**
     * `calculateReportStructureSlow`: on success the structure's employee has
     * become the tree Slow computes and its count the count Slow computes; on
     * failure neither the structure nor its employee has changed.  A null or
     * empty list costs no lookup.
     */
    method CalculateReportStructureSlow(rs: ReportingStructure, ghost k: nat)
      returns (r: Result<ReportingStructure, Error>, ghost grown: set<Employee>)
      requires WellFormed(directory, rank)
      requires rs.employee != null && rs.employee.Valid()
      requires RankedBelow(directory, rank, rs.employee.value, k)
      modifies this`lookups, rs, rs.employee
      ensures rs.employee.Valid() && fresh(grown) && rs.employee.repr <= old(rs.employee.repr) + grown
      ensures match Slow(directory, rank, Structure(old(rs.employee.value), old(rs.numberOfReports)), k)
        case Ok(s) => r == Ok(rs) && rs.employee.value == s.employee && rs.numberOfReports == s.numberOfReports
        case Err(e) => r == Err(e) && unchanged(rs, rs.employee)
      ensures old(rs.employee.directReports).None? ==> unchanged(rs, rs.employee) && lookups == old(lookups)
      ensures old(rs.employee.directReports) == Some([]) ==> unchanged(rs.employee) && lookups == old(lookups)
      decreases k, 3
    {
      var employee := rs.GetEmployee();
      var reports := employee.GetDirectReports();
      if reports.None? {
        return Ok(rs), {};
      }
      var directReportCount := |reports.value|;
      grown := {};
      if directReportCount > 0 {
        var added;
        added, grown := ResolveReportsSlow(employee, k);
        if added.Err? {
          return Err(added.error), grown;
        }
        directReportCount := directReportCount + added.value;
      }
      rs.SetNumberOfReports(directReportCount);
      return Ok(rs), grown;
    }

    /**
     * The non-empty branch of `calculateReportStructureSlow`: resolves the
     * references one after the other, replaces the list by the resolved
     * employees and yields the sum of their counts.
     */
    method ResolveReportsSlow(employee: Employee, ghost k: nat) returns (added: Result<int, Error>, ghost trees: set<Employee>)
      requires WellFormed(directory, rank) && employee.Valid() && employee.directReports.Some?
      requires RankedBelow(directory, rank, employee.value, k)
      modifies this`lookups, employee
      ensures employee.Valid() && fresh(trees) && employee.repr <= old(employee.repr) + trees
      ensures match SlowAll(directory, rank, old(employee.value).directReports.items, k)
        case Ok(subs) =>
          && added == Ok(SumOfCounts(subs))
          && employee.value == old(employee.value).(directReports := List(EmployeesOf(subs)))
        case Err(e) => added == Err(e) && unchanged(employee)
      decreases k, 2
    {
      var refs := employee.GetDirectReports().value;
      ghost var vrefs := employee.value.directReports.items;
      assert forall j :: 0 <= j < |refs| ==> refs[j].value == vrefs[j] && refs[j].Valid();
      var ids := IdsOf(refs);
      var structures;
      structures, trees := ResolveEachSlow(ids, vrefs, k);
      if structures.Err? {
        added := Err(structures.error);
        return;
      }
      ghost var subs := SlowAll(directory, rank, vrefs, k).value;
      ReplaceReports(employee, structures.value, subs, trees);
      HoldsTrees(structures.value, subs, trees);
      added := Ok(CountsSum(structures.value));
    }

    /**
     * The sequential stream over the ids: read each, wrap it in a fresh
     * structure with count 0 and aggregate it, in order; the first failure
     * ends the stream.  On success the structures stand for what SlowAll
     * computes, and every object of their trees is new.
     */
    method ResolveEachSlow(ids: seq<Option<string>>, ghost vrefs: seq<EmployeeValue>, ghost k: nat)
      returns (r: Result<seq<ReportingStructure>, Error>, ghost trees: set<Employee>)
      requires WellFormed(directory, rank) && RefsRankedBelow(directory, rank, vrefs, k)
      requires |ids| == |vrefs| && forall j :: 0 <= j < |ids| ==> ids[j] == vrefs[j].employeeId
      modifies this`lookups
      ensures fresh(trees)
      ensures match SlowAll(directory, rank, vrefs, k)
        case Ok(subs) => r.Ok? && Holds(r.value, subs, trees)
        case Err(e) => r == Err(e)
      decreases k, 1
    {
      var structures: seq<ReportingStructure> := [];
      ghost var subs: seq<Structure> := [];
      trees := {};
      assert vrefs[0..] == vrefs;
      ThenNothing(SlowAll(directory, rank, vrefs, k));
      for i := 0 to |ids|
        invariant fresh(trees)
        invariant Holds(structures, subs, trees)
        invariant RefsRankedBelow(directory, rank, vrefs[i..], k)
        invariant SlowAll(directory, rank, vrefs, k) == Then(subs, SlowAll(directory, rank, vrefs[i..], k))
      {
        SlowAllStep(directory, rank, vrefs[i..], k);
        assert vrefs[i..][1..] == vrefs[i + 1..];
        var one := ResolveOneSlow(ids[i], vrefs[i], k);
        if one.Err? {
          return Err(one.error), trees;
        }
        ghost var s := SlowOne(directory, rank, vrefs[i], k).value;
        ThenOneMore(subs, s, SlowAll(directory, rank, vrefs[i + 1..], k));
        HoldsAppend(structures, subs, trees, one.value, s);
        structures := structures + [one.value];
        subs := subs + [s];
        trees := trees + one.value.employee.repr;
      }
      assert vrefs[|ids|..] == [];
      return Ok(structures), trees;
    }

    /**
     * One element of the sequential stream: `read`, a fresh structure with
     * count 0, then `calculateReportStructureSlow` on it.
     */
    method ResolveOneSlow(id: Option<string>, ghost ref: EmployeeValue, ghost k: nat)
      returns (r: Result<ReportingStructure, Error>)
      requires WellFormed(directory, rank) && RefsRankedBelow(directory, rank, [ref], k)
      requires id == ref.employeeId
      modifies this`lookups
      ensures match SlowOne(directory, rank, ref, k)
        case Ok(s) =>
          && r.Ok? && r.value.employee != null && fresh(r.value.employee.repr) && r.value.employee.Valid()
          && r.value.employee.value == s.employee && r.value.numberOfReports == s.numberOfReports
        case Err(e) => r == Err(e)
      decreases k, 0
    {
      assert ref in [ref];
      var read := Read(id);
      if read.Err? {
        return Err(read.error);
      }
      var child := Starting(read.value);
      ghost var grown;
      r, grown := CalculateReportStructureSlow(child, rank[id.value]);
    }

    /**
     * `calculateReportStructure`, the pool version: the same shape as the
     * sequential one, but all direct reports are read before any is
     * aggregated.  On success the structure's employee has become the tree
     * Fast computes and its count the count Fast computes; on failure neither
     * has changed.  A null or empty list costs no lookup.
     */
    method CalculateReportStructure(rs: ReportingStructure, ghost k: nat)
      returns (r: Result<ReportingStructure, Error>, ghost grown: set<Employee>)
      requires WellFormed(directory, rank)
      requires rs.employee != null && rs.employee.Valid()
      requires RankedBelow(directory, rank, rs.employee.value, k)
      modifies this`lookups, rs, rs.employee
      ensures rs.employee.Valid() && fresh(grown) && rs.employee.repr <= old(rs.employee.repr) + grown
      ensures match Fast(directory, rank, Structure(old(rs.employee.value), old(rs.numberOfReports)), k)
        case Ok(s) => r == Ok(rs) && rs.employee.value == s.employee && rs.numberOfReports == s.numberOfReports
        case Err(e) => r == Err(e) && unchanged(rs, rs.employee)
      ensures old(rs.employee.directReports).None? ==> unchanged(rs, rs.employee) && lookups == old(lookups)
      ensures old(rs.employee.directReports) == Some([]) ==> unchanged(rs.employee) && lookups == old(lookups)
      decreases k, 4
    {
      var employee := rs.GetEmployee();
      var reports := employee.GetDirectReports();
      if reports.None? {
        return Ok(rs), {};
      }
      var directReportCount := |reports.value|;
      grown := {};
      if directReportCount > 0 {
        var added;
        added, grown := ResolveReports(employee, k);
        if added.Err? {
          return Err(added.error), grown;
        }
        directReportCount := directReportCount + added.value;
      }
      rs.SetNumberOfReports(directReportCount);
      return Ok(rs), grown;
    }

    /**
     * The non-empty branch of `calculateReportStructure`: reads every
     * reference, then aggregates every employee read, then replaces the list
     * by the resolved employees and yields the sum of their counts.
     */
    method ResolveReports(employee: Employee, ghost k: nat) returns (added: Result<int, Error>, ghost trees: set<Employee>)
      requires WellFormed(directory, rank) && employee.Valid() && employee.directReports.Some?
      requires RankedBelow(directory, rank, employee.value, k)
      modifies this`lookups, employee
      ensures employee.Valid() && fresh(trees) && employee.repr <= old(employee.repr) + trees
      ensures match FastReports(directory, rank, old(employee.value).directReports.items, k)
        case Ok(subs) =>
          && added == Ok(SumOfCounts(subs))
          && employee.value == old(employee.value).(directReports := List(EmployeesOf(subs)))
        case Err(e) => added == Err(e) && unchanged(employee)
      decreases k, 3
    {
      var refs := employee.GetDirectReports().value;
      ghost var vrefs := employee.value.directReports.items;
      assert forall j :: 0 <= j < |refs| ==> refs[j].value == vrefs[j] && refs[j].Valid();
      var ids := IdsOf(refs);
      var structures;
      structures, trees := ReadThenAggregate(ids, vrefs, k);
      if structures.Err? {
        added := Err(structures.error);
        return;
      }
      ghost var subs := FastReports(directory, rank, vrefs, k).value;
      ReplaceReports(employee, structures.value, subs, trees);
      HoldsTrees(structures.value, subs, trees);
      added := Ok(CountsSum(structures.value));
    }

    /**
     * The two tasks the pool runs one after the other: read every id, then
     * aggregate every employee read.
     */
    method ReadThenAggregate(ids: seq<Option<string>>, ghost vrefs: seq<EmployeeValue>, ghost k: nat)
      returns (r: Result<seq<ReportingStructure>, Error>, ghost trees: set<Employee>)
      requires WellFormed(directory, rank) && RefsRankedBelow(directory, rank, vrefs, k)
      requires |ids| == |vrefs| && forall j :: 0 <= j < |ids| ==> ids[j] == vrefs[j].employeeId
      modifies this`lookups
      ensures fresh(trees)
      ensures match FastReports(directory, rank, vrefs, k)
        case Ok(subs) => r.Ok? && Holds(r.value, subs, trees)
        case Err(e) => r == Err(e)
      decreases k, 2
    {
      ghost var pool: set<Employee>;
      var read;
      read, pool := ReadEach(ids, vrefs);
      if read.Err? {
        return Err(read.error), {};
      }
      ghost var cs := ReadAll(directory, vrefs).value;
      ghost var made;
      r, trees, made := AggregateEach(read.value, vrefs, cs, pool, k);
    }

    /**
     * The first phase of the pool version: `read` for every id, in list
     * order; the first missing id fails the phase.  Each employee read is a
     * fresh tree sharing no object with the others.
     */
    method ReadEach(ids: seq<Option<string>>, ghost vrefs: seq<EmployeeValue>)
      returns (r: Result<seq<Employee>, Error>, ghost pool: set<Employee>)
      requires |ids| == |vrefs| && forall j :: 0 <= j < |ids| ==> ids[j] == vrefs[j].employeeId
      modifies this`lookups
      ensures fresh(pool)
      ensures match ReadAll(directory, vrefs)
        case Ok(cs) => r.Ok? && ValidTrees(r.value, cs, pool) && Separate(r.value)
        case Err(e) => r == Err(e)
    {
      var employees: seq<Employee> := [];
      ghost var cs: seq<EmployeeValue> := [];
      pool := {};
      for i := 0 to |ids|
        invariant fresh(pool)
        invariant ValidTrees(employees, cs, pool) && Separate(employees)
        invariant |cs| == i && forall j :: 0 <= j < i ==> Present(directory, vrefs[j]) && cs[j] == directory[vrefs[j].employeeId.value]
      {
        var read := Read(ids[i]);
        if read.Err? {
          HierarchyProperties.ReadAllFailsAtFirstMissing(directory, vrefs, i);
          return Err(read.error), pool;
        }
        ReadOneMore(employees, cs, pool, read.value);
        employees := employees + [read.value];
        cs := cs + [read.value.value];
        pool := pool + read.value.repr;
      }
      assert ReadAll(directory, vrefs).value == cs;
      return Ok(employees), pool;
    }

    /**
     * The second phase of the pool version: wraps each employee read in a
     * fresh structure with count 0 and aggregates it, in list order; the
     * first failure fails the phase.
     */
    method AggregateEach(es: seq<Employee>, ghost refs: seq<EmployeeValue>, ghost cs: seq<EmployeeValue>,
                         ghost pool: set<Employee>, ghost k: nat)
      returns (r: Result<seq<ReportingStructure>, Error>, ghost trees: set<Employee>, ghost made: set<Employee>)
      requires Aligned(directory, rank, refs, cs, k)
      requires ValidTrees(es, cs, pool) && Separate(es)
      modifies this`lookups, es
      ensures fresh(made) && trees <= pool + made
      ensures match FastAll(directory, rank, refs, cs, k)
        case Ok(subs) => r.Ok? && Holds(r.value, subs, trees)
        case Err(e) => r == Err(e)
      decreases k, 1
    {
      var structures: seq<ReportingStructure> := [];
      ghost var subs: seq<Structure> := [];
      trees, made := {}, {};
      for i := 0 to |es|
        invariant fresh(made) && trees <= pool + made
        invariant Holds(structures, subs, trees)
        invariant forall j :: i <= j < |es| ==>
          es[j].Valid() && es[j].repr <= pool && es[j].value == cs[j] && es[j] !in trees
        invariant forall j, m :: i <= j < |es| && i <= m < |es| && j != m ==> es[j] !in es[m].repr
        invariant |subs| == i && forall j :: 0 <= j < i ==> FastAt(directory, rank, refs, cs, k, j) == Ok(subs[j])
      {
        ghost var grown;
        var one;
        one, grown := AggregateOne(es, i, refs, cs, k, structures, subs, trees);
        if one.Err? {
          FastFromFirstErr(directory, rank, refs, cs, k, 0, i, one.error);
          return Err(one.error), trees, made;
        }
        ghost var s := FastAt(directory, rank, refs, cs, k, i).value;
        structures := structures + [one.value];
        subs := subs + [s];
        trees := trees + es[i].repr;
        made := made + grown;
      }
      FastFromAllOk(directory, rank, refs, cs, k, subs, 0);
      return Ok(structures), trees, made;
    }

    /**
     * One element of the second phase: a fresh structure with count 0 for the
     * employee read at position `i`, then `calculateReportStructure` on it.
     * The employees still waiting are left as they were and stay apart from
     * the trees finished so far, which now include this one.
     */
    method AggregateOne(es: seq<Employee>, i: nat, ghost refs: seq<EmployeeValue>, ghost cs: seq<EmployeeValue>, ghost k: nat,
                        ghost structures: seq<ReportingStructure>, ghost subs: seq<Structure>, ghost trees: set<Employee>)
      returns (r: Result<ReportingStructure, Error>, ghost grown: set<Employee>)
      requires Aligned(directory, rank, refs, cs, k) && i < |refs|
      requires i < |es| && es[i].Valid() && es[i].value == cs[i] && es[i] !in trees
      requires forall j :: i < j < |es| ==> es[j].Valid() && es[i] !in es[j].repr && es[j] !in es[i].repr && es[j] !in trees
      requires Holds(structures, subs, trees)
      modifies this`lookups, es[i]
      ensures es[i].Valid() && fresh(grown) && es[i].repr <= old(es[i].repr) + grown
      ensures match FastAt(directory, rank, refs, cs, k, i)
        case Ok(s) =>
          && r.Ok? && r.value.employee == es[i]
          && Holds(structures + [r.value], subs + [s], trees + es[i].repr)
        case Err(err) => r == Err(err)
      ensures forall j :: i < j < |es| ==>
        es[j].Valid() && es[j].repr == old(es[j].repr) && es[j].value == old(es[j].value) && es[j] !in trees + es[i].repr
      decreases k, 0
    {
      assert refs[i] in refs;
      var child := Starting(es[i]);
      r, grown := CalculateReportStructure(child, rank[refs[i].employeeId.value]);
      if r.Ok? {
        HoldsAppend(structures, subs, trees, r.value, FastAt(directory, rank, refs, cs, k, i).value);
      }
    }

    /**
     * `getEmployee().setDirectReports(...)` with the finished structures'
     * employees: the employee now stands for its old record with the resolved
     * reports, and its tree is itself over the structures' trees.
     */
    static method ReplaceReports(employee: Employee, structures: seq<ReportingStructure>,
                                 ghost subs: seq<Structure>, ghost trees: set<Employee>)
      requires employee.Valid() && employee.value.directReports.List? && Holds(structures, subs, trees) && employee !in trees
      modifies employee
      ensures employee.Valid() && employee.repr == {employee} + trees
      ensures employee.value == old(employee.value).(directReports := List(EmployeesOf(subs)))
    {
      HoldsTrees(structures, subs, trees);
      employee.SetDirectReports(Some(EmployeesOfAll(structures)));
      employee.Adopt(EmployeesOf(subs), trees);
    }

    /**
     * `new ReportingStructureBuilder().Employee(e).NumberOfReports(0).build()`:
     * a fresh structure for `e` with count 0.
     */
    static method Starting(e: Employee) returns (rs: ReportingStructure)
      ensures fresh(rs) && rs.employee == e && rs.numberOfReports == 0
    {
      var builder := new ReportingStructureBuilder();
      builder := builder.WithEmployee(e);
      builder := builder.WithNumberOfReports(0);
      rs := builder.Build();
    }
  }
}
