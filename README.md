# Reporting structure of the employee challenge service

This project models how the employee service computes the reporting structure of an employee, and proves properties of that model.

The service looks up the employee, then resolves every direct report against the employee repository, recursively. For each visited employee it does two things in place:
- it replaces the employee's list of direct references with the resolved employees;
- it writes the number of people below it into the `ReportingStructure` it was handed.

The service has two versions of this computation:
- `calculateReportStructureSlow`, a sequential stream;
- `calculateReportStructure`, which runs on a worker pool in two phases: it reads every direct report, then aggregates every report read.

`getReportingStructure` runs the pool version, and then runs the sequential version on the same employee object.

Files:

- `Wrappers.dfy`: `Option` (a Java reference that may be null) and `Result` (a value or the exception thrown).
- `Employee.dfy` (module `Employees`): the employee record.
  - `EmployeeValue` is the record as a value.
  - `Employee` is the mutable object with its getters and setters.
  - Two ghost fields, `value` and `repr`, and the predicate `Valid()` tie each object to the record it stands for. They also keep the tree below it acyclic: no object is its own descendant. Siblings may share objects; `Service.Separate` is what keeps the trees read for one list of direct reports apart: no one of them lies inside another.
- `ReportingStructure.dfy` (module `Reporting`): the structure, whose `employee` field is final and whose count is mutable, and its builder.
- `Hierarchy.dfy`: the computation on values.
  - The repository is a `Directory` map from id to record.
  - `Slow` follows the sequential stream. `Fast` follows the pool version: `ReadAll`, then `FastAll`.
  - A ghost `Ranking` that strictly decreases from a manager to each report stands for an acyclic org chart. It is also the termination measure.
- `HierarchyProperties.dfy`: what the value-level computation guarantees:
  - counts;
  - order;
  - failures;
  - agreement of the two versions;
  - idempotence.
- `EmployeeService.dfy` (module `Service`): the class `EmployeeServiceImpl` with `read`, `getReportingStructure` and both computations, as imperative methods over the objects. Each method is proved against the value-level functions: the new state of the structure and of its employee is what `Slow` or `Fast` computes from the old state.

## Model

| member | source | states |
|---|---|---|
| Hierarchy.Lookup | src/main/java/com/mindex/challenge/service/impl/EmployeeServiceImpl.java:49-53 | `read` on values; no contract of its own: `Service.EmployeeServiceImpl.Read` and `Hierarchy.ReadAll` state that it succeeds exactly for a set, stored id and then yields that id's record |
| Hierarchy.Slow | src/main/java/com/mindex/challenge/service/impl/EmployeeServiceImpl.java:204-236 | the sequential computation on values; no contract of its own: `SlowKeepsRecord`, `SlowResolvesInOrder`, `SlowCountsDescendants`, `SlowCountBounds`, `SlowFailsOnlyOnMissing` and `SlowResolvesAllDescendants` state what it computes |
| Hierarchy.SlowAll | src/main/java/com/mindex/challenge/service/impl/EmployeeServiceImpl.java:215-223 | the sequential stream over the references; no contract of its own: `SlowAllResolvesEach`, `SlowAllCountsDescendants`, `SlowAllFailsOnlyOnMissing`, `SlowAllReadsOnlyIds` and `SlowAllResolvesAllDescendants` state what it computes |
| Hierarchy.Fast | src/main/java/com/mindex/challenge/service/impl/EmployeeServiceImpl.java:147-195 | the pool version on values; no contract of its own: `FastIsSlow` makes it the sequential result, and `FastFailsOnlyOnMissing` and `MissingReportFails` state its failures |
| Hierarchy.FastAll | src/main/java/com/mindex/challenge/service/impl/EmployeeServiceImpl.java:169-182 | the second phase of the pool version; no contract of its own: `FastAllIsSlowAll`, `FastAllFailsOnlyOnMissing`, `Service.FastFromAllOk` and `Service.FastFromFirstErr` state what it computes |
| Hierarchy.Combine | src/main/java/com/mindex/challenge/service/impl/EmployeeServiceImpl.java:225-233 | replacing the list and setting the count; no contract of its own: `SlowResolvesInOrder`, `SlowCountsDescendants` and `SlowCountBounds` state the list and count it leaves |
| Service.IdsOf | src/main/java/com/mindex/challenge/service/impl/EmployeeServiceImpl.java:216 | `map(Employee::getEmployeeId)` over the shallow references; no contract of its own: `ResolveEachSlow` and `ReadEach` state their results per id through `SlowAll` and `ReadAll` |
| Service.EmployeesOfAll | src/main/java/com/mindex/challenge/service/impl/EmployeeServiceImpl.java:226-228 | `map(ReportingStructure::getEmployee)`; no contract of its own: `HoldsTrees` and `ReplaceReports` state that these employees stand, in order, for the resolved records |
| Service.CountsSum | src/main/java/com/mindex/challenge/service/impl/EmployeeServiceImpl.java:229-231 | `mapToInt(...).sum()` over the structures; no contract of its own: `HoldsTrees` states it equals `SumOfCounts` of the resolved values, which `SlowAllCountsDescendants` relates to the descendants |
| Employees.Employee.constructor | src/main/java/com/mindex/challenge/data/Employee.java:12-29 | a new employee has every field unset and a null list of direct reports, and is a valid one-object tree |
| Employees.Employee.FromValue | src/main/java/com/mindex/challenge/service/impl/EmployeeServiceImpl.java:49 | loading a stored record yields fresh objects forming a valid tree that stands for exactly that record |
| Employees.Employee.SetEmployeeId | src/main/java/com/mindex/challenge/data/Employee.java:31-37 | the getter then returns the new id; every other field is unchanged; validity is kept |
| Employees.Employee.SetFirstName | src/main/java/com/mindex/challenge/data/Employee.java:39-45 | the getter then returns the new first name; every other field is unchanged; validity is kept |
| Employees.Employee.SetLastName | src/main/java/com/mindex/challenge/data/Employee.java:47-53 | the getter then returns the new last name; every other field is unchanged; validity is kept |
| Employees.Employee.SetPosition | src/main/java/com/mindex/challenge/data/Employee.java:55-61 | the getter then returns the new position; every other field is unchanged; validity is kept |
| Employees.Employee.SetDepartment | src/main/java/com/mindex/challenge/data/Employee.java:63-69 | the getter then returns the new department; every other field is unchanged; validity is kept |
| Employees.Employee.SetDirectReports | src/main/java/com/mindex/challenge/data/Employee.java:71-77 | `getDirectReports` then returns exactly the list passed; id, names, position and department are unchanged |
| Reporting.ReportingStructure.FromBuilder | src/main/java/com/mindex/challenge/data/ReportingStructure.java:17-20 | the structure copies the builder's employee and count |
| Reporting.ReportingStructure.SetNumberOfReports | src/main/java/com/mindex/challenge/data/ReportingStructure.java:4-15 | the getter then returns the new count; the employee is a constant and cannot change |
| Reporting.ReportingStructureBuilder.constructor | src/main/java/com/mindex/challenge/data/ReportingStructure.java:22-26 | a new builder holds no employee and a count of 0, so a count never set stays 0 |
| Reporting.ReportingStructureBuilder.WithEmployee | src/main/java/com/mindex/challenge/data/ReportingStructure.java:27-30 | sets the employee and returns the same builder; the count is unchanged |
| Reporting.ReportingStructureBuilder.WithNumberOfReports | src/main/java/com/mindex/challenge/data/ReportingStructure.java:31-34 | sets the count and returns the same builder; the employee is unchanged |
| Reporting.ReportingStructureBuilder.Build | src/main/java/com/mindex/challenge/data/ReportingStructure.java:35-37 | a fresh structure whose employee and count equal the builder's |
| Hierarchy.ReadAll | src/main/java/com/mindex/challenge/service/impl/EmployeeServiceImpl.java:159-164 | the first phase succeeds iff every id is in the directory, and then yields, in order, the record of each listed id; on failure it names a missing id |
| HierarchyProperties.SlowAllResolvesEach | src/main/java/com/mindex/challenge/service/impl/EmployeeServiceImpl.java:215-223 | the sequential stream succeeds iff every id is present and every report aggregates; the i-th result is the aggregate of the i-th listed id's record |
| HierarchyProperties.SlowKeepsRecord | src/main/java/com/mindex/challenge/service/impl/EmployeeServiceImpl.java:225-233 | aggregation changes only the list of direct reports and the count: id, names, position and department are kept, a null list stays null and a list keeps its length |
| HierarchyProperties.SlowResolvesInOrder | src/main/java/com/mindex/challenge/service/impl/EmployeeServiceImpl.java:215-228 | after a non-empty list is resolved, it has the same length and order as the listed ids; element i is the aggregated record of the i-th id and carries that id |
| HierarchyProperties.SlowCountsDescendants | src/main/java/com/mindex/challenge/service/impl/EmployeeServiceImpl.java:213-233 | from a count of 0, the count is the number of employees strictly below the root of the resolved tree |
| HierarchyProperties.SlowAllCountsDescendants | src/main/java/com/mindex/challenge/service/impl/EmployeeServiceImpl.java:229-231 | the direct reports plus the sum of their counts equal the number of their descendants |
| HierarchyProperties.DescendantsCoverList | src/main/java/com/mindex/challenge/service/impl/EmployeeServiceImpl.java:213 | a list of employees has at least as many descendants as members |
| HierarchyProperties.SlowCountBounds | src/main/java/com/mindex/challenge/service/impl/EmployeeServiceImpl.java:209-233 | from a count of 0, the count is at least 0 and at least the number of direct reports; it is 0 exactly when the list is null or empty |
| HierarchyProperties.SlowFailsOnlyOnMissing | src/main/java/com/mindex/challenge/service/impl/EmployeeServiceImpl.java:49-53 | a failure of the sequential version always names an id that the directory does not hold |
| HierarchyProperties.SlowAllFailsOnlyOnMissing | src/main/java/com/mindex/challenge/service/impl/EmployeeServiceImpl.java:215-223 | a failure of the sequential stream always names an id that the directory does not hold |
| HierarchyProperties.ReadAllFailsAtFirstMissing | src/main/java/com/mindex/challenge/service/impl/EmployeeServiceImpl.java:159-164 | the first phase of the pool version, taken in list order, fails with the first id the directory does not hold |
| HierarchyProperties.FastIsSlow | src/main/java/com/mindex/challenge/service/impl/EmployeeServiceImpl.java:147-236 | the pool version succeeds iff the sequential one does, and then gives the same resolved tree and the same count |
| HierarchyProperties.FastAllIsSlowAll | src/main/java/com/mindex/challenge/service/impl/EmployeeServiceImpl.java:159-182 | the pool version's two phases succeed iff the sequential stream does, with the same structures |
| HierarchyProperties.FastFailsOnlyOnMissing | src/main/java/com/mindex/challenge/service/impl/EmployeeServiceImpl.java:147-195 | a failure of the pool version always names an id that the directory does not hold |
| HierarchyProperties.FastAllFailsOnlyOnMissing | src/main/java/com/mindex/challenge/service/impl/EmployeeServiceImpl.java:169-182 | a failure of the pool version's second phase always names an id that the directory does not hold |
| HierarchyProperties.MissingReportFails | src/main/java/com/mindex/challenge/service/impl/EmployeeServiceImpl.java:162 | a direct report missing from the directory makes both versions fail |
| HierarchyProperties.SlowAllReadsOnlyIds | src/main/java/com/mindex/challenge/service/impl/EmployeeServiceImpl.java:216-217 | the stream looks only at the references' ids: two lists with the same ids give the same result |
| HierarchyProperties.SlowIdempotent | src/main/java/com/mindex/challenge/service/impl/EmployeeServiceImpl.java:119-122 | aggregating an already aggregated employee again from a count of 0 succeeds with the same tree and the same count |
| HierarchyProperties.SlowResolvesAllDescendants | src/main/java/com/mindex/challenge/service/impl/EmployeeServiceImpl.java:215-228 | every employee below the root of a resolved tree is a directory record whose own list has been resolved |
| HierarchyProperties.SlowAllResolvesAllDescendants | src/main/java/com/mindex/challenge/service/impl/EmployeeServiceImpl.java:215-228 | every employee in or below a resolved list is a directory record whose own list has been resolved |
| Service.HoldsTrees | src/main/java/com/mindex/challenge/service/impl/EmployeeServiceImpl.java:184-190 | the finished structures' employees are valid trees standing for the resolved records, and the sum of their counts is the value-level sum |
| Service.FastFromAllOk | src/main/java/com/mindex/challenge/service/impl/EmployeeServiceImpl.java:169-182 | when every report read aggregates, the second phase yields exactly those structures in list order |
| Service.FastFromFirstErr | src/main/java/com/mindex/challenge/service/impl/EmployeeServiceImpl.java:169-182 | when the reports before position i aggregate and report i fails, the second phase fails with that error |
| Service.EmployeeServiceImpl.constructor | src/main/java/com/mindex/challenge/service/impl/EmployeeServiceImpl.java:30-33 | the service holds the given repository contents and has made no lookup |
| Service.EmployeeServiceImpl.Read | src/main/java/com/mindex/challenge/service/impl/EmployeeServiceImpl.java:46-56 | succeeds iff the id is set and stored; then returns fresh objects standing for the stored record; otherwise fails with "Invalid employeeId" for that id; logs the lookup |
| Service.EmployeeServiceImpl.GetReportingStructure | src/main/java/com/mindex/challenge/service/impl/EmployeeServiceImpl.java:98-134 | an unknown id fails with "Invalid employeeId"; otherwise the answer is the pool version's structure from a count of 0 (or its failure), and the extra sequential run neither fails nor changes the tree |
| Service.EmployeeServiceImpl.RepeatSlow | src/main/java/com/mindex/challenge/service/impl/EmployeeServiceImpl.java:117-123 | the sequential run on the employee the pool version has just resolved leaves it valid and standing for the same record |
| Service.EmployeeServiceImpl.CalculateReportStructureSlow | src/main/java/com/mindex/challenge/service/impl/EmployeeServiceImpl.java:204-236 | on success, returns the same structure, whose employee and count are what `Slow` computes; on failure, nothing changed; a null list leaves everything unchanged and an empty list leaves the employee unchanged, with no lookup in either case |
| Service.EmployeeServiceImpl.ResolveReportsSlow | src/main/java/com/mindex/challenge/service/impl/EmployeeServiceImpl.java:213-231 | the employee's list is replaced by the resolved employees, and the sum of their counts is returned; on failure the employee is unchanged |
| Service.EmployeeServiceImpl.ResolveEachSlow | src/main/java/com/mindex/challenge/service/impl/EmployeeServiceImpl.java:215-223 | the structures stand, in order, for what `SlowAll` computes over the ids, with fresh trees; the first failure is returned |
| Service.EmployeeServiceImpl.ResolveOneSlow | src/main/java/com/mindex/challenge/service/impl/EmployeeServiceImpl.java:216-222 | one element of the stream: read, a structure with count 0, then aggregated; the result stands for the record's aggregate or its failure |
| Service.EmployeeServiceImpl.CalculateReportStructure | src/main/java/com/mindex/challenge/service/impl/EmployeeServiceImpl.java:147-195 | on success, returns the same structure, whose employee and count are what `Fast` computes; on failure, nothing changed; a null list leaves everything unchanged and an empty list leaves the employee unchanged, with no lookup in either case |
| Service.EmployeeServiceImpl.ResolveReports | src/main/java/com/mindex/challenge/service/impl/EmployeeServiceImpl.java:156-190 | the employee's list is replaced by the resolved employees from both phases, and the sum of their counts is returned; on failure the employee is unchanged |
| Service.EmployeeServiceImpl.ReadThenAggregate | src/main/java/com/mindex/challenge/service/impl/EmployeeServiceImpl.java:159-182 | the two pool tasks in sequence yield the structures `ReadAll` then `FastAll` compute, or the first failure |
| Service.EmployeeServiceImpl.ReadEach | src/main/java/com/mindex/challenge/service/impl/EmployeeServiceImpl.java:159-164 | reads every id in order: on success, fresh valid trees, apart from each other, standing for the records `ReadAll` gives; otherwise `ReadAll`'s failure |
| Service.EmployeeServiceImpl.AggregateEach | src/main/java/com/mindex/challenge/service/impl/EmployeeServiceImpl.java:169-182 | aggregates each employee read, in order: on success, structures standing for what `FastAll` computes; otherwise `FastAll`'s failure |
| Service.EmployeeServiceImpl.AggregateOne | src/main/java/com/mindex/challenge/service/impl/EmployeeServiceImpl.java:170-180 | one element of the second phase stands for `Fast` on that record from count 0, and leaves the employees still waiting untouched |
| Service.EmployeeServiceImpl.ReplaceReports | src/main/java/com/mindex/challenge/service/impl/EmployeeServiceImpl.java:184-187 | after `setDirectReports` with the structures' employees, the employee stands for its old record with the resolved list and is valid |
| Service.EmployeeServiceImpl.Starting | src/main/java/com/mindex/challenge/service/impl/EmployeeServiceImpl.java:170-173 | the builder chain yields a fresh structure for the employee with count 0 |

## Left out

- The repository is a map from id to stored record, fixed for the life of the service. `findByEmployeeId` with a null id is modelled as a failed lookup, because stored records always carry an id. The creation of new objects per lookup is `Employee.FromValue`.
- `create`, `update` and the compensation operations are thin wrappers over the Mongo repositories, and `create` draws a random UUID. They are not part of this model. Neither are the HTTP controllers.
- Service.EmployeeServiceImpl.CalculateReportStructure: models the `ForkJoinPool` and `parallelStream` runs as running one element after another, in list order. The result on success does not depend on the order. When several ids are missing, the Java version may report whichever failure its workers hit first; the model reports the first in list order. The `maxWorkerThreads` budget, concurrency and deadlocks are not modelled.
- Service.EmployeeServiceImpl.CalculateReportStructure: the pool version wraps a failure from a worker in `ExecutionException` and `RuntimeException`. The model keeps only the innermost "Invalid employeeId" error. `InterruptedException` is not modelled.
- Service.EmployeeServiceImpl.CalculateReportStructureSlow: does not model the 32-bit wrap-around of the count, because the count is an unbounded integer.
- Service.EmployeeServiceImpl.GetReportingStructure: leaves out the timing (`System.nanoTime`) and the logging. The `null` check after `read` is dead code, because `read` already throws, and is not modelled.
- Service.EmployeeServiceImpl.Read: leaves out the debug logging. The ghost list `lookups` records each lookup, so that a null or empty list can be shown to cost none.
- Cyclic org charts are excluded by the `WellFormed` precondition: a ghost rank must strictly decrease from each manager to each listed report. The rank covers the whole repository, so a cycle that the root never reaches also rules the repository out, although the Java code would not loop on it. The Java code has no guard and recurses forever on a cycle that the root reaches. A diamond is allowed, but each visit reads its own fresh copy of the records.
- The elements of a `directReports` list are never null in the model: `Reports.List` and `Employee.directReports` hold employees, not optional ones. In Java a stored list may hold a null element, and `map(Employee::getEmployeeId)` then throws `NullPointerException`, wrapped in `ExecutionException` in the pool version, instead of "Invalid employeeId". That exception path is not modelled.
- The computation reads only the id of each shallow reference; its other fields do not affect the result (`HierarchyProperties.SlowAllReadsOnlyIds`).

## Notes on the code

- When the list of direct reports is null, the code returns the structure unchanged, keeping whatever count it was given rather than setting it to 0. The model follows the code. The caller relies on starting from a count of 0, as its comment at src/main/java/com/mindex/challenge/service/impl/EmployeeServiceImpl.java:110 says; the count then stays 0 (`HierarchyProperties.SlowCountBounds`).
- When a lookup fails deep in the tree, the employees read for the siblings that were already aggregated have been mutated. They are fresh objects that are then dropped, so no partial result reaches the caller. The model proves that the structure and the employee given to a failing call are unchanged.
