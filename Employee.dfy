/**
 * The employee record of the challenge service.
 *
 * `EmployeeValue` is the record as a value: what the directory stores, and the
 * shape of a resolved reporting tree.  `Employee` is the mutable Java object,
 * whose setters overwrite one field at a time.  Each object carries two ghost
 * fields, `value` (the record it currently stands for) and `repr` (the objects
 * of its tree), which `Valid()` ties to the real fields.
 */
module Employees {
  import opened Wrappers

  /**
   * The `directReports` of a record: a null reference or a list (possibly
   * empty) of employees, shallow references holding only an id before
   * aggregation and resolved records after it.
   */
  datatype Reports = Null | List(items: seq<EmployeeValue>)

  /** An employee record.  Every string may be unset (Java null). */
  datatype EmployeeValue = EmployeeValue(
    employeeId: Option<string>,
    firstName: Option<string>,
    lastName: Option<string>,
    position: Option<string>,
    department: Option<string>,
    directReports: Reports)

  /** The record a fresh `new Employee()` stands for: every field unset. */
  const Unset := EmployeeValue(None, None, None, None, None, Null)

  /** Each of `es` is a valid tree inside `pool` standing for the matching record of `vs`. */
  ghost predicate ValidTrees(es: seq<Employee>, vs: seq<EmployeeValue>, pool: set<Employee>)
    reads es, pool
  {
    && |es| == |vs|
    && forall i :: 0 <= i < |es| ==>
         es[i] in pool && es[i].repr <= pool && es[i].Valid() && es[i].value == vs[i]
  }

  class Employee {
    var employeeId: Option<string>
    var firstName: Option<string>
    var lastName: Option<string>
    var position: Option<string>
    var department: Option<string>
    var directReports: Option<seq<Employee>>

    /** The record this object stands for. */
    ghost var value: EmployeeValue
    /** The objects of the tree rooted here: this one and, recursively, its direct reports. */
    ghost var repr: set<Employee>

    /**
     * The object invariant: the fields agree with `value`, and every direct
     * report is a valid tree inside `repr` that does not contain this object
     * (so the reporting graph below a valid employee is acyclic).
     */
    ghost predicate Valid()
      reads this, repr
      decreases repr
    {
      && this in repr
      && value.employeeId == employeeId
      && value.firstName == firstName
      && value.lastName == lastName
      && value.position == position
      && value.department == department
      && match directReports
         case None => value.directReports.Null?
         case Some(reports) =>
           && value.directReports.List?
           && |reports| == |value.directReports.items|
           && forall i :: 0 <= i < |reports| ==>
                && reports[i] in repr
                && reports[i].repr <= repr
                && this !in reports[i].repr
                && reports[i].Valid()
                && reports[i].value == value.directReports.items[i]
    }

    /** `new Employee()`: every field unset, `directReports` null. */
    constructor ()
      ensures Valid() && repr == {this}
      ensures value == Unset
      ensures GetEmployeeId().None? && GetFirstName().None? && GetLastName().None?
      ensures GetPosition().None? && GetDepartment().None? && GetDirectReports().None?
    {
      employeeId, firstName, lastName := None, None, None;
      position, department, directReports := None, None, None;
      value := Unset;
      repr := {this};
    }

    /**
     * Builds the object graph of a stored record, as the document mapper does
     * when it loads an employee: fresh objects, one per employee in `v`.
     */
    static method FromValue(v: EmployeeValue) returns (e: Employee)
      ensures fresh(e.repr) && e.Valid() && e.value == v
      decreases v
    {
      var reports: Option<seq<Employee>> := None;
      ghost var parts: set<Employee> := {};
      if v.directReports.List? {
        var vs := v.directReports.items;
        var built: seq<Employee> := [];
        var i := 0;
        while i < |vs|
          invariant 0 <= i <= |vs| && |built| == i
          invariant fresh(parts)
          invariant forall j :: 0 <= j < i ==>
            built[j] in parts && built[j].repr <= parts && built[j].Valid() && built[j].value == vs[j]
        {
          var child := FromValue(vs[i]);
          built := built + [child];
          parts := parts + child.repr;
          i := i + 1;
        }
        reports := Some(built);
      }
      e := new Employee();
      e.employeeId, e.firstName, e.lastName := v.employeeId, v.firstName, v.lastName;
      e.position, e.department, e.directReports := v.position, v.department, reports;
      e.value := v;
      e.repr := {e} + parts;
    }

    function GetEmployeeId(): Option<string> reads this { employeeId }

    method SetEmployeeId(id: Option<string>)
      modifies this
      ensures GetEmployeeId() == id
      ensures firstName == old(firstName) && lastName == old(lastName) && position == old(position)
      ensures department == old(department) && directReports == old(directReports)
      ensures repr == old(repr) && value == old(value).(employeeId := id)
      ensures old(Valid()) ==> Valid()
    {
      employeeId := id;
      value := value.(employeeId := id);
    }

    function GetFirstName(): Option<string> reads this { firstName }

    method SetFirstName(name: Option<string>)
      modifies this
      ensures GetFirstName() == name
      ensures employeeId == old(employeeId) && lastName == old(lastName) && position == old(position)
      ensures department == old(department) && directReports == old(directReports)
      ensures repr == old(repr) && value == old(value).(firstName := name)
      ensures old(Valid()) ==> Valid()
    {
      firstName := name;
      value := value.(firstName := name);
    }

    function GetLastName(): Option<string> reads this { lastName }

    method SetLastName(name: Option<string>)
      modifies this
      ensures GetLastName() == name
      ensures employeeId == old(employeeId) && firstName == old(firstName) && position == old(position)
      ensures department == old(department) && directReports == old(directReports)
      ensures repr == old(repr) && value == old(value).(lastName := name)
      ensures old(Valid()) ==> Valid()
    {
      lastName := name;
      value := value.(lastName := name);
    }

    function GetPosition(): Option<string> reads this { position }

    method SetPosition(p: Option<string>)
      modifies this
      ensures GetPosition() == p
      ensures employeeId == old(employeeId) && firstName == old(firstName) && lastName == old(lastName)
      ensures department == old(department) && directReports == old(directReports)
      ensures repr == old(repr) && value == old(value).(position := p)
      ensures old(Valid()) ==> Valid()
    {
      position := p;
      value := value.(position := p);
    }

    function GetDepartment(): Option<string> reads this { department }

    method SetDepartment(d: Option<string>)
      modifies this
      ensures GetDepartment() == d
      ensures employeeId == old(employeeId) && firstName == old(firstName) && lastName == old(lastName)
      ensures position == old(position) && directReports == old(directReports)
      ensures repr == old(repr) && value == old(value).(department := d)
      ensures old(Valid()) ==> Valid()
    {
      department := d;
      value := value.(department := d);
    }

    function GetDirectReports(): Option<seq<Employee>> reads this { directReports }

    /**
     * Replaces the list of direct reports.  The ghost `value` and `repr` are
     * left to the caller, which knows what the new list stands for.
     */
    method SetDirectReports(reports: Option<seq<Employee>>)
      modifies this
      ensures GetDirectReports() == reports
      ensures employeeId == old(employeeId) && firstName == old(firstName) && lastName == old(lastName)
      ensures position == old(position) && department == old(department)
      ensures repr == old(repr) && value == old(value)
    {
      directReports := reports;
    }

    /**
     * Records what a freshly set list of direct reports stands for: once the
     * list holds valid trees inside `trees` standing for `vs`, this object
     * stands for its old record with `vs` as its reports and is valid again.
     */
    ghost method Adopt(vs: seq<EmployeeValue>, trees: set<Employee>)
      requires directReports.Some? && ValidTrees(directReports.value, vs, trees) && this !in trees
      requires value.employeeId == employeeId && value.firstName == firstName && value.lastName == lastName
      requires value.position == position && value.department == department
      modifies this`value, this`repr
      ensures value == old(value).(directReports := List(vs)) && repr == {this} + trees
      ensures Valid()
    {
      value := value.(directReports := List(vs));
      repr := {this} + trees;
      assert forall i :: 0 <= i < |vs| ==> this !in directReports.value[i].repr;
    }
  }
}
