/**
 * The reporting structure of one employee: the employee (fixed at
 * construction, Java `final`) and a mutable count of the people below it,
 * made through a builder.
 */
module Reporting {
  import opened Employees

  class ReportingStructure {
    const employee: Employee?
    var numberOfReports: int

    /** The private constructor: copies the builder's two fields. */
    constructor FromBuilder(builder: ReportingStructureBuilder)
      ensures employee == builder.employee
      ensures numberOfReports == builder.numberOfReports
    {
      employee := builder.employee;
      numberOfReports := builder.numberOfReports;
    }

    function GetEmployee(): Employee? { employee }

    function GetNumberOfReports(): int reads this { numberOfReports }

    /** Overwrites the count; `employee` is a constant and cannot change. */
    method SetNumberOfReports(n: int)
      modifies this
      ensures GetNumberOfReports() == n
    {
      numberOfReports := n;
    }
  }

  class ReportingStructureBuilder {
    var employee: Employee?
    var numberOfReports: int

    /** A new builder holds Java's defaults: no employee and a count of 0. */
    constructor ()
      ensures employee == null && numberOfReports == 0
    {
      employee := null;
      numberOfReports := 0;
    }

    /** Sets the employee and returns this same builder, for chaining. */
    method WithEmployee(e: Employee?) returns (b: ReportingStructureBuilder)
      modifies this
      ensures b == this
      ensures employee == e && numberOfReports == old(numberOfReports)
    {
      employee := e;
      b := this;
    }

    /** Sets the count and returns this same builder, for chaining. */
    method WithNumberOfReports(n: int) returns (b: ReportingStructureBuilder)
      modifies this
      ensures b == this
      ensures numberOfReports == n && employee == old(employee)
    {
      numberOfReports := n;
      b := this;
    }

    /** A fresh structure holding the builder's employee and count. */
    method Build() returns (rs: ReportingStructure)
      ensures fresh(rs)
      ensures rs.GetEmployee() == employee && rs.GetNumberOfReports() == numberOfReports
    {
      rs := new ReportingStructure.FromBuilder(this);
    }
  }
}
