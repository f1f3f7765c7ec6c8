/** Technical employees and their role extension: a base record whose
    `employee_type` selects a Technician or a SysAdmin extension, switched in
    place, with the salary bonus delegated to the extension. */
module Employees {
  import opened Common
  import RecordStore
  import opened Schema

  /** The role a tag selects: any tag other than Technician selects SysAdmin. */
  function RoleOf(tag: EmployeeType): (r: EmployeeType)
    ensures r != NoRole
    ensures tag != NoRole ==> r == tag
    ensures tag == NoRole ==> r == SysAdminType
  {
    match tag
    case TechnicianType => TechnicianType
    case _ => SysAdminType
  }

  /** The table of the extension an employee with tag `t` reads: the
      technician one for a Technician, the sysadmin one for any other tag. */
  function RoleTable(t: EmployeeType): Table {
    if t == TechnicianType then TechnicianTable else SysAdminTable
  }

  /** The other role's table. */
  function OtherRoleTable(t: EmployeeType): Table {
    if t == TechnicianType then SysAdminTable else TechnicianTable
  }

  /** The technician extension of a technical employee. */
  class Technician {
    const base: TechnicalEmployee

    constructor (base: TechnicalEmployee)
      ensures this.base == base
    {
      this.base := base;
    }

    /** A technician earns no bonus. */
    function Bonus(): Money {
      0.0
    }
  }

  /** The sysadmin extension of a technical employee. */
  class SysAdmin {
    const base: TechnicalEmployee

    constructor (base: TechnicalEmployee)
      ensures this.base == base
    {
      this.base := base;
    }

    /** A sysadmin earns a tenth of the salary of the employee it extends. */
    function Bonus(): Money {
      base.salary * 0.1
    }
  }

  /** The extension an employee currently delegates to. */
  datatype Role = TechnicianRole(technician: Technician) | SysAdminRole(sysadmin: SysAdmin)

  class TechnicalEmployee {
    const id: Id
    const email: string
    const phoneNumber: string
    const salary: Money
    const seniority: nat
    var employeeType: EmployeeType
    var technician: Technician?
    var sysadmin: SysAdmin?

    constructor (id: Id, email: string, phoneNumber: string, salary: Money, seniority: nat)
      ensures this.id == id && this.email == email && this.phoneNumber == phoneNumber
      ensures this.salary == salary && this.seniority == seniority
      ensures employeeType == NoRole && technician == null && sysadmin == null
    {
      this.id := id;
      this.email := email;
      this.phoneNumber := phoneNumber;
      this.salary := salary;
      this.seniority := seniority;
      employeeType := NoRole;
      technician := null;
      sysadmin := null;
    }

    /** The extension the tag selects is attached. */
    predicate InstanceSet()
      reads this
    {
      if employeeType == TechnicianType then technician != null else sysadmin != null
    }

    /** The employee has a role, and the extension of that role is attached
        and extends this employee. */
    predicate Valid()
      reads this
    {
      && employeeType != NoRole
      && InstanceSet()
      && (employeeType == TechnicianType ==> technician.base == this)
      && (employeeType == SysAdminType ==> sysadmin.base == this)
    }

    /** The row of the employee base. */
    function BaseRow(): Row
      reads this
    {
      EmployeeRow(employeeType, email, phoneNumber, salary, seniority)
    }

    /** The store holds no extension row of the role the employee does not
        have. */
    predicate NoStaleRole(s: Store)
      reads this
    {
      employeeType != NoRole ==> Key(OtherRoleTable(employeeType), id) !in s.records
    }

    /** `TechnicalEmployee.create`: an employee whose role the tag selects,
        with a new extension of that role. */
    static method Create(id: Id, tag: EmployeeType, email: string, phoneNumber: string,
                         salary: Money, seniority: nat)
      returns (e: TechnicalEmployee)
      ensures fresh(e) && e.Valid()
      ensures e.employeeType == RoleOf(tag)
      ensures e.id == id && e.email == email && e.phoneNumber == phoneNumber
      ensures e.salary == salary && e.seniority == seniority
    {
      e := new TechnicalEmployee(id, email, phoneNumber, salary, seniority);
      // With no role yet, the setter deletes nothing, so no record is read.
      var s, r := e.SetInstance(tag, Store(map[], map[], map[]));
    }

    /** The `instance` getter: the technician extension of a Technician, the
        sysadmin extension otherwise. */
    function Instance(): (r: Role)
      requires InstanceSet()
      reads this
      ensures r.TechnicianRole? <==> employeeType == TechnicianType
      ensures Valid() ==> match r
                          case TechnicianRole(t) => t.base == this
                          case SysAdminRole(a) => a.base == this
    {
      if employeeType == TechnicianType then TechnicianRole(technician) else SysAdminRole(sysadmin)
    }

    /** The `bonus` property, delegated to the current extension. */
    function Bonus(): (r: Money)
      requires InstanceSet()
      reads this
      ensures Valid() ==> r == if employeeType == TechnicianType then 0.0 else salary / 10.0
      ensures Valid() && salary >= 0.0 ==> 0.0 <= r <= salary / 10.0
    {
      match Instance()
      case TechnicianRole(t) => t.Bonus()
      case SysAdminRole(a) => a.Bonus()
    }

    /** The `instance` setter: switches the employee to the role `tag`
        selects. Leaving the other role first deletes that role's stored
        extension, and fails, changing nothing, when it has no row; then a new
        extension is attached. An employee without a role just gets a new
        extension; one that already has the role keeps its extension. */
    method SetInstance(tag: EmployeeType, s: Store) returns (s': Store, r: Outcome)
      modifies this`employeeType, this`technician, this`sysadmin
      ensures s'.services == s.services && s'.addenda == s.addenda
      ensures var leaving := old(employeeType) != NoRole && old(employeeType) != RoleOf(tag);
              r.Fail? <==> leaving && Key(RoleTable(old(employeeType)), id) !in s.records
      ensures r.Fail? ==> r.error == NotSaved && s' == s
      ensures r.Fail? ==> employeeType == old(employeeType) && technician == old(technician) && sysadmin == old(sysadmin)
      ensures r.Pass? ==> employeeType == RoleOf(tag)
      ensures r.Pass? ==> s'.records == if old(employeeType) == NoRole || old(employeeType) == RoleOf(tag) then s.records
                                        else s.records - {Key(RoleTable(old(employeeType)), id)}
      ensures r.Pass? && old(employeeType) == RoleOf(tag) ==>
                technician == old(technician) && sysadmin == old(sysadmin)
      ensures r.Pass? && old(employeeType) != RoleOf(tag) && RoleOf(tag) == TechnicianType ==>
                fresh(technician) && sysadmin == old(sysadmin)
      ensures r.Pass? && old(employeeType) != RoleOf(tag) && RoleOf(tag) == SysAdminType ==>
                fresh(sysadmin) && technician == old(technician)
      ensures r.Pass? && old(employeeType) != RoleOf(tag) ==> Valid()
      ensures old(Valid()) ==> Valid()
      ensures old(employeeType) != NoRole && old(NoStaleRole(s)) ==> NoStaleRole(s')
    {
      var target := RoleOf(tag);
      s' := s;
      if employeeType != NoRole && employeeType != target {
        var ran := RecordStore.Then(RecordStore.Ran(s.records, Pass), RecordStore.Remove(Key(RoleTable(employeeType), id)));
        if ran.outcome.Fail? {
          return s, ran.outcome;
        }
        s' := Store(ran.records, s.services, s.addenda);
      }
      if employeeType != target {
        if target == TechnicianType {
          technician := new Technician(this);
        } else {
          sysadmin := new SysAdmin(this);
        }
      }
      employeeType := target;
      r := Pass;
    }

    /** `TechnicalEmployee.save`: writes the base, then the extension of the
        current role. */
    method Save(s: Store) returns (s': Store)
      requires InstanceSet()
      ensures s'.services == s.services && s'.addenda == s.addenda
      ensures s'.records == s.records[Key(TechnicalEmployeeTable, id) := BaseRow()]
                                     [Key(RoleTable(employeeType), id) := RoleRow]
      ensures NoStaleRole(s) ==> NoStaleRole(s')
      ensures Key(RoleTable(employeeType), id) in s'.records
    {
      var records := s.records[Key(TechnicalEmployeeTable, id) := BaseRow()];
      records := records[Key(RoleTable(employeeType), id) := RoleRow];
      s' := Store(records, s.services, s.addenda);
    }

    /** `TechnicalEmployee.delete`: deletes the current extension, then the
        base, stopping at the first record without a row. */
    method Delete(s: Store) returns (s': Store, r: Outcome)
      requires InstanceSet()
      ensures s'.services == s.services && s'.addenda == s.addenda
      ensures r.Pass? <==> Key(RoleTable(employeeType), id) in s.records && Key(TechnicalEmployeeTable, id) in s.records
      ensures r.Pass? ==> s'.records == s.records - {Key(RoleTable(employeeType), id), Key(TechnicalEmployeeTable, id)}
      ensures r.Fail? ==> r.error == NotSaved &&
                          s'.records == s.records - {Key(RoleTable(employeeType), id)}
    {
      var keys := [Key(RoleTable(employeeType), id), Key(TechnicalEmployeeTable, id)];
      var ran := RecordStore.Run(s.records, RecordStore.Removals<RecordKey, Row>(keys));
      RecordStore.RunRemovals(s.records, keys);
      if ran.outcome.Fail? {
        var n :| 0 <= n < |keys| && keys[n] !in s.records &&
                 (forall k :: k in keys[..n] ==> k in s.records) &&
                 ran.records == s.records - (set k | k in keys[..n]);
        if n == 0 {
          assert (set k | k in keys[..n]) == {};
        } else {
          assert (set k | k in keys[..n]) == {keys[0]};
        }
      } else {
        assert (set k | k in keys) == {keys[0], keys[1]};
      }
      s' := Store(ran.records, s.services, s.addenda);
      r := ran.outcome;
    }
  }

  /** The role switch the employee tests walk through: a saved Technician
      earns no bonus; switched to SysAdmin and saved, its technician row is
      gone, its sysadmin row is stored and it earns a tenth of its salary;
      switched back and saved, the sysadmin row is gone again and it earns no
      bonus. */
  method RoleSwitchScenario(s: Store) returns (e: TechnicalEmployee, s1: Store, s2: Store, s3: Store,
                                              b1: Money, b2: Money, b3: Money)
    requires Key(SysAdminTable, 1) !in s.records
    ensures e.employeeType == TechnicianType && e.Valid()
    ensures Key(TechnicianTable, 1) in s1.records && Key(SysAdminTable, 1) !in s1.records
    ensures Key(SysAdminTable, 1) in s2.records && Key(TechnicianTable, 1) !in s2.records
    ensures Key(TechnicianTable, 1) in s3.records && Key(SysAdminTable, 1) !in s3.records
    ensures b1 == 0.0 && b2 == 5000.0 / 10.0 && b3 == 0.0
  {
    e := TechnicalEmployee.Create(1, TechnicianType, "tech@isp.example", "+48123456789", 5000.0, 3);
    s1 := e.Save(s);
    b1 := e.Bonus();
    var s', r := e.SetInstance(SysAdminType, s1);
    assert r.Pass?;
    s2 := e.Save(s');
    b2 := e.Bonus();
    var s'', r' := e.SetInstance(TechnicianType, s2);
    assert r'.Pass?;
    s3 := e.Save(s'');
    b3 := e.Bonus();
  }
}
