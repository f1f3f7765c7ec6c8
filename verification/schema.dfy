/** The stored state of the system: the tables the two aggregates persist
    into, the service catalog and the addenda. */
module Schema {
  import opened Common
  import Services
  import Contracts

  /** The `type` tag of a customer. `Untyped` stands for any value other than
      REGULAR and BUSINESS, the empty one included. */
  datatype CustomerType = Regular | Business | Untyped

  /** The `employee_type` tag of a technical employee. `NoRole` stands for
      any value other than the two roles, the empty one included. */
  datatype EmployeeType = TechnicianType | SysAdminType | NoRole

  /** The extension record of a customer, one per kind. */
  datatype Extension =
    | RegularCustomer(firstName: string, lastName: string, apartmentNumber: string, address: Id)
    | BusinessCustomer(companyName: string, companyId: string)

  datatype Table =
    | CustomerTable | AccountTable | RegularContractTable | BusinessContractTable
    | RegularCustomerTable | BusinessCustomerTable
    | TechnicalEmployeeTable | TechnicianTable | SysAdminTable

  /** Rows of one-to-one dependents (accounts, customer extensions, technician
      and sysadmin records) are keyed by their owner's id; contracts, which
      addenda refer to, by their own id. */
  datatype RecordKey = Key(table: Table, id: Id)

  datatype Row =
    | CustomerRow(customerType: CustomerType, email: string, phoneNumber: string)
    | AccountRow(number: string, balance: Money)
    | ContractRow(customer: Id, contract: Contracts.Contract)
    | ExtensionRow(extension: Extension)
    | EmployeeRow(employeeType: EmployeeType, email: string, phoneNumber: string,
                  salary: Money, seniority: nat)
    | RoleRow

  datatype Store = Store(
    records: map<RecordKey, Row>,
    services: Services.Catalog,
    addenda: map<Id, Contracts.AddendumRecord>)

  /** The table a contract of the given kind is stored in. */
  function ContractTable(kind: Contracts.ContractKind): Table {
    if kind == Contracts.RegularKind then RegularContractTable else BusinessContractTable
  }

  /** The services can be billed: every included or billed service is
      stored, and every stored service passed `Services.Clean`'s nested-bundle
      rule. */
  ghost predicate Billable(s: Store) {
    && Services.Closed(s.services)
    && (forall k :: k in s.services ==> Services.Shallow(s.services, k))
    && (forall a :: a in s.addenda ==> s.addenda[a].services <= s.services.Keys)
  }

  /** The ids of the stored customers with the given tag. */
  function CustomersOfType(s: Store, t: CustomerType): (r: set<Id>)
    ensures forall k :: k in r <==> Key(CustomerTable, k) in s.records &&
                                    s.records[Key(CustomerTable, k)].CustomerRow? &&
                                    s.records[Key(CustomerTable, k)].customerType == t
  {
    set key | key in s.records && key.table == CustomerTable &&
              s.records[key].CustomerRow? && s.records[key].customerType == t :: key.id
  }

  /** `get_regular_customers`. */
  function RegularCustomers(s: Store): set<Id> {
    CustomersOfType(s, Regular)
  }

  /** `get_business_customers`. */
  function BusinessCustomers(s: Store): set<Id> {
    CustomersOfType(s, Business)
  }

  /** The two queries split the stored customers: no customer is in both,
      and every stored customer with a REGULAR or BUSINESS tag is in one. */
  lemma CustomerQueriesPartition(s: Store)
    ensures RegularCustomers(s) !! BusinessCustomers(s)
    ensures forall k :: Key(CustomerTable, k) in s.records && s.records[Key(CustomerTable, k)].CustomerRow? ==>
              (k in RegularCustomers(s) || k in BusinessCustomers(s) <==>
               s.records[Key(CustomerTable, k)].customerType != Untyped)
  {
  }
}
