/** The customer aggregate: a customer base record with its account, its
    contract and its kind-specific extension, created, saved and deleted
    together; and the billing of an account from the contract's current
    addendum. */
module Customers {
  import opened Common
  import RecordStore
  import Services
  import Contracts
  import opened Schema

  /** The table a customer's extension is stored in: the regular one for a
      REGULAR customer, the business one for any other tag. */
  function ExtensionTable(t: CustomerType): Table {
    if t == Regular then RegularCustomerTable else BusinessCustomerTable
  }

  /** The extension that belongs to a customer with tag `t`. */
  predicate FitsExtension(t: CustomerType, e: Extension) {
    if t == Regular then e.RegularCustomer? else e.BusinessCustomer?
  }

  /** The contract kind that belongs to a customer with tag `t`. */
  function ContractKindOf(t: CustomerType): Contracts.ContractKind {
    if t == Regular then Contracts.RegularKind else Contracts.BusinessKind
  }

  /** The amount billed for a contract: the sum of the total prices of the
      services of its current addendum. A contract without addenda cannot be
      billed, and neither can an addendum without services (the sum of no
      prices has no start value). */
  function Bill(s: Store, c: Contracts.ContractRef): (r: Result<Money>)
    requires Billable(s)
    ensures r.Err? <==> Contracts.AddendaOf(s.addenda, c) == {} ||
                        s.addenda[Contracts.CurrentAddendum(s.addenda, c).value].services == {}
    ensures r.Err? ==> r.error == (if Contracts.AddendaOf(s.addenda, c) == {} then NoAddendum else EmptyAddendum)
    ensures r.Ok? ==> exists k :: k in s.addenda && Contracts.BoundTo(s.addenda[k], c) &&
                                 (forall j :: j in s.addenda && Contracts.BoundTo(s.addenda[j], c) ==>
                                                s.addenda[j].created <= s.addenda[k].created) &&
                                 s.addenda[k].services != {} &&
                                 r.value == Services.SumTotals(s.services, s.addenda[k].services)
  {
    match Contracts.CurrentAddendum(s.addenda, c)
    case Err(e) => Err(e)
    case Ok(k) =>
      var services := s.addenda[k].services;
      if services == {} then Err(EmptyAddendum)
      else Ok(Services.SumTotals(s.services, services))
  }

  /** A bill is additive over the services of the addendum: one more service
      adds its total price, whichever services were there. */
  lemma {:induction false} BillAddsService(c: Services.Catalog, S: set<Services.ServiceId>, x: Services.ServiceId)
    requires forall y :: y in S ==> Services.Shallow(c, y)
    requires Services.Shallow(c, x) && x !in S
    ensures Services.SumTotals(c, S + {x}) == Services.SumTotals(c, S) + Services.TotalPrice(c, x)
  {
    Services.SumTotalsRemove(c, S + {x}, x);
    assert S + {x} - {x} == S;
  }

  /** Bundle A (10.00, of leaves B and C at 5.00) and leaf D (3.00). */
  function ScenarioCatalog(): Services.Catalog {
    map[1 := Services.Service("A", 10.0, {2, 3}), 2 := Services.Service("B", 5.0, {}),
        3 := Services.Service("C", 5.0, {}), 4 := Services.Service("D", 3.0, {})]
  }

  lemma ScenarioTotals()
    ensures Services.Shallow(ScenarioCatalog(), 1) && Services.TotalPrice(ScenarioCatalog(), 1) == 20.0
    ensures Services.Shallow(ScenarioCatalog(), 4) && Services.TotalPrice(ScenarioCatalog(), 4) == 3.0
  {
    var cat := ScenarioCatalog();
    Services.TotalPriceOneLevel(cat, 1);
    Services.SumPricesRemove(cat, {2, 3}, 2);
    assert {2, 3} - {2} == {3} && {3} - {3} == {};
    Services.SumPricesRemove(cat, {3}, 3);
    Services.TotalPriceOneLevel(cat, 4);
  }

  /** The scenario's one addendum, bound to `c`, lists A and D. */
  function ScenarioAddenda(c: Contracts.ContractRef): map<Id, Contracts.AddendumRecord> {
    map[7 := Contracts.RecordBoundTo(0, {1, 4}, c)]
  }

  lemma ScenarioBillable(c: Contracts.ContractRef)
    ensures Billable(Store(map[], ScenarioCatalog(), ScenarioAddenda(c)))
  {
    var cat := ScenarioCatalog();
    assert Services.Closed(cat);
    assert forall k :: k in cat ==> Services.Shallow(cat, k);
  }

  /** A contract whose current addendum lists bundle A and leaf D of the
      scenario catalog is billed 23.00. */
  lemma BillScenario(c: Contracts.ContractRef)
    ensures Billable(Store(map[], ScenarioCatalog(), ScenarioAddenda(c)))
    ensures Bill(Store(map[], ScenarioCatalog(), ScenarioAddenda(c)), c) == Ok(23.0)
  {
    var cat := ScenarioCatalog();
    var addenda := ScenarioAddenda(c);
    ScenarioBillable(c);
    assert Contracts.BoundTo(addenda[7], c);
    assert Contracts.CurrentAddendum(addenda, c) == Ok(7);
    ScenarioTotals();
    BillAddsService(cat, {}, 1);
    BillAddsService(cat, {1}, 4);
    assert {} + {1} == {1} && {1} + {4} == {1, 4};
  }

  /** A contract whose only addendum lists no service cannot be billed. */
  lemma EmptyAddendumScenario(c: Contracts.ContractRef)
    ensures var s := Store(map[], map[], map[7 := Contracts.RecordBoundTo(0, {}, c)]);
            Billable(s) && Bill(s, c) == Err(EmptyAddendum)
  {
    var addenda := map[7 := Contracts.RecordBoundTo(0, {}, c)];
    assert Contracts.BoundTo(addenda[7], c);
  }

  /** An account: its number and balance, and the customer it belongs to. */
  class Account {
    var number: string
    var balance: Money
    var customer: Customer?

    constructor (number: string, balance: Money)
      ensures this.number == number && this.balance == balance && customer == null
    {
      this.number := number;
      this.balance := balance;
      customer := null;
    }

    /** The row this account is stored as. */
    function Row(): Row
      reads this
    {
      AccountRow(number, balance)
    }

    /** Withdraws the bill of the customer's contract from the balance and
        answers the amount; when the contract cannot be billed the balance
        is left as it was. */
    method Pay(s: Store) returns (r: Result<Money>)
      requires customer != null && customer.Typed()
      requires Billable(s)
      modifies this`balance
      ensures r == Bill(s, customer.Contract().Ref())
      ensures r.Ok? ==> balance == old(balance) - r.value
      ensures r.Err? ==> balance == old(balance)
    {
      r := Bill(s, customer.Contract().Ref());
      if r.Ok? {
        balance := balance - r.value;
      }
    }
  }

  /** A customer base record, with the extension and the contract attached
      to it in memory until they are saved. */
  class Customer {
    const id: Id
    const customerType: CustomerType
    const email: string
    const phoneNumber: string
    const account: Account
    var extension: Option<Extension>
    var regularContract: Option<Contracts.Contract>
    var businessContract: Option<Contracts.Contract>

    constructor (id: Id, customerType: CustomerType, email: string, phoneNumber: string, account: Account)
      ensures this.id == id && this.customerType == customerType && this.email == email
      ensures this.phoneNumber == phoneNumber && this.account == account
      ensures extension.None? && regularContract.None? && businessContract.None?
    {
      this.id := id;
      this.customerType := customerType;
      this.email := email;
      this.phoneNumber := phoneNumber;
      this.account := account;
      extension := None;
      regularContract := None;
      businessContract := None;
    }

    /** Each contract slot holds a contract of its own kind, and the slots
        the customer's tag selects (regular ones for REGULAR, business ones
        otherwise) hold a fitting extension and a contract. */
    predicate Typed()
      reads this
    {
      && (regularContract.Some? ==> regularContract.value.kind == Contracts.RegularKind)
      && (businessContract.Some? ==> businessContract.value.kind == Contracts.BusinessKind)
      && extension.Some? && FitsExtension(customerType, extension.value)
      && (if customerType == Regular then regularContract.Some? else businessContract.Some?)
    }

    /** `Typed`, and the account points back at this customer. */
    predicate Valid()
      reads this, account
    {
      Typed() && account.customer == this
    }

    /** `Customer.create`: a customer with the account linked to it, the
        extension of its tag and the contract. The account is linked before
        the extension and the contract are checked, so it stays linked to the
        discarded customer when they do not fit. */
    static method Create(id: Id, customerType: CustomerType, contract: Contracts.Contract, account: Account,
                         email: string, phoneNumber: string, extension: Extension)
      returns (r: Result<Customer>)
      modifies account
      ensures account.customer != null && fresh(account.customer)
      ensures account.number == old(account.number) && account.balance == old(account.balance)
      ensures r.Ok? <==> FitsExtension(customerType, extension) && contract.kind == ContractKindOf(customerType)
      ensures r.Err? ==> r.error == if FitsExtension(customerType, extension) then TypeMismatch else UnexpectedField
      ensures r.Ok? ==> r.value == account.customer && r.value.Valid()
      ensures r.Ok? ==> r.value.id == id && r.value.customerType == customerType && r.value.account == account
      ensures r.Ok? ==> r.value.email == email && r.value.phoneNumber == phoneNumber
      ensures r.Ok? ==> r.value.extension == Some(extension) && r.value.Contract() == contract
    {
      var c := new Customer(id, customerType, email, phoneNumber, account);
      account.customer := c;
      if !FitsExtension(customerType, extension) {
        return Err(UnexpectedField);
      }
      c.extension := Some(extension);
      if contract.kind != ContractKindOf(customerType) {
        return Err(TypeMismatch);
      }
      if customerType == Regular {
        c.regularContract := Some(contract);
      } else {
        c.businessContract := Some(contract);
      }
      r := Ok(c);
    }

    /** The `contract` getter: the regular contract of a REGULAR customer,
        the business contract of any other. */
    function Contract(): (r: Contracts.Contract)
      requires Typed()
      reads this
      ensures r.kind == ContractKindOf(customerType)
      ensures Some(r) == regularContract || Some(r) == businessContract
    {
      if customerType == Regular then regularContract.value else businessContract.value
    }

    /** The `contract` setter: a REGULAR customer accepts only a regular
        contract, a BUSINESS one only a business contract, and a customer
        whose tag is neither accepts none. */
    method SetContract(c: Contracts.Contract) returns (r: Outcome)
      modifies this`regularContract, this`businessContract
      ensures r.Pass? <==> customerType != Untyped && c.kind == ContractKindOf(customerType)
      ensures r.Fail? ==> r.error == if customerType == Untyped then TypeNotSet else TypeMismatch
      ensures r.Fail? ==> regularContract == old(regularContract) && businessContract == old(businessContract)
      ensures r.Pass? && customerType == Regular ==>
                regularContract == Some(c) && businessContract == old(businessContract)
      ensures r.Pass? && customerType == Business ==>
                businessContract == Some(c) && regularContract == old(regularContract)
      ensures old(Typed()) ==> Typed()
      ensures r.Pass? && Typed() ==> Contract() == c
    {
      if customerType == Regular {
        if c.kind != Contracts.RegularKind {
          return Fail(TypeMismatch);
        }
        regularContract := Some(c);
      } else if customerType == Business {
        if c.kind != Contracts.BusinessKind {
          return Fail(TypeMismatch);
        }
        businessContract := Some(c);
      } else {
        return Fail(TypeNotSet);
      }
      r := Pass;
    }

    /** The row of the customer base. */
    function BaseRow(): Row {
      CustomerRow(customerType, email, phoneNumber)
    }

    /** The keys of the aggregate's rows, in the order `Delete` removes them. */
    function Keys(): (r: seq<RecordKey>)
      requires Typed()
      reads this
      ensures |r| == 4 && forall i, j :: 0 <= i < j < |r| ==> r[i] != r[j]
      ensures r[0].table == AccountTable && r[2].table == ExtensionTable(customerType) && r[3].table == CustomerTable
      ensures r[1] == Key(ContractTable(Contract().kind), Contract().id)
    {
      [Key(AccountTable, id), Key(ContractTable(Contract().kind), Contract().id),
       Key(ExtensionTable(customerType), id), Key(CustomerTable, id)]
    }

    /** `Customer.save`: writes the base, relinks and writes the account,
        re-assigns the contract through the setter and writes it, then
        writes the extension. A customer whose tag is neither REGULAR nor
        BUSINESS fails at the setter, after its base and account are
        written. */
    method Save(s: Store) returns (s': Store, r: Outcome)
      requires Typed()
      modifies account`customer, this`regularContract, this`businessContract
      ensures account.customer == this && Valid()
      ensures regularContract == old(regularContract) && businessContract == old(businessContract)
      ensures s'.services == s.services && s'.addenda == s.addenda
      ensures r.Pass? <==> customerType != Untyped
      ensures r.Fail? ==> r.error == TypeNotSet
      ensures r.Fail? ==> s'.records == s.records[Key(CustomerTable, id) := BaseRow()][Key(AccountTable, id) := account.Row()]
      ensures r.Pass? ==> s'.records == s.records[Key(CustomerTable, id) := BaseRow()]
                                                 [Key(AccountTable, id) := account.Row()]
                                                 [Keys()[1] := ContractRow(id, Contract())]
                                                 [Keys()[2] := ExtensionRow(extension.value)]
      ensures r.Pass? ==> forall k :: k in Keys() ==> k in s'.records
    {
      var records := s.records[Key(CustomerTable, id) := BaseRow()];
      account.customer := this;
      records := records[Key(AccountTable, id) := account.Row()];
      r := SetContract(Contract());
      if r.Fail? {
        return Store(records, s.services, s.addenda), r;
      }
      var contract := Contract();
      records := records[Key(ContractTable(contract.kind), contract.id) := ContractRow(id, contract)];
      records := records[Key(ExtensionTable(customerType), id) := ExtensionRow(extension.value)];
      s' := Store(records, s.services, s.addenda);
    }

    /** `Customer.delete`: refused while the account's balance is negative;
        otherwise deletes the account, the contract (whose addenda go with
        it), the extension and the base, in this order, stopping at the first
        record without a row. */
    method Delete(s: Store) returns (s': Store, r: Outcome)
      requires Typed()
      ensures s'.services == s.services
      ensures account.balance < 0.0 ==> r == Fail(OutstandingDebt) && s' == s
      ensures account.balance >= 0.0 ==> (r.Pass? <==> forall k :: k in Keys() ==> k in s.records)
      ensures r.Pass? ==> s'.records == s.records - (set k | k in Keys())
      ensures account.balance >= 0.0 && r.Fail? ==>
                r.error == NotSaved &&
                exists n :: 0 <= n < 4 && Keys()[n] !in s.records &&
                            (forall k :: k in Keys()[..n] ==> k in s.records) &&
                            s'.records == s.records - (set k | k in Keys()[..n])
      ensures s'.addenda == if account.balance >= 0.0 && Keys()[0] in s.records && Keys()[1] in s.records
                            then s.addenda - Contracts.AddendaOf(s.addenda, Contract().Ref())
                            else s.addenda
    {
      if account.balance < 0.0 {
        return s, Fail(OutstandingDebt);
      }
      var keys := Keys();
      var ran := RecordStore.Run(s.records, RecordStore.Removals<RecordKey, Row>(keys));
      RecordStore.RunRemovals(s.records, keys);
      var addenda := s.addenda;
      if keys[0] in s.records && keys[1] in s.records {
        addenda := addenda - Contracts.AddendaOf(addenda, Contract().Ref());
      }
      s' := Store(ran.records, s.services, addenda);
      r := ran.outcome;
    }
  }

  /** A saved customer is found by exactly the query of its tag, and is gone
      from both queries once deleted. */
  method SaveDeleteScenario(c: Customer, s: Store) returns (saved: Store, deleted: Store)
    requires c.Typed() && c.customerType != Untyped && c.account.balance >= 0.0
    modifies c.account`customer, c`regularContract, c`businessContract
    ensures c.customerType == Regular ==> c.id in RegularCustomers(saved) && c.id !in BusinessCustomers(saved)
    ensures c.customerType == Business ==> c.id in BusinessCustomers(saved) && c.id !in RegularCustomers(saved)
    ensures c.id !in RegularCustomers(deleted) && c.id !in BusinessCustomers(deleted)
  {
    var r;
    saved, r := c.Save(s);
    var r';
    deleted, r' := c.Delete(saved);
    assert Key(CustomerTable, c.id) in c.Keys();
  }
}
