# ISP back office core, modelled in Dafny

This project models the domain core of an ISP back office system
(`webcom/models.py`) and proves properties of the model. It covers six parts:

- **Service composition.** A service has its own price and includes up to
  three other services. Validation refuses a service that includes itself,
  includes more than three services, or includes a service that includes
  something. The total price of a service is its own price plus the total
  prices of the services it includes.
- **Contracts and addenda.** A regular or business contract bills the
  services of its current addendum, which is the one created last. An
  addendum is bound to at most one contract, through one of two foreign keys.
- **The customer aggregate.** A customer base record owns an account, a
  contract and a kind-specific extension (regular or business). They are
  created, saved and deleted together. Deletion is refused while the balance
  is negative.
- **Account billing.** `pay` withdraws the bill of the customer's contract
  from the balance.
- **Technical employees.** A technical employee switches in place between a
  Technician and a SysAdmin extension. The salary bonus is delegated to the
  extension: nothing for a technician, a tenth of the salary for a sysadmin.
- **Phone numbers.** The contact data's phone number validators.

Modules:

- `Common`: ids, money as `real`, and the error kinds. Each error kind stands
  for an exception of the original.
- `Services`: the catalog, `Clean` and `TotalPrice`.
- `Contracts`: contracts, addendum records, `CurrentAddendum`, and the
  `Addendum` class.
- `RecordStore`: the persistence layer's semantics.
  - A cascade is a sequence of writes and deletions applied in order.
  - Deleting a record that has no row fails.
  - A cascade stops at the first failure and leaves the earlier steps
    applied, because the original wraps no transaction around its cascades.
- `Schema`: the stored tables, as one `Store` value that the cascading
  methods take and return.
- `Customers`: the `Account` and `Customer` classes and `Bill`.
- `Employees`: the `TechnicalEmployee`, `Technician` and `SysAdmin` classes.
- `Contact`: the phone validators.

Three behaviours of the code shape the model:

- **No transaction.** The code wraps no transaction around its save and
  delete cascades. So `Customer.Save`, `Customer.Delete`,
  `TechnicalEmployee.Delete` and `TechnicalEmployee.SetInstance` leave partial
  effects exactly where the code would. For example, a customer whose type is
  neither REGULAR nor BUSINESS has its base and account rows written before
  the contract setter fails.
- **Equal creation times.** The code leaves the choice among addenda created
  at the same instant to the database. `CurrentAddendum` promises only a
  latest-created addendum of the contract. Its body happens to pick the
  highest id.
- **An addendum without services.** The code sums the prices with `reduce`
  and no start value. Billing such an addendum therefore fails, and the model
  reports `EmptyAddendum`.

## Model

| member | source | states |
|---|---|---|
| Services.Clean | webcom/models.py:409-423 | A service without an id, or with id 0 (which reads as false), always passes. Any other service passes exactly when it does not include itself, includes at most three services, and includes only services that include nothing. Failures follow source order: self-inclusion gives SelfInclusion; otherwise more than three inclusions give TooManyInclusions; otherwise an included bundle gives NestedBundle. A checked service that passes is a leaf or a bundle of leaves. |
| Services.TotalPrice | webcom/models.py:398-407 | A service that includes nothing costs its own price. The one-level closed form for bundles is `Services.TotalPriceOneLevel`. |
| Services.TotalPriceOneLevel | webcom/models.py:398-407 | For a service validation accepts, the total price is its own price plus the own prices of the services it includes. A leaf costs its own price. |
| Services.SumTotalsRemove | webcom/models.py:404-406 | Summing the total prices of the included services gives the same result whichever service the sum starts from, so the order of the query result does not matter. |
| Services.CleanServicePrice | webcom/models.py:398-423 | A service with a non-zero id that passes `Clean` has a well-defined total price: its own price plus the own prices of its inclusions. |
| Services.BundleScenario | webcom/models.py:398-423 | Bundle A (10.00) of leaves B and C (5.00 each) costs 20.00 and passes validation. Once B includes C, validating A fails with NestedBundle. |
| Services.InclusionRulesScenario | webcom/tests.py:145-183 | A self-including service fails with SelfInclusion. Four inclusions fail with TooManyInclusions. An included bundle fails with NestedBundle. A leaf added twice is included once and passes. A service with id 0 that includes itself is skipped and passes. |
| Contracts.CurrentAddendum | webcom/models.py:325-331 | No current addendum (NoAddendum) exactly when the contract has no addenda. Otherwise the result is one of the contract's addenda, and no addendum of the contract was created later. |
| Contracts.LatestIn | webcom/models.py:331 | Among a set of addenda: none exactly for the empty set. Otherwise a member whose creation instant is not exceeded by any other member. |
| Contracts.CurrentAddendumScenario | webcom/models.py:325-331 | Addenda created at T1 < T2 < T3 give the T3 one as current. A later addendum of another contract is ignored. |
| Contracts.Addendum.Clean | webcom/models.py:452-458 | Validation fails (DualAssignment) exactly when both the regular and the business foreign key are set. |
| Contracts.Addendum.SetContract | webcom/models.py:470-482 | Binding succeeds exactly when neither foreign key is set. It then sets the key of the contract's kind, leaves the other key unset, and the addendum then validates and is among that contract's addenda. Otherwise it fails with AlreadyAssigned and changes nothing. |
| Contracts.Addendum.ContractAsWritten | webcom/models.py:460-468 | The getter as written only ever answers a regular contract. An addendum whose regular key is set gets that contract back, and one bound only to a business contract gets nothing. It agrees with the intended getter on every addendum except one bound only to a business contract. |
| Contracts.Addendum.Contract | webcom/models.py:460-468 | The getter as intended answers nothing exactly when neither key is set. Otherwise it answers the regular contract if that key is set, and else the business contract. On a valid addendum, the contract it answers is the one the addendum is bound to. |
| Contracts.BusinessBindingScenario | webcom/models.py:460-482 | After binding a fresh addendum to a business contract, the intended getter returns that contract and the getter as written returns nothing. |
| RecordStore.RunRemovals | webcom/models.py:168-183 | A cascade of deletions of distinct records succeeds exactly when every record has a row, and then removes exactly those rows. Otherwise it fails (NotSaved) at the first record without a row, after removing the rows of the records before it. |
| Schema.CustomersOfType | webcom/models.py:90-104 | A customer id is in the result exactly when a stored customer row with that id carries the given type tag. `Schema.RegularCustomers` and `Schema.BusinessCustomers` are this query for REGULAR and BUSINESS. |
| Schema.CustomerQueriesPartition | webcom/models.py:90-104 | The regular and business queries (`Schema.RegularCustomers`, `Schema.BusinessCustomers`) are disjoint. A stored customer is in one of them exactly when its tag is REGULAR or BUSINESS. |
| Customers.Bill | webcom/models.py:218-225 | Billing fails exactly when the contract has no addenda (NoAddendum) or its current addendum lists no service (EmptyAddendum). Otherwise the amount is the sum of the total prices of the services of a latest-created addendum of the contract. |
| Customers.BillAddsService | webcom/models.py:221-223 | One more service in the addendum adds exactly its total price to the bill. |
| Customers.BillScenario | webcom/models.py:218-225 | A contract whose current addendum lists bundle A (10.00 with two 5.00 leaves) and leaf D (3.00) is billed 23.00. |
| Customers.EmptyAddendumScenario | webcom/models.py:221-223 | A contract whose only addendum lists nothing cannot be billed. |
| Customers.Account.Pay | webcom/models.py:218-225 | The amount withdrawn is the bill of the customer's contract. On success the balance drops by exactly that amount. On failure the balance is unchanged. |
| Customers.Customer.Create | webcom/models.py:106-125 | Succeeds exactly when the extension fields belong to the customer's kind and the contract is of that kind. A wrong extension fails with UnexpectedField, checked first; a wrong contract fails with TypeMismatch. A non-REGULAR tag takes the business extension and contract. The account is linked to the new customer even when creation fails. On success the customer is valid and holds the given extension and contract. |
| Customers.Customer.Contract | webcom/models.py:127-133 | The getter answers a contract of the kind the customer's tag selects, taken from one of the two contract slots. |
| Customers.Customer.SetContract | webcom/models.py:135-147 | Accepted exactly when the tag is REGULAR or BUSINESS and the contract is of that kind. Otherwise it fails (TypeNotSet for another tag, TypeMismatch for the wrong kind) and changes nothing. On success only the slot of the tag changes. The getter then answers the contract, and the slot invariant is kept. |
| Customers.Customer.Save | webcom/models.py:149-166 | Writes the base row and the account row, relinking the account. For a REGULAR or BUSINESS customer it also writes the contract row and then the extension row. For any other tag it fails with TypeNotSet after writing only the base and account. The contract slots are unchanged and the customer is valid afterwards. |
| Customers.Customer.Delete | webcom/models.py:168-183 | A negative balance refuses deletion (OutstandingDebt) and changes nothing. Otherwise deletion succeeds exactly when the account, contract, extension and base rows all exist, and then removes exactly those rows. A failure (NotSaved) leaves the rows before the first missing one deleted. The contract's addenda are removed exactly when the contract's deletion is reached. |
| Customers.SaveDeleteScenario | webcom/tests.py:17-54 | A saved customer is found by the query of its own tag and not by the other. After deletion it is found by neither. |
| Employees.RoleOf | webcom/models.py:554-573 | The setter always lands on a role. A Technician or SysAdmin tag selects itself, and a tag that is neither selects SysAdmin. |
| Employees.TechnicalEmployee.Create | webcom/models.py:529-541 | A fresh employee whose role is the one the tag selects, holding a new extension of that role that extends it. |
| Employees.TechnicalEmployee.Instance | webcom/models.py:543-552 | The getter answers the technician extension exactly for a Technician. On a valid employee the extension answered extends this employee. |
| Employees.TechnicalEmployee.Bonus | webcom/models.py:575-584 | Delegates to `Employees.Technician.Bonus` (webcom/models.py:630-636) or `Employees.SysAdmin.Bonus` (webcom/models.py:649-655). On a valid employee the bonus is 0 for a Technician and salary/10 for a SysAdmin. For a non-negative salary it lies between 0 and salary/10. |
| Employees.TechnicalEmployee.SetInstance | webcom/models.py:554-573 | Fails (NotSaved), changing nothing, exactly when leaving a role whose extension row is missing. On success the role is the one selected. Leaving a role deletes exactly that role's row and attaches a fresh extension of the new role. Keeping the role keeps the extension. Validity is kept, and no row of the role the employee lacks is left. |
| Employees.TechnicalEmployee.Save | webcom/models.py:586-599 | Writes the base row and the row of the current role. The written role row is present afterwards, and no stale row of the other role appears. |
| Employees.TechnicalEmployee.Delete | webcom/models.py:609-617 | Succeeds exactly when both the current role's row and the base row exist, and then removes both. A failure (NotSaved) has removed at most the role row. |
| Employees.RoleSwitchScenario | webcom/tests.py:86-107 | Technician, then SysAdmin, then Technician, saving after each switch: each time exactly the current role's row is stored. The bonuses returned are 0, then salary/10 (500.00 of 5000.00), then 0. |
| Contact.ValidatePhoneAsWritten | webcom/models.py:62-65 | The validators as written accept, within 20 characters, what the intended validators accept and also such a text followed by one final newline (Python's `$`). |
| Contact.ValidatePhone | webcom/models.py:62-65 | The validators as intended accept exactly the texts of 9 to 20 characters that are all digits except possibly a leading `+`, with at least 9 digits after a `+`. |
| Contact.PhoneShape | webcom/models.py:62-65 | The pattern anchored at the end, together with the 20 character limit, matches exactly that character-by-character form. |
| Contact.PlusLeavesNineteenDigits | webcom/models.py:62-65 | After a `+`, at most 19 digits are accepted: `+` with 20 digits matches the pattern but exceeds the length limit. |
| Contact.ValidatePhoneRefines | webcom/models.py:62-65 | The intended validators accept a subset of what the written ones accept, and differ from them only on texts ending in a newline. |
| Contact.TrailingNewlineAccepted | webcom/models.py:62-63 | `123456789` followed by a newline passes the validators as written and is refused by the intended ones. |

## Left out

- Persistence: the database itself, query mechanics and key allocation.
  - The store is one value the cascading methods take and return, and ids are
    given by the caller.
  - Deleting a record counts as failing when its row is absent. The ORM
    itself refuses only an instance that has no primary key.
- Cascades the database performs by itself:
  - When a base row is deleted, rows still referring to it would go too.
    With the rows these aggregates write, the explicit deletions have
    already removed them.
  - After a deletion, the ORM clears the instance's primary key.
  - Neither is modelled. The one cascade that matters, the deletion of a
    contract's addenda, is modelled.
- Money:
  - The currency tag is not modelled.
  - Storage rounding to two decimals and ten digits is not modelled. `real`
    is exact.
- `Contract.duration`: depends on the wall clock and answers values of
  different kinds.
- `__getattr__` delegation and the `__str__` methods: presentation only.
- Person fields (names, apartment, address) of employees: not modelled,
  since no operation of the core reads them. They are part of a customer's
  regular extension.
- Phone numbers on create or save: `Customer.Create` and
  `TechnicalEmployee.Create` do not validate them, since the original runs
  field validators only on full model validation.
- `Contact.MatchesToEnd`, `\d`: Python's `\d` also matches non-ASCII decimal
  digits. The model accepts only `0`-`9`.
- Customers.Account.Pay: requires the account's customer to hold a contract
  of its kind. In the original, the missing related contract raises inside
  the `contract` property. Python then falls back to `Customer.__getattr__`,
  which looks `contract` up on the extension, and what surfaces is an
  `AttributeError`.
- Services.TotalPrice: defined only for a leaf or a bundle of leaves (the
  shape `Services.Clean` accepts). The original prices any acyclic inclusion
  graph, of any depth.
- Customers.Bill: requires every stored service to be a leaf or a bundle of
  leaves. Saving a service in the original does not run `clean`, so deeper
  graphs can be stored and billed there.
- Customers.Account.Pay: requires the same catalog shape as `Customers.Bill`,
  for the same reason.
- Technicians and sysadmins beyond the bonus:
  - Devices, repairs and the non-technical employee classes are not part of
    this model.
  - The administrative site and the test-data generators are not part of
    this model.
- Concurrency:
  - Two simultaneous payments against one account are not modelled.
  - Transaction isolation is not modelled.

## Findings

| source | as written | input that shows it | evidently intended | confidence | as-written member | corrected member |
|---|---|---|---|---|---|---|
| webcom/models.py:460-468 | The `contract` getter tests `hasattr(self, "regular_contract")`. That attribute always exists on a nullable foreign key, so the getter always returns the regular contract. | An addendum bound to a business contract through the setter: the getter returns nothing. | Return the regular contract if one is set, else the business contract. | not executed | Contracts.Addendum.ContractAsWritten (shown by Contracts.BusinessBindingScenario) | Contracts.Addendum.Contract |
| webcom/models.py:62-63 | The pattern ends in `$`, which Python also matches just before a final newline, and `RegexValidator` searches with it. | `"123456789\n"` passes both phone validators. | Accept only `+`-prefixed or bare digit strings with nothing after the digits. | not executed | Contact.ValidatePhoneAsWritten (shown by Contact.TrailingNewlineAccepted) | Contact.ValidatePhone |
