/** Shared vocabulary of the ISP back office model: identities, money, and the
    errors the model's operations report instead of raising exceptions. */
module Common {

  /** Surrogate keys of stored records. */
  type Id = nat

  /** Creation and approval instants, as seconds on some fixed clock. */
  type Timestamp = int

  /** Amounts of money. Decimal money is modelled exactly by `real`; the
      currency tag and the two-decimal storage rounding are not modelled. */
  type Money = real

  datatype Option<+T> = None | Some(value: T)

  /** The ways an operation of the model can fail. Each one stands for an
      exception the original code raises at that point. */
  datatype Error =
    | TypeMismatch       // a contract of the wrong kind for the customer's type
    | TypeNotSet         // the customer's type is neither REGULAR nor BUSINESS
    | UnexpectedField    // extension fields that belong to the other kind of customer
    | OutstandingDebt    // deleting a customer whose balance is negative
    | NotSaved           // deleting a record that has no stored row
    | SelfInclusion      // a service includes itself
    | TooManyInclusions  // a service includes more than three services
    | NestedBundle       // a service includes a service that includes something
    | NoAddendum         // a contract without any addendum has no current addendum
    | EmptyAddendum      // billing an addendum that lists no service
    | AlreadyAssigned    // binding an addendum that already has a contract
    | DualAssignment     // an addendum bound to a regular and a business contract
    | InvalidPhone       // a phone number the contact-data validators refuse

  /** Success or failure of an operation that produces no value. */
  datatype Outcome = Pass | Fail(error: Error)

  /** Success with a value, or failure. */
  datatype Result<+T> = Ok(value: T) | Err(error: Error)

  /** `m` is the smallest element of `S`. */
  predicate IsLeast(m: nat, S: set<nat>) {
    m in S && forall y :: y in S ==> m <= y
  }

  /** The smallest id of a non-empty set: the order in which the model visits
      a set of ids, where the original leaves the order to the database. */
  function Least(S: set<nat>): (m: nat)
    requires S != {}
    ensures m in S && forall y :: y in S ==> m <= y
  {
    LeastExists(S);
    var m :| IsLeast(m, S);
    m
  }

  lemma {:induction false} LeastExists(S: set<nat>)
    requires S != {}
    ensures exists m :: IsLeast(m, S)
    decreases |S|
  {
    var x :| x in S;
    var rest := S - {x};
    if rest == {} {
      forall y | y in S ensures x <= y {
        assert y !in rest;
      }
      assert IsLeast(x, S);
    } else {
      LeastExists(rest);
      var m :| IsLeast(m, rest);
      var least := if x < m then x else m;
      forall y | y in S ensures least <= y {
        if y != x { assert y in rest; }
      }
      assert IsLeast(least, S);
    }
  }
}
