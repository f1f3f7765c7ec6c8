/** The service-composition engine: services that include other services,
    the structural rules `Service.clean` enforces, and the recursive total
    price of a service. */
module Services {
  import opened Common

  type ServiceId = nat

  /** A stored service: its unique name, its own price and the set of services
      it includes (a many-to-many relation, so no service is listed twice). */
  datatype Service = Service(name: string, price: Money, included: set<ServiceId>)

  /** The stored services, by id. */
  type Catalog = map<ServiceId, Service>

  /** Every included service is itself stored. */
  ghost predicate Closed(c: Catalog) {
    forall s, i :: s in c && i in c[s].included ==> i in c
  }

  predicate IsLeaf(c: Catalog, s: ServiceId)
    requires s in c
  {
    c[s].included == {}
  }

  /** `s` is a leaf, or a bundle of leaves: nothing it includes includes
      anything. This is the shape `Clean` accepts, and on it the recursion of
      `TotalPrice` is at most one level deep. */
  predicate Shallow(c: Catalog, s: ServiceId) {
    s in c && forall i :: i in c[s].included ==> i in c && IsLeaf(c, i)
  }

  /** Validation of a service. A service without an id (`None`), or whose id
      is 0 and so reads as false, is not checked; otherwise the three rules
      are tested in this order and the first one broken is reported. */
  function Clean(c: Catalog, s: Option<ServiceId>): (r: Outcome)
    requires s.Some? ==> s.value in c && Closed(c)
    ensures r.Pass? <==> s.None? || s.value == 0 || (s.value !in c[s.value].included
                                                     && |c[s.value].included| <= 3
                                                     && forall i :: i in c[s.value].included ==> IsLeaf(c, i))
    ensures s.Some? && s.value != 0 && s.value in c[s.value].included ==> r == Fail(SelfInclusion)
    ensures s.Some? && s.value != 0 && s.value !in c[s.value].included && |c[s.value].included| > 3 ==>
              r == Fail(TooManyInclusions)
    ensures s.Some? && s.value != 0 && s.value !in c[s.value].included && |c[s.value].included| <= 3 ==>
              (exists i :: i in c[s.value].included && !IsLeaf(c, i)) ==> r == Fail(NestedBundle)
    ensures r.Pass? && s.Some? && s.value != 0 ==> Shallow(c, s.value)
  {
    if s.None? || s.value == 0 then Pass
    else
      var included := c[s.value].included;
      if s.value in included then Fail(SelfInclusion)
      else if |included| > 3 then Fail(TooManyInclusions)
      else if exists i :: i in included && !IsLeaf(c, i) then Fail(NestedBundle)
      else Pass
  }

  /** 0 for a leaf, 1 for a bundle: the depth of the recursion below `s`. */
  function Rank(c: Catalog, s: ServiceId): nat
    requires s in c
  {
    if IsLeaf(c, s) then 0 else 1
  }

  /** 1 if some service of `S` is a bundle, else 0. */
  ghost function SetRank(c: Catalog, S: set<ServiceId>): nat {
    if exists x :: x in S && x in c && !IsLeaf(c, x) then 1 else 0
  }

  /** The price of a service plus the total prices of the services it includes. */
  function TotalPrice(c: Catalog, s: ServiceId): (r: Money)
    requires Shallow(c, s)
    ensures IsLeaf(c, s) ==> r == c[s].price
    decreases 2 * Rank(c, s) + 1, 0
  {
    if c[s].included == {} then c[s].price
    else SumTotals(c, c[s].included) + c[s].price
  }

  /** The sum of the total prices of the services in `S`, taken in an
      unspecified order (the order of a query result); `SumTotalsRemove`
      shows that the order does not matter. */
  function SumTotals(c: Catalog, S: set<ServiceId>): Money
    requires forall x :: x in S ==> Shallow(c, x)
    decreases if S == {} then 0 else 2 * SetRank(c, S) + 2, |S|
  {
    if S == {} then 0.0
    else
      var x := Least(S);
      assert SetRank(c, S - {x}) <= SetRank(c, S);
      TotalPrice(c, x) + SumTotals(c, S - {x})
  }

  /** The sum of the own prices of the services in `S`: the reference against
      which the one-level depth of `TotalPrice` is stated. */
  function SumPrices(c: Catalog, S: set<ServiceId>): Money
    requires S <= c.Keys
  {
    if S == {} then 0.0
    else
      var x := Least(S);
      c[x].price + SumPrices(c, S - {x})
  }

  /** Summing the total prices of a set may start from any of its members. */
  lemma {:induction false} SumTotalsRemove(c: Catalog, S: set<ServiceId>, x: ServiceId)
    requires forall y :: y in S ==> Shallow(c, y)
    requires x in S
    ensures SumTotals(c, S) == TotalPrice(c, x) + SumTotals(c, S - {x})
    decreases |S|
  {
    var y := Least(S);
    if y != x {
      SumTotalsRemove(c, S - {y}, x);
      SumTotalsRemove(c, S - {x}, y);
      assert S - {y} - {x} == S - {x} - {y};
    }
  }

  /** Summing the own prices of a set may start from any of its members. */
  lemma {:induction false} SumPricesRemove(c: Catalog, S: set<ServiceId>, x: ServiceId)
    requires S <= c.Keys
    requires x in S
    ensures SumPrices(c, S) == c[x].price + SumPrices(c, S - {x})
    decreases |S|
  {
    var y := Least(S);
    if y != x {
      SumPricesRemove(c, S - {y}, x);
      SumPricesRemove(c, S - {x}, y);
      assert S - {y} - {x} == S - {x} - {y};
    }
  }

  /** On a set of leaves, the total prices are the own prices. */
  lemma {:induction false} SumTotalsOfLeaves(c: Catalog, S: set<ServiceId>)
    requires forall x :: x in S ==> Shallow(c, x) && IsLeaf(c, x)
    ensures SumTotals(c, S) == SumPrices(c, S)
    decreases |S|
  {
    if S != {} {
      var x := Least(S);
      SumPricesRemove(c, S, x);
      SumTotalsOfLeaves(c, S - {x});
    }
  }

  /** The recursion of `TotalPrice` is one level deep: a service costs its own
      price plus the own prices of the services it includes, and a leaf costs
      its own price. */
  lemma TotalPriceOneLevel(c: Catalog, s: ServiceId)
    requires Shallow(c, s)
    ensures c[s].included <= c.Keys
    ensures TotalPrice(c, s) == c[s].price + SumPrices(c, c[s].included)
    ensures IsLeaf(c, s) ==> TotalPrice(c, s) == c[s].price
  {
    SumTotalsOfLeaves(c, c[s].included);
  }

  /** A service that passes validation has a total price, and it is the one
      `TotalPriceOneLevel` gives. */
  lemma CleanServicePrice(c: Catalog, s: ServiceId)
    requires s in c && Closed(c) && s != 0
    requires Clean(c, Some(s)).Pass?
    ensures Shallow(c, s)
    ensures TotalPrice(c, s) == c[s].price + SumPrices(c, c[s].included)
  {
    TotalPriceOneLevel(c, s);
  }

  /** Bundle A (10.00) of leaves B and C (5.00 each) costs 20.00; once B
      includes C, validating A fails with NestedBundle. */
  lemma BundleScenario()
    ensures var c := map[1 := Service("A", 10.0, {2, 3}), 2 := Service("B", 5.0, {}),
                         3 := Service("C", 5.0, {})];
            Shallow(c, 1) && TotalPrice(c, 1) == 20.0 && Clean(c, Some(1)) == Pass
    ensures var c := map[1 := Service("A", 10.0, {2, 3}), 2 := Service("B", 5.0, {3}),
                         3 := Service("C", 5.0, {})];
            Closed(c) && Clean(c, Some(1)) == Fail(NestedBundle)
  {
    var c := map[1 := Service("A", 10.0, {2, 3}), 2 := Service("B", 5.0, {}),
                 3 := Service("C", 5.0, {})];
    assert Shallow(c, 1);
    TotalPriceOneLevel(c, 1);
    SumPricesRemove(c, {2, 3}, 2);
    assert {2, 3} - {2} == {3};
    SumPricesRemove(c, {3}, 3);
    assert {3} - {3} == {};
    var d := map[1 := Service("A", 10.0, {2, 3}), 2 := Service("B", 5.0, {3}),
                 3 := Service("C", 5.0, {})];
    assert 2 in d[1].included && !IsLeaf(d, 2);
  }

  /** The validations exercised by the service tests: a service that includes
      itself, a service with four inclusions, a service including a bundle,
      and a service including one leaf (added twice, kept once). A service
      whose id is 0 is skipped, even when it includes itself. */
  lemma InclusionRulesScenario()
    ensures var c := map[1 := Service("S1", 10.0, {1})];
            Closed(c) && Clean(c, Some(1)) == Fail(SelfInclusion)
    ensures var c := map[2 := Service("S2", 10.0, {3, 4, 5, 6}), 3 := Service("S3", 10.0, {}),
                         4 := Service("S4", 10.0, {}), 5 := Service("S5", 10.0, {}),
                         6 := Service("S6", 10.0, {})];
            Closed(c) && Clean(c, Some(2)) == Fail(TooManyInclusions)
    ensures var c := map[2 := Service("S2", 10.0, {3, 4}), 3 := Service("S3", 10.0, {}),
                         4 := Service("S4", 10.0, {5, 6}), 5 := Service("S5", 10.0, {}),
                         6 := Service("S6", 10.0, {})];
            Closed(c) && Clean(c, Some(2)) == Fail(NestedBundle)
    ensures var c := map[2 := Service("S2", 10.0, {5, 5}), 5 := Service("S5", 10.0, {})];
            Closed(c) && Clean(c, Some(2)) == Pass && |c[2].included| == 1
    ensures var c := map[0 := Service("S0", 10.0, {0})];
            Closed(c) && Clean(c, Some(0)) == Pass
  {
    var c4 := map[2 := Service("S2", 10.0, {3, 4, 5, 6}), 3 := Service("S3", 10.0, {}),
                  4 := Service("S4", 10.0, {}), 5 := Service("S5", 10.0, {}),
                  6 := Service("S6", 10.0, {})];
    assert |{3, 4, 5, 6}| == 4;
    var cn := map[2 := Service("S2", 10.0, {3, 4}), 3 := Service("S3", 10.0, {}),
                  4 := Service("S4", 10.0, {5, 6}), 5 := Service("S5", 10.0, {}),
                  6 := Service("S6", 10.0, {})];
    assert 4 in cn[2].included && !IsLeaf(cn, 4);
    assert {5, 5} == {5};
  }
}
