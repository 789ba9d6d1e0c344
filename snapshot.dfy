/**
 * `groupSnapshot`: the view of a group every endpoint returns and every
 * `group_updated` event carries.
 */
module Snapshots {
  import opened Money
  import opened Ledger
  import opened Settlements

  /**
   * The group's fields with its balance map (unrounded, keyed by member id in
   * map order) and its settlement plan.
   */
  datatype Snapshot = Snapshot(
    id: string,
    name: string,
    members: seq<Member>,
    expenses: seq<Expense>,
    balances: Balances,
    settlements: seq<Settlement>)

  /** The snapshot of `g`. */
  function SnapshotOf(g: Group): Snapshot {
    Snapshot(g.id, g.name, g.members, g.expenses, BalancesOf(g), SettlementsOf(g))
  }

  /** `groupSnapshot(group)`: runs both computations over the group as it stands. */
  method GroupSnapshot(g: Group) returns (snap: Snapshot)
    ensures snap == SnapshotOf(g)
  {
    var balances := ComputeBalances(g);
    var settlements := ComputeSettlements(g);
    snap := Snapshot(g.id, g.name, g.members, g.expenses, balances, settlements);
  }

  /** The reported balances add up to zero and list every member exactly once. */
  lemma SnapshotBalances(g: Group)
    ensures Total(SnapshotOf(g).balances) == 0.0
    ensures forall m :: m in g.members ==> m.id in Keys(SnapshotOf(g).balances)
    ensures Distinct(Keys(SnapshotOf(g).balances))
  {
    ZeroSum(g);
    MembersHaveBalances(g);
    BalancesDistinct(g);
  }

  /**
   * Every reported settlement is at least a cent and runs from a member whose
   * rounded balance is in debt to one whose rounded balance is in credit.
   */
  lemma SnapshotSettlements(g: Group)
    ensures var snap := SnapshotOf(g);
      forall s :: s in snap.settlements ==>
        s.cents >= 1 && s.from != s.to &&
        Cents(Get(snap.balances, s.from)) <= -1 && Cents(Get(snap.balances, s.to)) >= 1
    ensures |SnapshotOf(g).settlements| <= |SnapshotOf(g).balances|
  {
    BalancesDistinct(g);
    PlanShape(BalancesOf(g));
  }

  /**
   * No member is told to receive more than their rounded credit or to pay
   * more than their rounded debt. When the rounded credits cover the rounded
   * debts every debtor pays in full, when the rounded debts cover the rounded
   * credits every creditor is paid in full, and so when they cancel out every
   * member ends square.
   */
  lemma SnapshotSettlesMember(g: Group, id: MemberId)
    ensures var snap := SnapshotOf(g);
      var rounded := Cents(Get(snap.balances, id));
      && 0 <= Received(snap.settlements, id) <= (if rounded >= 1 then rounded else 0)
      && 0 <= Paid(snap.settlements, id) <= (if rounded <= -1 then -rounded else 0)
      && (RoundedTotal(snap.balances) >= 0 ==>
            Paid(snap.settlements, id) == (if rounded <= -1 then -rounded else 0))
      && (RoundedTotal(snap.balances) <= 0 ==>
            Received(snap.settlements, id) == (if rounded >= 1 then rounded else 0))
      && (RoundedTotal(snap.balances) == 0 ==>
            rounded - Received(snap.settlements, id) + Paid(snap.settlements, id) == 0)
  {
    var b := BalancesOf(g);
    BalancesDistinct(g);
    PlanBounds(b, id);
    if RoundedTotal(b) >= 0 {
      PlanPaysAllDebts(b, id);
    }
    if RoundedTotal(b) <= 0 {
      PlanReceivesAllCredits(b, id);
    }
  }

  /**
   * Rounding leaves at most half a cent per member unsettled: the rounded
   * balances add up to within `|balances| / 2` cents of zero.
   */
  lemma SnapshotResidual(g: Group)
    ensures -|SnapshotOf(g).balances| <= 2 * RoundedTotal(SnapshotOf(g).balances) <= |SnapshotOf(g).balances|
  {
    ZeroSum(g);
    RoundingResidual(BalancesOf(g));
  }

  /** A dinner of 10.00 paid by `a` and split three ways between `a`, `b` and `c`. */
  function ThreeWayDinner(): Group {
    Group("g", "Trip",
      [Member("a", "Ann"), Member("b", "Bob"), Member("c", "Cat")],
      [Expense("e", "Dinner", 10.0, "a", ["a", "b", "c"], "t")])
  }

  /** The balance map of `ThreeWayDinner`: `a` is owed two thirds of 10.00, `b` and `c` owe a third each. */
  function DinnerBalances(): Balances {
    [Entry("a", 20.0 / 3.0), Entry("b", -10.0 / 3.0), Entry("c", -10.0 / 3.0)]
  }

  /** Every member of the dinner group starts at zero, in member order. */
  lemma DinnerStartsAtZero()
    ensures InitBalances(ThreeWayDinner().members) == [Entry("a", 0.0), Entry("b", 0.0), Entry("c", 0.0)]
  {
    var ms := ThreeWayDinner().members;
    assert ms[..1] == [ms[0]] && ms[..2] == [ms[0], ms[1]];
    assert InitBalances(ms[..1]) == [Entry("a", 0.0)];
    assert InitBalances(ms[..2]) == Set([Entry("a", 0.0)], "b", 0.0) == [Entry("a", 0.0), Entry("b", 0.0)];
    assert ms[..|ms| - 1] == ms[..2];
    assert InitBalances(ms) == Set([Entry("a", 0.0), Entry("b", 0.0)], "c", 0.0);
  }

  /** Each of the three split members owes a third of 10.00. */
  lemma DinnerShares()
    ensures DebitAll([Entry("a", 10.0), Entry("b", 0.0), Entry("c", 0.0)], ["a", "b", "c"], 10.0 / 3.0) == DinnerBalances()
  {
    var paid := [Entry("a", 10.0), Entry("b", 0.0), Entry("c", 0.0)];
    var ids: seq<MemberId> := ["a", "b", "c"];
    var share := 10.0 / 3.0;
    assert ids[..1] == ["a"] && ids[..2] == ["a", "b"];
    var one := [Entry("a", 20.0 / 3.0), Entry("b", 0.0), Entry("c", 0.0)];
    assert DebitAll(paid, ids[..1], share) == one;
    var two := [Entry("a", 20.0 / 3.0), Entry("b", -10.0 / 3.0), Entry("c", 0.0)];
    assert DebitAll(paid, ids[..2], share) == Set(one, "b", Get(one, "b") - share) == two;
    assert DebitAll(paid, ids, share) == Set(two, "c", Get(two, "c") - share);
  }

  /** The balances `computeBalances` reports for the dinner group. */
  lemma DinnerBalancesOf()
    ensures BalancesOf(ThreeWayDinner()) == DinnerBalances()
  {
    var g := ThreeWayDinner();
    var zero := [Entry("a", 0.0), Entry("b", 0.0), Entry("c", 0.0)];
    DinnerStartsAtZero();
    assert g.expenses[..0] == [];
    assert BalancesOf(g) == ApplyExpense(zero, g.expenses[0]);
    assert Set(zero, "a", Get(zero, "a") + 10.0) == [Entry("a", 10.0), Entry("b", 0.0), Entry("c", 0.0)];
    DinnerShares();
  }

  /** Rounded, `a` is owed 667 cents and the plan collects 333 from `b`, then 333 from `c`. */
  lemma DinnerPlan()
    ensures Cents(Get(DinnerBalances(), "a")) == 667
    ensures RoundedTotal(DinnerBalances()) == 1
    ensures PlanSettlements(DinnerBalances()) == [Settlement("b", "a", 333), Settlement("c", "a", 333)]
  {
    var b := DinnerBalances();
    assert Cents(20.0 / 3.0) == 667;
    assert Cents(-10.0 / 3.0) == -333;
    var cs := [Party("a", 667)];
    var ds := [Party("b", -333), Party("c", -333)];
    assert Classify(b) == Parties(cs, ds);
    assert SortedCreditors(b) == cs;
    assert SortedDebtors(b) == ds;
    assert Sweep(cs, ds) == [Settlement("b", "a", 333)] + Sweep([Party("a", 334)], [Party("c", -333)]);
    assert Sweep([Party("a", 334)], [Party("c", -333)]) == [Settlement("c", "a", 333)] + Sweep([Party("a", 1)], []);
  }

  /**
   * Rounding can leave a creditor short: `a` is owed 6.67 after rounding, the
   * two debtors owe 3.33 each, and the plan pays `a` 6.66, so one cent of
   * `a`'s rounded balance is never settled.
   */
  lemma ThreeWayDinnerKeepsACent()
    ensures var snap := SnapshotOf(ThreeWayDinner());
      && snap.balances == [Entry("a", 20.0 / 3.0), Entry("b", -10.0 / 3.0), Entry("c", -10.0 / 3.0)]
      && RoundedTotal(snap.balances) == 1
      && snap.settlements == [Settlement("b", "a", 333), Settlement("c", "a", 333)]
      && Cents(Get(snap.balances, "a")) - Received(snap.settlements, "a") + Paid(snap.settlements, "a") == 1
  {
    DinnerBalancesOf();
    DinnerPlan();
  }
}
