/**
 * Entities of a group and the balance calculator (`computeBalances`).
 *
 * The JavaScript `Map` that holds the balances is modelled as the list of its
 * entries in insertion order, which is the order `balances.entries()` yields.
 */
module Ledger {

  type MemberId = string

  datatype Member = Member(id: MemberId, name: string)

  datatype Expense = Expense(
    id: string,
    description: string,
    amount: real,
    paidBy: MemberId,
    splitBetween: seq<MemberId>,
    createdAt: string)

  datatype Group = Group(id: string, name: string, members: seq<Member>, expenses: seq<Expense>)

  predicate Distinct<T(==)>(s: seq<T>) {
    forall i, j :: 0 <= i < j < |s| ==> s[i] != s[j]
  }

  /** The ids of `ms`, in order. */
  function Ids(ms: seq<Member>): seq<MemberId> {
    seq(|ms|, i requires 0 <= i < |ms| => ms[i].id)
  }

  /** One `[memberId, balance]` entry of the balance map. */
  datatype Entry = Entry(memberId: MemberId, amount: real)

  /** The balance map: its entries in insertion order. */
  type Balances = seq<Entry>

  /** The keys of the map, in insertion order. */
  function Keys(b: Balances): seq<MemberId> {
    seq(|b|, i requires 0 <= i < |b| => b[i].memberId)
  }

  /** `balances.get(k) ?? 0` */
  function Get(b: Balances, k: MemberId): real {
    if b == [] then 0.0
    else if b[0].memberId == k then b[0].amount
    else Get(b[1..], k)
  }

  /** `balances.set(k, v)`: an existing key keeps its place, a new key goes last. */
  function Set(b: Balances, k: MemberId, v: real): Balances {
    if b == [] then [Entry(k, v)]
    else if b[0].memberId == k then [Entry(k, v)] + b[1..]
    else [b[0]] + Set(b[1..], k, v)
  }

  /** A key that is not in the map reads as 0. */
  lemma {:induction false} GetAbsent(b: Balances, k: MemberId)
    requires k !in Keys(b)
    ensures Get(b, k) == 0.0
  {
    if b != [] {
      assert Keys(b)[0] == b[0].memberId;
      assert Keys(b[1..]) == Keys(b)[1..];
      GetAbsent(b[1..], k);
    }
  }

  /** The sum of all balances in the map. */
  function Total(b: Balances): real {
    if b == [] then 0.0 else b[0].amount + Total(b[1..])
  }

  /** After `set(k, v)`, `get(k)` is `v` and every other key reads as before. */
  lemma {:induction false} SetGet(b: Balances, k: MemberId, v: real, k': MemberId)
    ensures Get(Set(b, k, v), k') == if k' == k then v else Get(b, k')
  {
    if b != [] && b[0].memberId != k {
      SetGet(b[1..], k, v, k');
      assert Set(b, k, v)[1..] == Set(b[1..], k, v);
    }
  }

  /** The keys of a map with a known first entry. */
  lemma KeysCons(e: Entry, b: Balances)
    ensures Keys([e] + b) == [e.memberId] + Keys(b)
  {
    var r := [e] + b;
    forall i | 0 <= i < |r| ensures Keys(r)[i] == ([e.memberId] + Keys(b))[i] {
      if i > 0 {
        assert r[i] == b[i - 1];
      }
    }
  }

  /** `set` keeps the keys in place and appends a key it has not seen. */
  lemma {:induction false} SetKeys(b: Balances, k: MemberId, v: real)
    ensures Keys(Set(b, k, v)) == if k in Keys(b) then Keys(b) else Keys(b) + [k]
  {
    if b == [] {
      assert Keys([Entry(k, v)]) == [k];
    } else {
      var rest := b[1..];
      assert b == [b[0]] + rest;
      KeysCons(b[0], rest);
      if b[0].memberId == k {
        KeysCons(Entry(k, v), rest);
        assert Keys(b)[0] == k;
      } else {
        var tail := Set(rest, k, v);
        KeysCons(b[0], tail);
        SetKeys(rest, k, v);
        assert k in Keys(b) <==> k in Keys(rest);
        if k !in Keys(rest) {
          assert [b[0].memberId] + (Keys(rest) + [k]) == ([b[0].memberId] + Keys(rest)) + [k];
        }
      }
    }
  }

  /** `set` moves the total by the difference between the new and the old value. */
  lemma {:induction false} SetTotal(b: Balances, k: MemberId, v: real)
    ensures Total(Set(b, k, v)) == Total(b) - Get(b, k) + v
  {
    if b != [] {
      if b[0].memberId == k {
        assert Set(b, k, v)[1..] == b[1..];
      } else {
        SetTotal(b[1..], k, v);
        assert Set(b, k, v)[1..] == Set(b[1..], k, v);
      }
    }
  }

  /** `set` never lists a key twice. */
  lemma SetDistinct(b: Balances, k: MemberId, v: real)
    requires Distinct(Keys(b))
    ensures Distinct(Keys(Set(b, k, v)))
  {
    SetKeys(b, k, v);
  }

  /** The first loop of `computeBalances`: every member starts at 0. */
  function InitBalances(ms: seq<Member>): Balances {
    if ms == [] then []
    else Set(InitBalances(ms[..|ms| - 1]), ms[|ms| - 1].id, 0.0)
  }

  /** The inner loop of `computeBalances`: each id in `ids` owes `share` more. */
  function DebitAll(b: Balances, ids: seq<MemberId>, share: real): Balances {
    if ids == [] then b
    else
      var r := DebitAll(b, ids[..|ids| - 1], share);
      Set(r, ids[|ids| - 1], Get(r, ids[|ids| - 1]) - share)
  }

  /** `amount / splitCount`, exact. */
  function Share(amount: real, splitCount: nat): real
    requires splitCount > 0
  {
    amount / splitCount as real
  }

  /**
   * One expense: the payer is credited the full amount and each split member
   * owes `amount / splitCount`. An expense with an empty split is skipped
   * entirely: nobody is credited or debited.
   */
  function ApplyExpense(b: Balances, e: Expense): Balances {
    if |e.splitBetween| == 0 then b
    else DebitAll(Set(b, e.paidBy, Get(b, e.paidBy) + e.amount), e.splitBetween, Share(e.amount, |e.splitBetween|))
  }

  /** The outer loop of `computeBalances`, over the expenses in insertion order. */
  function ApplyExpenses(b: Balances, es: seq<Expense>): Balances {
    if es == [] then b
    else ApplyExpense(ApplyExpenses(b, es[..|es| - 1]), es[|es| - 1])
  }

  /** The balances `computeBalances(group)` returns. */
  function BalancesOf(g: Group): Balances {
    ApplyExpenses(InitBalances(g.members), g.expenses)
  }

  /** `computeBalances(group)`: fills the map member by member, then expense by expense. */
  method ComputeBalances(g: Group) returns (balances: Balances)
    ensures balances == BalancesOf(g)
  {
    balances := [];
    for i := 0 to |g.members|
      invariant balances == InitBalances(g.members[..i])
    {
      InitStep(g.members, i);
      balances := Set(balances, g.members[i].id, 0.0);
    }
    assert g.members[..|g.members|] == g.members;
    ghost var init := balances;
    for i := 0 to |g.expenses|
      invariant balances == ApplyExpenses(init, g.expenses[..i])
    {
      var expense := g.expenses[i];
      ApplyStep(init, g.expenses, i);
      var splitCount := |expense.splitBetween|;
      ghost var before := balances;
      if splitCount == 0 {
        assert ApplyExpense(before, expense) == before;
        continue;
      }
      var share := Share(expense.amount, splitCount);
      balances := Set(balances, expense.paidBy, Get(balances, expense.paidBy) + expense.amount);
      balances := ChargeShares(balances, expense.splitBetween, share);
      assert balances == ApplyExpense(before, expense);
    }
    assert g.expenses[..|g.expenses|] == g.expenses;
  }

  /** The inner loop of `computeBalances`: each id in the split owes `share` more. */
  method ChargeShares(credited: Balances, ids: seq<MemberId>, share: real) returns (balances: Balances)
    ensures balances == DebitAll(credited, ids, share)
  {
    balances := credited;
    for k := 0 to |ids|
      invariant balances == DebitAll(credited, ids[..k], share)
    {
      var memberId := ids[k];
      DebitStep(credited, ids, k, share);
      balances := Set(balances, memberId, Get(balances, memberId) - share);
    }
    assert ids[..|ids|] == ids;
  }

  /** One turn of the first loop. */
  lemma InitStep(ms: seq<Member>, i: nat)
    requires i < |ms|
    ensures InitBalances(ms[..i + 1]) == Set(InitBalances(ms[..i]), ms[i].id, 0.0)
  {
    assert ms[..i + 1][..i] == ms[..i];
  }

  /** One turn of the outer expense loop. */
  lemma ApplyStep(b: Balances, es: seq<Expense>, i: nat)
    requires i < |es|
    ensures ApplyExpenses(b, es[..i + 1]) == ApplyExpense(ApplyExpenses(b, es[..i]), es[i])
  {
    assert es[..i + 1][..i] == es[..i];
  }

  /** One turn of the inner split loop. */
  lemma DebitStep(b: Balances, ids: seq<MemberId>, k: nat, share: real)
    requires k < |ids|
    ensures var r := DebitAll(b, ids[..k], share);
      DebitAll(b, ids[..k + 1], share) == Set(r, ids[k], Get(r, ids[k]) - share)
  {
    assert ids[..k + 1][..k] == ids[..k];
  }

  /** `n` shares of `share` each, added one by one as the inner loop does. */
  function Shares(n: nat, share: real): real {
    if n == 0 then 0.0 else Shares(n - 1, share) + share
  }

  lemma {:induction false} SharesAreProduct(n: nat, share: real)
    ensures Shares(n, share) == n as real * share
  {
    if n > 0 {
      SharesAreProduct(n - 1, share);
    }
  }

  /** `n` shares of `amount / n` add back up to exactly `amount`. */
  lemma SharesAddUp(amount: real, n: nat)
    requires n > 0
    ensures Shares(n, Share(amount, n)) == amount
  {
    SharesAreProduct(n, Share(amount, n));
  }

  /** Debiting `share` from each of `ids` lowers the total by `|ids|` shares. */
  lemma {:induction false} DebitAllTotal(b: Balances, ids: seq<MemberId>, share: real)
    ensures Total(DebitAll(b, ids, share)) == Total(b) - Shares(|ids|, share)
  {
    if ids != [] {
      var before := DebitAll(b, ids[..|ids| - 1], share);
      DebitAllTotal(b, ids[..|ids| - 1], share);
      SetTotal(before, ids[|ids| - 1], Get(before, ids[|ids| - 1]) - share);
    }
  }

  /** An expense moves money between members and never changes the total. */
  lemma ApplyExpenseTotal(b: Balances, e: Expense)
    ensures Total(ApplyExpense(b, e)) == Total(b)
  {
    if |e.splitBetween| != 0 {
      var n := |e.splitBetween|;
      SetTotal(b, e.paidBy, Get(b, e.paidBy) + e.amount);
      DebitAllTotal(Set(b, e.paidBy, Get(b, e.paidBy) + e.amount), e.splitBetween, Share(e.amount, n));
      SharesAddUp(e.amount, n);
    }
  }

  lemma {:induction false} ApplyExpensesTotal(b: Balances, es: seq<Expense>)
    ensures Total(ApplyExpenses(b, es)) == Total(b)
  {
    if es != [] {
      ApplyExpensesTotal(b, es[..|es| - 1]);
      ApplyExpenseTotal(ApplyExpenses(b, es[..|es| - 1]), es[|es| - 1]);
    }
  }

  /** Before any expense, every balance in the map is 0 and so is their sum. */
  lemma {:induction false} InitBalancesZero(ms: seq<Member>, k: MemberId)
    ensures Get(InitBalances(ms), k) == 0.0
    ensures Total(InitBalances(ms)) == 0.0
  {
    if ms != [] {
      var before := InitBalances(ms[..|ms| - 1]);
      InitBalancesZero(ms[..|ms| - 1], k);
      InitBalancesZero(ms[..|ms| - 1], ms[|ms| - 1].id);
      SetGet(before, ms[|ms| - 1].id, 0.0, k);
      SetTotal(before, ms[|ms| - 1].id, 0.0);
    }
  }

  /** The balances of a group always sum to exactly zero. */
  lemma ZeroSum(g: Group)
    ensures Total(BalancesOf(g)) == 0.0
  {
    InitBalancesZero(g.members, "");
    ApplyExpensesTotal(InitBalances(g.members), g.expenses);
  }

  /** The initial map lists every member id, and nothing else. */
  lemma {:induction false} InitBalancesKeySet(ms: seq<Member>)
    ensures forall k :: k in Keys(InitBalances(ms)) <==> k in Ids(ms)
  {
    if ms != [] {
      var prefix := ms[..|ms| - 1];
      var last := ms[|ms| - 1].id;
      InitBalancesKeySet(prefix);
      SetKeys(InitBalances(prefix), last, 0.0);
      assert Ids(ms) == Ids(prefix) + [last];
    }
  }

  lemma {:induction false} InitBalancesDistinct(ms: seq<Member>)
    ensures Distinct(Keys(InitBalances(ms)))
  {
    if ms != [] {
      InitBalancesDistinct(ms[..|ms| - 1]);
      SetDistinct(InitBalances(ms[..|ms| - 1]), ms[|ms| - 1].id, 0.0);
    }
  }

  /** With distinct member ids, the initial map lists the members in member order. */
  lemma {:induction false} InitBalancesInOrder(ms: seq<Member>)
    requires Distinct(Ids(ms))
    ensures Keys(InitBalances(ms)) == Ids(ms)
  {
    if ms != [] {
      var prefix := ms[..|ms| - 1];
      var last := ms[|ms| - 1].id;
      assert Ids(ms) == Ids(prefix) + [last];
      assert Distinct(Ids(prefix)) by {
        forall i, j | 0 <= i < j < |prefix| ensures Ids(prefix)[i] != Ids(prefix)[j] {
          assert Ids(ms)[i] != Ids(ms)[j];
        }
      }
      assert last !in Ids(prefix) by {
        forall i | 0 <= i < |prefix| ensures Ids(prefix)[i] != last {
          assert Ids(ms)[i] != Ids(ms)[|ms| - 1];
        }
      }
      InitBalancesInOrder(prefix);
      SetKeys(InitBalances(prefix), last, 0.0);
    }
  }

  lemma SetKeepsKey(b: Balances, k: MemberId, v: real, k': MemberId)
    requires k' in Keys(b)
    ensures k' in Keys(Set(b, k, v))
  {
    SetKeys(b, k, v);
  }

  /** Keys are never removed from the map. */
  lemma {:induction false} DebitAllKeepsKey(b: Balances, ids: seq<MemberId>, share: real, k: MemberId)
    requires k in Keys(b)
    ensures k in Keys(DebitAll(b, ids, share))
  {
    if ids != [] {
      var last, front := ids[|ids| - 1], ids[..|ids| - 1];
      var before := DebitAll(b, front, share);
      DebitAllKeepsKey(b, front, share, k);
      SetKeepsKey(before, last, Get(before, last) - share, k);
    }
  }

  /** One expense never removes a key. */
  lemma ApplyExpenseKeepsKey(b: Balances, e: Expense, k: MemberId)
    requires k in Keys(b)
    ensures k in Keys(ApplyExpense(b, e))
  {
    if |e.splitBetween| != 0 {
      var credited := Set(b, e.paidBy, Get(b, e.paidBy) + e.amount);
      SetKeepsKey(b, e.paidBy, Get(b, e.paidBy) + e.amount, k);
      DebitAllKeepsKey(credited, e.splitBetween, Share(e.amount, |e.splitBetween|), k);
    }
  }

  lemma {:induction false} ApplyExpensesKeepsKey(b: Balances, es: seq<Expense>, k: MemberId)
    requires k in Keys(b)
    ensures k in Keys(ApplyExpenses(b, es))
  {
    if es != [] {
      ApplyExpensesKeepsKey(b, es[..|es| - 1], k);
      ApplyExpenseKeepsKey(ApplyExpenses(b, es[..|es| - 1]), es[|es| - 1], k);
    }
  }

  /** Setting a key the map already has keeps its keys. */
  lemma SetSameKeys(b: Balances, k: MemberId, v: real)
    requires k in Keys(b)
    ensures Keys(Set(b, k, v)) == Keys(b)
  {
    SetKeys(b, k, v);
  }

  /** Debiting ids that are already keys adds no key. */
  lemma {:induction false} DebitAllSameKeys(b: Balances, ids: seq<MemberId>, share: real)
    requires forall i :: i in ids ==> i in Keys(b)
    ensures Keys(DebitAll(b, ids, share)) == Keys(b)
  {
    if ids != [] {
      var last, front := ids[|ids| - 1], ids[..|ids| - 1];
      var before := DebitAll(b, front, share);
      assert DebitAll(b, ids, share) == Set(before, last, Get(before, last) - share);
      assert last in ids;
      forall i | i in front ensures i in Keys(b) {
        assert i in ids;
      }
      DebitAllSameKeys(b, front, share);
      SetSameKeys(before, last, Get(before, last) - share);
    }
  }

  /** An expense whose payer and split ids are already keys adds no key. */
  lemma ApplyExpenseSameKeys(b: Balances, e: Expense)
    requires e.paidBy in Keys(b) && forall i :: i in e.splitBetween ==> i in Keys(b)
    ensures Keys(ApplyExpense(b, e)) == Keys(b)
  {
    if |e.splitBetween| != 0 {
      var credited := Set(b, e.paidBy, Get(b, e.paidBy) + e.amount);
      SetSameKeys(b, e.paidBy, Get(b, e.paidBy) + e.amount);
      DebitAllSameKeys(credited, e.splitBetween, Share(e.amount, |e.splitBetween|));
    }
  }

  /** Expenses whose payer and split ids are already keys add no key. */
  lemma {:induction false} ApplyExpensesSameKeys(b: Balances, es: seq<Expense>)
    requires forall e :: e in es ==> e.paidBy in Keys(b) && forall i :: i in e.splitBetween ==> i in Keys(b)
    ensures Keys(ApplyExpenses(b, es)) == Keys(b)
  {
    if es != [] {
      var e := es[|es| - 1];
      assert e in es;
      assert forall e' :: e' in es[..|es| - 1] ==> e' in es;
      ApplyExpensesSameKeys(b, es[..|es| - 1]);
      ApplyExpenseSameKeys(ApplyExpenses(b, es[..|es| - 1]), e);
    }
  }

  /** Every member has an entry in the map `computeBalances` returns. */
  lemma MembersHaveBalances(g: Group)
    ensures forall m :: m in g.members ==> m.id in Keys(BalancesOf(g))
  {
    InitBalancesKeySet(g.members);
    forall m | m in g.members ensures m.id in Keys(BalancesOf(g)) {
      var i :| 0 <= i < |g.members| && g.members[i] == m;
      assert Ids(g.members)[i] == m.id;
      ApplyExpensesKeepsKey(InitBalances(g.members), g.expenses, m.id);
    }
  }

  /**
   * When member ids are distinct and every payer and split id is a member,
   * the map holds exactly the members, in member order.
   */
  lemma KeysAreMembers(g: Group)
    requires Distinct(Ids(g.members))
    requires forall e :: e in g.expenses ==>
      e.paidBy in Ids(g.members) && forall k :: k in e.splitBetween ==> k in Ids(g.members)
    ensures Keys(BalancesOf(g)) == Ids(g.members)
  {
    InitBalancesInOrder(g.members);
    ApplyExpensesSameKeys(InitBalances(g.members), g.expenses);
  }

  /** When every payer and split id is a member, the map's keys are exactly the member ids. */
  lemma KeysAreMemberIds(g: Group)
    requires forall e :: e in g.expenses ==>
      e.paidBy in Ids(g.members) && forall k :: k in e.splitBetween ==> k in Ids(g.members)
    ensures forall k :: k in Keys(BalancesOf(g)) <==> k in Ids(g.members)
  {
    InitBalancesKeySet(g.members);
    ApplyExpensesSameKeys(InitBalances(g.members), g.expenses);
  }

  /** The map never lists a member id twice. */
  lemma BalancesDistinct(g: Group)
    ensures Distinct(Keys(BalancesOf(g)))
  {
    InitBalancesDistinct(g.members);
    ApplyExpensesDistinct(InitBalances(g.members), g.expenses);
  }

  lemma {:induction false} DebitAllDistinct(b: Balances, ids: seq<MemberId>, share: real)
    requires Distinct(Keys(b))
    ensures Distinct(Keys(DebitAll(b, ids, share)))
  {
    if ids != [] {
      var before := DebitAll(b, ids[..|ids| - 1], share);
      DebitAllDistinct(b, ids[..|ids| - 1], share);
      SetDistinct(before, ids[|ids| - 1], Get(before, ids[|ids| - 1]) - share);
    }
  }

  lemma {:induction false} ApplyExpensesDistinct(b: Balances, es: seq<Expense>)
    requires Distinct(Keys(b))
    ensures Distinct(Keys(ApplyExpenses(b, es)))
  {
    if es != [] {
      var e := es[|es| - 1];
      var before := ApplyExpenses(b, es[..|es| - 1]);
      ApplyExpensesDistinct(b, es[..|es| - 1]);
      if |e.splitBetween| != 0 {
        SetDistinct(before, e.paidBy, Get(before, e.paidBy) + e.amount);
        DebitAllDistinct(Set(before, e.paidBy, Get(before, e.paidBy) + e.amount), e.splitBetween, Share(e.amount, |e.splitBetween|));
      }
    }
  }

  /** A member who pays for and shares in no (non-empty-split) expense has balance exactly 0. */
  lemma UninvolvedMemberIsZero(g: Group, id: MemberId)
    requires forall e :: e in g.expenses ==> e.splitBetween == [] || (e.paidBy != id && id !in e.splitBetween)
    ensures Get(BalancesOf(g), id) == 0.0
  {
    InitBalancesZero(g.members, id);
    UninvolvedStaysPut(InitBalances(g.members), g.expenses, id);
  }

  lemma {:induction false} DebitAllSkips(b: Balances, ids: seq<MemberId>, share: real, k: MemberId)
    requires k !in ids
    ensures Get(DebitAll(b, ids, share), k) == Get(b, k)
  {
    if ids != [] {
      var before := DebitAll(b, ids[..|ids| - 1], share);
      DebitAllSkips(b, ids[..|ids| - 1], share, k);
      SetGet(before, ids[|ids| - 1], Get(before, ids[|ids| - 1]) - share, k);
    }
  }

  /** An expense that does not involve `id` leaves its balance alone. */
  lemma ApplyExpenseSkips(b: Balances, e: Expense, id: MemberId)
    requires e.splitBetween == [] || (e.paidBy != id && id !in e.splitBetween)
    ensures Get(ApplyExpense(b, e), id) == Get(b, id)
  {
    if |e.splitBetween| != 0 {
      var credited := Set(b, e.paidBy, Get(b, e.paidBy) + e.amount);
      SetGet(b, e.paidBy, Get(b, e.paidBy) + e.amount, id);
      DebitAllSkips(credited, e.splitBetween, Share(e.amount, |e.splitBetween|), id);
    }
  }

  lemma {:induction false} UninvolvedStaysPut(b: Balances, es: seq<Expense>, id: MemberId)
    requires forall e :: e in es ==> e.splitBetween == [] || (e.paidBy != id && id !in e.splitBetween)
    ensures Get(ApplyExpenses(b, es), id) == Get(b, id)
  {
    if es != [] {
      var e := es[|es| - 1];
      assert e in es;
      forall e' | e' in es[..|es| - 1] ensures e'.splitBetween == [] || (e'.paidBy != id && id !in e'.splitBetween) {
        assert e' in es;
      }
      UninvolvedStaysPut(b, es[..|es| - 1], id);
      ApplyExpenseSkips(ApplyExpenses(b, es[..|es| - 1]), e, id);
    }
  }

  // ---------------------------------------------------------------------------
  // Each member's balance in closed form

  /** How many times `k` occurs in `ids`. */
  function Count(ids: seq<MemberId>, k: MemberId): nat {
    if ids == [] then 0
    else Count(ids[..|ids| - 1], k) + (if ids[|ids| - 1] == k then 1 else 0)
  }

  /** `Count` is the multiplicity of `k` in `ids`. */
  lemma {:induction false} CountIsMultiplicity(ids: seq<MemberId>, k: MemberId)
    ensures Count(ids, k) == multiset(ids)[k]
  {
    if ids != [] {
      CountIsMultiplicity(ids[..|ids| - 1], k);
      assert ids == ids[..|ids| - 1] + [ids[|ids| - 1]];
    }
  }

  /**
   * What one expense does to member `id`: the payer gains the full amount and
   * each occurrence of `id` in the split costs one share. An expense with an
   * empty split does nothing.
   */
  function ExpenseNet(e: Expense, id: MemberId): real {
    if |e.splitBetween| == 0 then 0.0
    else
      (if e.paidBy == id then e.amount else 0.0)
      - Shares(Count(e.splitBetween, id), Share(e.amount, |e.splitBetween|))
  }

  /** What the expenses `es` do to member `id`, added up. */
  function NetOf(es: seq<Expense>, id: MemberId): real {
    if es == [] then 0.0 else NetOf(es[..|es| - 1], id) + ExpenseNet(es[|es| - 1], id)
  }

  /** The inner loop debits `k` one share per occurrence of `k` in `ids`. */
  lemma {:induction false} DebitAllGet(b: Balances, ids: seq<MemberId>, share: real, k: MemberId)
    ensures Get(DebitAll(b, ids, share), k) == Get(b, k) - Shares(Count(ids, k), share)
  {
    if ids != [] {
      var last := ids[|ids| - 1];
      var before := DebitAll(b, ids[..|ids| - 1], share);
      DebitAllGet(b, ids[..|ids| - 1], share, k);
      SetGet(before, last, Get(before, last) - share, k);
    }
  }

  /** One expense changes member `id`'s balance by exactly `ExpenseNet(e, id)`. */
  lemma ApplyExpenseGet(b: Balances, e: Expense, id: MemberId)
    ensures Get(ApplyExpense(b, e), id) == Get(b, id) + ExpenseNet(e, id)
  {
    if |e.splitBetween| != 0 {
      var credited := Set(b, e.paidBy, Get(b, e.paidBy) + e.amount);
      SetGet(b, e.paidBy, Get(b, e.paidBy) + e.amount, id);
      DebitAllGet(credited, e.splitBetween, Share(e.amount, |e.splitBetween|), id);
    }
  }

  /** The expenses change member `id`'s balance by exactly `NetOf(es, id)`. */
  lemma {:induction false} ApplyExpensesGet(b: Balances, es: seq<Expense>, id: MemberId)
    ensures Get(ApplyExpenses(b, es), id) == Get(b, id) + NetOf(es, id)
  {
    if es != [] {
      ApplyExpensesGet(b, es[..|es| - 1], id);
      ApplyExpenseGet(ApplyExpenses(b, es[..|es| - 1]), es[|es| - 1], id);
    }
  }

  /**
   * A member's balance is what they paid, less one share of every expense
   * they are split into, counted once per time they appear in that split.
   */
  lemma BalanceIsNet(g: Group, id: MemberId)
    ensures Get(BalancesOf(g), id) == NetOf(g.expenses, id)
  {
    InitBalancesZero(g.members, id);
    ApplyExpensesGet(InitBalances(g.members), g.expenses, id);
  }
}
