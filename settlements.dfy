/**
 * `computeSettlements`: who pays whom so that the group is square.
 *
 * Balances are rounded to cents; members at least a cent in credit become
 * creditors and members at least a cent in debt become debtors. Creditors
 * are taken largest credit first and debtors largest debt first, and a
 * greedy sweep pairs the current creditor with the current debtor, paying
 * the smaller of the two amounts and moving past whichever is settled.
 *
 * After rounding every amount here is a whole number of cents, so the
 * parties carry integer cents; the thresholds `> 0.009`, `< -0.009`,
 * `<= 0.009` and `>= -0.009` on such amounts are `>= 1`, `<= -1`, `<= 0`
 * and `>= 0` cents (`Money.DeadZone`, `Money.DeadZoneOnCents`), and the
 * sweep's `Math.round(... * 100) / 100` on whole-cent amounts changes nothing
 * (`Money.WholeCentsAreFixed`), so the sweep adds and subtracts cents exactly.
 */
module Settlements {
  import opened Money
  import opened Ledger
  import opened Sorting

  /** A creditor or debtor: a member and their rounded balance, in cents. */
  datatype Party = Party(memberId: MemberId, amount: int)

  /** `from` owes `to` the given number of cents (the server reports `Dollars(cents)`). */
  datatype Settlement = Settlement(from: MemberId, to: MemberId, cents: int)

  /** The creditors and the debtors, each in balance-map order. */
  datatype Parties = Parties(creditors: seq<Party>, debtors: seq<Party>)

  /** Creditors are sorted by `b.amount - a.amount`: largest credit first. */
  function CreditRank(p: Party): int {
    p.amount
  }

  /** Debtors are sorted by `a.amount - b.amount`: most negative first. */
  function DebtRank(p: Party): int {
    -p.amount
  }

  /** The classification loop over the balance map's entries. */
  function Classify(b: Balances): Parties {
    if b == [] then Parties([], [])
    else
      var rest := Classify(b[1..]);
      var rounded := Cents(b[0].amount);
      if rounded >= 1 then rest.(creditors := [Party(b[0].memberId, rounded)] + rest.creditors)
      else if rounded <= -1 then rest.(debtors := [Party(b[0].memberId, rounded)] + rest.debtors)
      else rest
  }

  function Min(a: int, b: int): int {
    if a <= b then a else b
  }

  /** `Math.min(c.amount, -d.amount)` for the current creditor and debtor. */
  function PayOf(cs: seq<Party>, ds: seq<Party>): int
    requires cs != [] && ds != []
  {
    Min(cs[0].amount, -ds[0].amount)
  }

  /** What one turn of the sweep records: a settlement when `pay` is at least a cent. */
  function Emitted(cs: seq<Party>, ds: seq<Party>): seq<Settlement>
    requires cs != [] && ds != []
  {
    var pay := PayOf(cs, ds);
    if pay >= 1 then [Settlement(ds[0].memberId, cs[0].memberId, pay)] else []
  }

  /** The creditors after one turn: the current one is reduced by `pay` and passed once nothing is left. */
  function NextCreditors(cs: seq<Party>, ds: seq<Party>): seq<Party>
    requires cs != [] && ds != []
  {
    var pay := PayOf(cs, ds);
    var c := if pay >= 1 then cs[0].amount - pay else cs[0].amount;
    if c <= 0 then cs[1..] else [cs[0].(amount := c)] + cs[1..]
  }

  /** The debtors after one turn: the current one is relieved by `pay` and passed once nothing is owed. */
  function NextDebtors(cs: seq<Party>, ds: seq<Party>): seq<Party>
    requires cs != [] && ds != []
  {
    var pay := PayOf(cs, ds);
    var d := if pay >= 1 then ds[0].amount + pay else ds[0].amount;
    if d >= 0 then ds[1..] else [ds[0].(amount := d)] + ds[1..]
  }

  /** The settlements the greedy sweep records from the remaining creditors `cs` and debtors `ds`. */
  function Sweep(cs: seq<Party>, ds: seq<Party>): seq<Settlement>
    decreases |cs| + |ds|
  {
    if cs == [] || ds == [] then []
    else Emitted(cs, ds) + Sweep(NextCreditors(cs, ds), NextDebtors(cs, ds))
  }

  function SortedCreditors(b: Balances): seq<Party> {
    SortBy(Classify(b).creditors, CreditRank)
  }

  function SortedDebtors(b: Balances): seq<Party> {
    SortBy(Classify(b).debtors, DebtRank)
  }

  /** The settlement plan for a balance map. */
  function PlanSettlements(b: Balances): seq<Settlement> {
    Sweep(SortedCreditors(b), SortedDebtors(b))
  }

  /** The settlement plan for a group. */
  function SettlementsOf(g: Group): seq<Settlement> {
    PlanSettlements(BalancesOf(g))
  }

  lemma AppendAssoc<T>(a: seq<T>, b: seq<T>, c: seq<T>)
    ensures (a + b) + c == a + (b + c)
  {
  }

  /**
   * One turn of the sweep loop on the arrays: with `c`, `d` the current
   * creditor and debtor and `creditors'`, `debtors'` the arrays after the turn,
   * the settlements still to come are what this turn records followed by the
   * sweep of what is left.
   */
  lemma LoopTurn(creditors: seq<Party>, debtors: seq<Party>, i: nat, j: nat, c: Party, d: Party, pay: int,
                 creditors': seq<Party>, debtors': seq<Party>)
    requires i < |creditors| && j < |debtors| && c == creditors[i] && d == debtors[j]
    requires pay == Min(c.amount, -d.amount)
    requires pay >= 1 ==> creditors' == creditors[i := c.(amount := c.amount - pay)]
    requires pay >= 1 ==> debtors' == debtors[j := d.(amount := d.amount + pay)]
    requires pay < 1 ==> creditors' == creditors && debtors' == debtors
    ensures var i' := if creditors'[i].amount <= 0 then i + 1 else i;
      var j' := if debtors'[j].amount >= 0 then j + 1 else j;
      Sweep(creditors[i..], debtors[j..]) ==
        (if pay >= 1 then [Settlement(d.memberId, c.memberId, pay)] else []) + Sweep(creditors'[i'..], debtors'[j'..])
  {
    var cs, ds := creditors[i..], debtors[j..];
    assert cs[0] == c && ds[0] == d && PayOf(cs, ds) == pay;
    CreditorsAfterTurn(creditors, debtors, i, j, pay, creditors');
    DebtorsAfterTurn(creditors, debtors, i, j, pay, debtors');
  }

  lemma CreditorsAfterTurn(creditors: seq<Party>, debtors: seq<Party>, i: nat, j: nat, pay: int, creditors': seq<Party>)
    requires i < |creditors| && j < |debtors|
    requires pay == PayOf(creditors[i..], debtors[j..])
    requires pay >= 1 ==> creditors' == creditors[i := creditors[i].(amount := creditors[i].amount - pay)]
    requires pay < 1 ==> creditors' == creditors
    ensures var i' := if creditors'[i].amount <= 0 then i + 1 else i;
      creditors'[i'..] == NextCreditors(creditors[i..], debtors[j..])
  {
    var cs := creditors[i..];
    assert creditors'[i + 1..] == cs[1..];
    assert creditors'[i..] == [creditors'[i]] + cs[1..];
  }

  lemma DebtorsAfterTurn(creditors: seq<Party>, debtors: seq<Party>, i: nat, j: nat, pay: int, debtors': seq<Party>)
    requires i < |creditors| && j < |debtors|
    requires pay == PayOf(creditors[i..], debtors[j..])
    requires pay >= 1 ==> debtors' == debtors[j := debtors[j].(amount := debtors[j].amount + pay)]
    requires pay < 1 ==> debtors' == debtors
    ensures var j' := if debtors'[j].amount >= 0 then j + 1 else j;
      debtors'[j'..] == NextDebtors(creditors[i..], debtors[j..])
  {
    var ds := debtors[j..];
    assert debtors'[j + 1..] == ds[1..];
    assert debtors'[j..] == [debtors'[j]] + ds[1..];
  }

  /** The sweep loop's invariant survives one turn. */
  lemma TurnKeepsInvariant(creditors: seq<Party>, debtors: seq<Party>, i: nat, j: nat, c: Party, d: Party, pay: int,
                           creditors': seq<Party>, debtors': seq<Party>, i': nat, j': nat,
                           before: seq<Settlement>, settlements: seq<Settlement>, total: seq<Settlement>)
    requires i < |creditors| && j < |debtors| && c == creditors[i] && d == debtors[j]
    requires pay == Min(c.amount, -d.amount)
    requires pay >= 1 ==> creditors' == creditors[i := c.(amount := c.amount - pay)]
    requires pay >= 1 ==> debtors' == debtors[j := d.(amount := d.amount + pay)]
    requires pay >= 1 ==> settlements == before + [Settlement(d.memberId, c.memberId, pay)]
    requires pay < 1 ==> creditors' == creditors && debtors' == debtors && settlements == before
    requires i' == if creditors'[i].amount <= 0 then i + 1 else i
    requires j' == if debtors'[j].amount >= 0 then j + 1 else j
    requires before + Sweep(creditors[i..], debtors[j..]) == total
    ensures i' <= |creditors'| && j' <= |debtors'|
    ensures settlements + Sweep(creditors'[i'..], debtors'[j'..]) == total
  {
    var emitted := if pay >= 1 then [Settlement(d.memberId, c.memberId, pay)] else [];
    assert settlements == before + emitted by {
      if pay < 1 {
        assert before + [] == before;
      }
    }
    LoopTurn(creditors, debtors, i, j, c, d, pay, creditors', debtors');
    AppendAssoc(before, emitted, Sweep(creditors'[i'..], debtors'[j'..]));
  }

  /** `computeSettlements(group)`: classify, sort, then sweep. */
  method ComputeSettlements(g: Group) returns (settlements: seq<Settlement>)
    ensures settlements == SettlementsOf(g)
  {
    var balances := ComputeBalances(g);
    var parties := ClassifyBalances(balances);
    var creditors := SortBy(parties.creditors, CreditRank);
    var debtors := SortBy(parties.debtors, DebtRank);
    settlements := SweepParties(creditors, debtors);
  }

  /** The loop that sorts the balance map's entries into creditors and debtors. */
  method ClassifyBalances(balances: Balances) returns (parties: Parties)
    ensures parties == Classify(balances)
  {
    var creditors: seq<Party> := [];
    var debtors: seq<Party> := [];
    assert balances[0..] == balances;
    for k := 0 to |balances|
      invariant Classify(balances) == Parties(creditors + Classify(balances[k..]).creditors,
                                              debtors + Classify(balances[k..]).debtors)
    {
      assert balances[k..][0] == balances[k] && balances[k..][1..] == balances[k + 1..];
      var memberId := balances[k].memberId;
      var rounded := Round2(balances[k].amount);
      DeadZone(balances[k].amount);
      Round2Nearest(balances[k].amount);
      if rounded > 0.009 {
        creditors := creditors + [Party(memberId, Cents(rounded))];
      } else if rounded < -0.009 {
        debtors := debtors + [Party(memberId, Cents(rounded))];
      }
    }
    assert creditors + [] == creditors && debtors + [] == debtors;
    parties := Parties(creditors, debtors);
  }

  /** The `while` loop that pairs creditors with debtors, updating their amounts in place. */
  method SweepParties(creditors0: seq<Party>, debtors0: seq<Party>) returns (settlements: seq<Settlement>)
    ensures settlements == Sweep(creditors0, debtors0)
  {
    var creditors, debtors := creditors0, debtors0;
    settlements := [];
    var i, j := 0, 0;
    while i < |creditors| && j < |debtors|
      invariant 0 <= i <= |creditors| && 0 <= j <= |debtors|
      invariant settlements + Sweep(creditors[i..], debtors[j..]) == Sweep(creditors0, debtors0)
      decreases |creditors| - i + |debtors| - j
    {
      ghost var creditors1, debtors1, before := creditors, debtors, settlements;
      var c := creditors[i];
      var d := debtors[j];
      var pay := Min(c.amount, -d.amount);
      if pay >= 1 {
        settlements := settlements + [Settlement(d.memberId, c.memberId, pay)];
        creditors := creditors[i := c.(amount := c.amount - pay)];
        debtors := debtors[j := d.(amount := d.amount + pay)];
      }
      ghost var i0, j0 := i, j;
      if creditors[i].amount <= 0 {
        i := i + 1;
      }
      if debtors[j].amount >= 0 {
        j := j + 1;
      }
      TurnKeepsInvariant(creditors1, debtors1, i0, j0, c, d, pay, creditors, debtors, i, j,
                         before, settlements, Sweep(creditors0, debtors0));
    }
  }

  // ---------------------------------------------------------------------------
  // Sums over parties and settlements

  /** The ids of `ps`, in order. */
  function PartyIds(ps: seq<Party>): seq<MemberId> {
    seq(|ps|, i requires 0 <= i < |ps| => ps[i].memberId)
  }

  /** The cents `ps` holds for member `id`. */
  function AmountOf(ps: seq<Party>, id: MemberId): int {
    if ps == [] then 0
    else (if ps[0].memberId == id then ps[0].amount else 0) + AmountOf(ps[1..], id)
  }

  /** The cents `ps` holds altogether. */
  function SumCents(ps: seq<Party>): int {
    if ps == [] then 0 else ps[0].amount + SumCents(ps[1..])
  }

  predicate AllCredit(ps: seq<Party>) {
    forall p :: p in ps ==> p.amount >= 1
  }

  predicate AllDebt(ps: seq<Party>) {
    forall p :: p in ps ==> p.amount <= -1
  }

  /** The cents `ss` has member `id` receive. */
  function Received(ss: seq<Settlement>, id: MemberId): int {
    if ss == [] then 0
    else (if ss[0].to == id then ss[0].cents else 0) + Received(ss[1..], id)
  }

  /** The cents `ss` has member `id` pay. */
  function Paid(ss: seq<Settlement>, id: MemberId): int {
    if ss == [] then 0
    else (if ss[0].from == id then ss[0].cents else 0) + Paid(ss[1..], id)
  }

  /** The balances rounded to cents, added up. */
  function RoundedTotal(b: Balances): int {
    if b == [] then 0 else Cents(b[0].amount) + RoundedTotal(b[1..])
  }

  lemma {:induction false} CreditIsPositive(ps: seq<Party>, id: MemberId)
    requires AllCredit(ps)
    ensures AmountOf(ps, id) >= 0 && SumCents(ps) >= |ps|
    ensures id in PartyIds(ps) ==> AmountOf(ps, id) >= 1
  {
    if ps != [] {
      CreditIsPositive(ps[1..], id);
      assert id in PartyIds(ps) && ps[0].memberId != id ==> id in PartyIds(ps[1..]) by {
        if id in PartyIds(ps) && ps[0].memberId != id {
          var k :| 0 <= k < |ps| && PartyIds(ps)[k] == id;
          assert PartyIds(ps[1..])[k - 1] == id;
        }
      }
    }
  }

  lemma {:induction false} DebtIsNegative(ps: seq<Party>, id: MemberId)
    requires AllDebt(ps)
    ensures AmountOf(ps, id) <= 0 && SumCents(ps) <= -|ps|
    ensures id in PartyIds(ps) ==> AmountOf(ps, id) <= -1
  {
    if ps != [] {
      DebtIsNegative(ps[1..], id);
      assert id in PartyIds(ps) && ps[0].memberId != id ==> id in PartyIds(ps[1..]) by {
        if id in PartyIds(ps) && ps[0].memberId != id {
          var k :| 0 <= k < |ps| && PartyIds(ps)[k] == id;
          assert PartyIds(ps[1..])[k - 1] == id;
        }
      }
    }
  }

  // ---------------------------------------------------------------------------
  // Classification

  /** Creditors hold at least a cent and debtors owe at least a cent; no entry yields two parties. */
  lemma {:induction false} ClassifySigns(b: Balances)
    ensures AllCredit(Classify(b).creditors) && AllDebt(Classify(b).debtors)
    ensures |Classify(b).creditors| + |Classify(b).debtors| <= |b|
  {
    if b != [] {
      ClassifySigns(b[1..]);
    }
  }

  /**
   * With one entry per member, a member's credit is their rounded balance when
   * that is at least a cent and nothing otherwise; likewise for debt.
   */
  lemma {:induction false} ClassifyAmounts(b: Balances, id: MemberId)
    requires Distinct(Keys(b))
    ensures AmountOf(Classify(b).creditors, id) == if Cents(Get(b, id)) >= 1 then Cents(Get(b, id)) else 0
    ensures AmountOf(Classify(b).debtors, id) == if Cents(Get(b, id)) <= -1 then Cents(Get(b, id)) else 0
  {
    if b != [] {
      assert Keys(b[1..]) == Keys(b)[1..];
      ClassifyAmounts(b[1..], id);
      if b[0].memberId == id {
        assert Keys(b)[0] == id;
        forall k | 0 <= k < |b| - 1 ensures Keys(b[1..])[k] != id {
          assert Keys(b[1..])[k] == Keys(b)[k + 1];
        }
        GetAbsent(b[1..], id);
      }
    }
  }

  /** Between them the parties hold the rounded total of the balances. */
  lemma {:induction false} ClassifyTotal(b: Balances)
    ensures SumCents(Classify(b).creditors) + SumCents(Classify(b).debtors) == RoundedTotal(b)
  {
    if b != [] {
      ClassifyTotal(b[1..]);
    }
  }

  // ---------------------------------------------------------------------------
  // Sorting keeps the parties

  lemma {:induction false} InsertKeepsAmounts(x: Party, s: seq<Party>, rank: Party -> int, id: MemberId)
    ensures AmountOf(Insert(x, s, rank), id) == (if x.memberId == id then x.amount else 0) + AmountOf(s, id)
    ensures SumCents(Insert(x, s, rank)) == x.amount + SumCents(s)
  {
    if s == [] || rank(s[0]) <= rank(x) {
      assert ([x] + s)[1..] == s;
    } else {
      InsertKeepsAmounts(x, s[1..], rank, id);
      assert ([s[0]] + Insert(x, s[1..], rank))[1..] == Insert(x, s[1..], rank);
    }
  }

  /** Sorting moves parties around but keeps every member's amount and the total. */
  lemma {:induction false} SortKeepsAmounts(s: seq<Party>, rank: Party -> int, id: MemberId)
    ensures AmountOf(SortBy(s, rank), id) == AmountOf(s, id)
    ensures SumCents(SortBy(s, rank)) == SumCents(s)
  {
    if s != [] {
      SortKeepsAmounts(s[1..], rank, id);
      InsertKeepsAmounts(s[0], SortBy(s[1..], rank), rank, id);
    }
  }

  lemma SortKeepsSigns(s: seq<Party>, rank: Party -> int)
    ensures AllCredit(s) ==> AllCredit(SortBy(s, rank))
    ensures AllDebt(s) ==> AllDebt(SortBy(s, rank))
    ensures |SortBy(s, rank)| == |s|
  {
    var r := SortBy(s, rank);
    assert |r| == |multiset(r)| == |multiset(s)| == |s|;
    forall p | p in r ensures p in s {
      assert p in multiset(r);
    }
  }

  // ---------------------------------------------------------------------------
  // The sweep

  lemma {:induction false} ReceivedAppend(a: seq<Settlement>, b: seq<Settlement>, id: MemberId)
    ensures Received(a + b, id) == Received(a, id) + Received(b, id)
  {
    if a == [] {
      assert a + b == b;
    } else {
      assert (a + b)[1..] == a[1..] + b;
      ReceivedAppend(a[1..], b, id);
    }
  }

  lemma {:induction false} PaidAppend(a: seq<Settlement>, b: seq<Settlement>, id: MemberId)
    ensures Paid(a + b, id) == Paid(a, id) + Paid(b, id)
  {
    if a == [] {
      assert a + b == b;
    } else {
      assert (a + b)[1..] == a[1..] + b;
      PaidAppend(a[1..], b, id);
    }
  }

  /** Each turn moves past the current creditor, the current debtor, or both. */
  lemma NextShrinks(cs: seq<Party>, ds: seq<Party>)
    requires cs != [] && ds != []
    ensures |NextCreditors(cs, ds)| + |NextDebtors(cs, ds)| < |cs| + |ds|
  {
  }

  /** The ids left after a turn are ids that were there before. */
  lemma NextIds(cs: seq<Party>, ds: seq<Party>)
    requires cs != [] && ds != []
    ensures forall id :: id in PartyIds(NextCreditors(cs, ds)) ==> id in PartyIds(cs)
    ensures forall id :: id in PartyIds(NextDebtors(cs, ds)) ==> id in PartyIds(ds)
  {
    forall id | id in PartyIds(NextCreditors(cs, ds)) ensures id in PartyIds(cs) {
      var k :| 0 <= k < |NextCreditors(cs, ds)| && PartyIds(NextCreditors(cs, ds))[k] == id;
      if |NextCreditors(cs, ds)| < |cs| {
        assert PartyIds(cs)[k + 1] == id;
      } else {
        assert PartyIds(cs)[k] == id;
      }
    }
    forall id | id in PartyIds(NextDebtors(cs, ds)) ensures id in PartyIds(ds) {
      var k :| 0 <= k < |NextDebtors(cs, ds)| && PartyIds(NextDebtors(cs, ds))[k] == id;
      if |NextDebtors(cs, ds)| < |ds| {
        assert PartyIds(ds)[k + 1] == id;
      } else {
        assert PartyIds(ds)[k] == id;
      }
    }
  }

  /**
   * Every recorded settlement runs from a debtor to a creditor and is at
   * least a cent, and each turn records at most one.
   */
  lemma {:induction false} SweepShape(cs: seq<Party>, ds: seq<Party>)
    ensures |Sweep(cs, ds)| <= |cs| + |ds|
    ensures forall s :: s in Sweep(cs, ds) ==>
      s.from in PartyIds(ds) && s.to in PartyIds(cs) && s.cents >= 1
    decreases |cs| + |ds|
  {
    if cs != [] && ds != [] {
      var cs', ds' := NextCreditors(cs, ds), NextDebtors(cs, ds);
      NextShrinks(cs, ds);
      NextIds(cs, ds);
      SweepShape(cs', ds');
      assert PartyIds(cs)[0] == cs[0].memberId && PartyIds(ds)[0] == ds[0].memberId;
      assert Sweep(cs, ds) == Emitted(cs, ds) + Sweep(cs', ds');
    }
  }

  /** Between creditors and debtors a turn always pays, and takes exactly `pay` cents off the creditor. */
  lemma StepPays(cs: seq<Party>, ds: seq<Party>, id: MemberId)
    requires cs != [] && ds != [] && AllCredit(cs) && AllDebt(ds)
    ensures PayOf(cs, ds) >= 1
    ensures AllCredit(NextCreditors(cs, ds))
    ensures AmountOf(NextCreditors(cs, ds), id) == AmountOf(cs, id) - if cs[0].memberId == id then PayOf(cs, ds) else 0
    ensures SumCents(NextCreditors(cs, ds)) == SumCents(cs) - PayOf(cs, ds)
  {
    assert cs[0] in cs && ds[0] in ds;
    var n := NextCreditors(cs, ds);
    if |n| == |cs| {
      assert n[1..] == cs[1..];
    }
  }

  /** ... and takes exactly `pay` cents off the debtor's debt. */
  lemma StepRelieves(cs: seq<Party>, ds: seq<Party>, id: MemberId)
    requires cs != [] && ds != [] && AllCredit(cs) && AllDebt(ds)
    ensures AllDebt(NextDebtors(cs, ds))
    ensures AmountOf(NextDebtors(cs, ds), id) == AmountOf(ds, id) + if ds[0].memberId == id then PayOf(cs, ds) else 0
    ensures SumCents(NextDebtors(cs, ds)) == SumCents(ds) + PayOf(cs, ds)
  {
    assert cs[0] in cs && ds[0] in ds;
    var n := NextDebtors(cs, ds);
    if |n| == |ds| {
      assert n[1..] == ds[1..];
    }
  }

  /** What a turn that pays adds to what member `id` receives. */
  lemma ReceivedStep(cs: seq<Party>, ds: seq<Party>, id: MemberId)
    requires cs != [] && ds != [] && PayOf(cs, ds) >= 1
    ensures Received(Sweep(cs, ds), id) ==
      (if cs[0].memberId == id then PayOf(cs, ds) else 0) + Received(Sweep(NextCreditors(cs, ds), NextDebtors(cs, ds)), id)
  {
    var rest := Sweep(NextCreditors(cs, ds), NextDebtors(cs, ds));
    assert Sweep(cs, ds) == Emitted(cs, ds) + rest;
    ReceivedAppend(Emitted(cs, ds), rest, id);
  }

  /** What a turn that pays adds to what member `id` pays. */
  lemma PaidStep(cs: seq<Party>, ds: seq<Party>, id: MemberId)
    requires cs != [] && ds != [] && PayOf(cs, ds) >= 1
    ensures Paid(Sweep(cs, ds), id) ==
      (if ds[0].memberId == id then PayOf(cs, ds) else 0) + Paid(Sweep(NextCreditors(cs, ds), NextDebtors(cs, ds)), id)
  {
    var rest := Sweep(NextCreditors(cs, ds), NextDebtors(cs, ds));
    assert Sweep(cs, ds) == Emitted(cs, ds) + rest;
    PaidAppend(Emitted(cs, ds), rest, id);
  }

  /** Nobody receives more than their credit. */
  lemma {:induction false} SweepReceivesAtMost(cs: seq<Party>, ds: seq<Party>, id: MemberId)
    requires AllCredit(cs) && AllDebt(ds)
    ensures 0 <= Received(Sweep(cs, ds), id) <= AmountOf(cs, id)
    decreases |cs| + |ds|
  {
    CreditIsPositive(cs, id);
    if cs != [] && ds != [] {
      StepPays(cs, ds, id);
      StepRelieves(cs, ds, id);
      NextShrinks(cs, ds);
      SweepReceivesAtMost(NextCreditors(cs, ds), NextDebtors(cs, ds), id);
      ReceivedStep(cs, ds, id);
    }
  }

  /** Nobody pays more than their debt. */
  lemma {:induction false} SweepPaysAtMost(cs: seq<Party>, ds: seq<Party>, id: MemberId)
    requires AllCredit(cs) && AllDebt(ds)
    ensures 0 <= Paid(Sweep(cs, ds), id) <= -AmountOf(ds, id)
    decreases |cs| + |ds|
  {
    DebtIsNegative(ds, id);
    if cs != [] && ds != [] {
      StepPays(cs, ds, id);
      StepRelieves(cs, ds, id);
      NextShrinks(cs, ds);
      SweepPaysAtMost(NextCreditors(cs, ds), NextDebtors(cs, ds), id);
      PaidStep(cs, ds, id);
    }
  }

  /** When the debts cover the credits, every creditor receives all of their credit. */
  lemma {:induction false} SweepReceivesAll(cs: seq<Party>, ds: seq<Party>, id: MemberId)
    requires AllCredit(cs) && AllDebt(ds)
    requires SumCents(cs) + SumCents(ds) <= 0
    ensures Received(Sweep(cs, ds), id) == AmountOf(cs, id)
    decreases |cs| + |ds|
  {
    CreditIsPositive(cs, id);
    DebtIsNegative(ds, id);
    if cs != [] && ds != [] {
      StepPays(cs, ds, id);
      StepRelieves(cs, ds, id);
      NextShrinks(cs, ds);
      SweepReceivesAll(NextCreditors(cs, ds), NextDebtors(cs, ds), id);
      ReceivedStep(cs, ds, id);
    }
  }

  /** When the credits cover the debts, every debtor pays all of their debt. */
  lemma {:induction false} SweepPaysAll(cs: seq<Party>, ds: seq<Party>, id: MemberId)
    requires AllCredit(cs) && AllDebt(ds)
    requires SumCents(cs) + SumCents(ds) >= 0
    ensures Paid(Sweep(cs, ds), id) == -AmountOf(ds, id)
    decreases |cs| + |ds|
  {
    CreditIsPositive(cs, id);
    DebtIsNegative(ds, id);
    if cs != [] && ds != [] {
      StepPays(cs, ds, id);
      StepRelieves(cs, ds, id);
      NextShrinks(cs, ds);
      SweepPaysAll(NextCreditors(cs, ds), NextDebtors(cs, ds), id);
      PaidStep(cs, ds, id);
    }
  }

  // ---------------------------------------------------------------------------
  // The plan for a balance map

  /**
   * Every settlement of the plan is at least a cent, from a member whose
   * rounded balance is at least a cent in debt to one at least a cent in
   * credit (so never from a member to themselves), and there are no more
   * settlements than entries in the map.
   */
  lemma PlanShape(b: Balances)
    requires Distinct(Keys(b))
    ensures |PlanSettlements(b)| <= |b|
    ensures forall s :: s in PlanSettlements(b) ==>
      s.cents >= 1 && Cents(Get(b, s.from)) <= -1 && Cents(Get(b, s.to)) >= 1
  {
    var p := Classify(b);
    var sc, sd := SortedCreditors(b), SortedDebtors(b);
    ClassifySigns(b);
    SortKeepsSigns(p.creditors, CreditRank);
    SortKeepsSigns(p.debtors, DebtRank);
    SweepShape(sc, sd);
    forall s | s in PlanSettlements(b) ensures Cents(Get(b, s.from)) <= -1 && Cents(Get(b, s.to)) >= 1 {
      CreditIsPositive(sc, s.to);
      DebtIsNegative(sd, s.from);
      SortKeepsAmounts(p.creditors, CreditRank, s.to);
      SortKeepsAmounts(p.debtors, DebtRank, s.from);
      ClassifyAmounts(b, s.to);
      ClassifyAmounts(b, s.from);
    }
  }

  /**
   * A member receives at most their rounded credit and pays at most their
   * rounded debt; in particular nobody both receives and pays.
   */
  lemma PlanBounds(b: Balances, id: MemberId)
    requires Distinct(Keys(b))
    ensures 0 <= Received(PlanSettlements(b), id) <= if Cents(Get(b, id)) >= 1 then Cents(Get(b, id)) else 0
    ensures 0 <= Paid(PlanSettlements(b), id) <= if Cents(Get(b, id)) <= -1 then -Cents(Get(b, id)) else 0
    ensures Received(PlanSettlements(b), id) == 0 || Paid(PlanSettlements(b), id) == 0
  {
    var p := Classify(b);
    ClassifySigns(b);
    ClassifyAmounts(b, id);
    SortKeepsSigns(p.creditors, CreditRank);
    SortKeepsSigns(p.debtors, DebtRank);
    SortKeepsAmounts(p.creditors, CreditRank, id);
    SortKeepsAmounts(p.debtors, DebtRank, id);
    SweepReceivesAtMost(SortedCreditors(b), SortedDebtors(b), id);
    SweepPaysAtMost(SortedCreditors(b), SortedDebtors(b), id);
  }

  /**
   * When the rounded credits are at least the rounded debts (the rounded
   * balances add up to zero or more), every member at least a cent in debt
   * pays all of their rounded debt; any surplus stays with the creditors.
   */
  lemma PlanPaysAllDebts(b: Balances, id: MemberId)
    requires Distinct(Keys(b))
    requires RoundedTotal(b) >= 0
    ensures Paid(PlanSettlements(b), id) == if Cents(Get(b, id)) <= -1 then -Cents(Get(b, id)) else 0
  {
    var p := Classify(b);
    ClassifySigns(b);
    ClassifyAmounts(b, id);
    ClassifyTotal(b);
    SortKeepsSigns(p.creditors, CreditRank);
    SortKeepsSigns(p.debtors, DebtRank);
    SortKeepsAmounts(p.creditors, CreditRank, id);
    SortKeepsAmounts(p.debtors, DebtRank, id);
    SweepPaysAll(SortedCreditors(b), SortedDebtors(b), id);
  }

  /**
   * When the rounded debts are at least the rounded credits (the rounded
   * balances add up to zero or less), every member at least a cent in credit
   * receives all of their rounded credit; any shortfall stays with the debtors.
   */
  lemma PlanReceivesAllCredits(b: Balances, id: MemberId)
    requires Distinct(Keys(b))
    requires RoundedTotal(b) <= 0
    ensures Received(PlanSettlements(b), id) == if Cents(Get(b, id)) >= 1 then Cents(Get(b, id)) else 0
  {
    var p := Classify(b);
    ClassifySigns(b);
    ClassifyAmounts(b, id);
    ClassifyTotal(b);
    SortKeepsSigns(p.creditors, CreditRank);
    SortKeepsSigns(p.debtors, DebtRank);
    SortKeepsAmounts(p.creditors, CreditRank, id);
    SortKeepsAmounts(p.debtors, DebtRank, id);
    SweepReceivesAll(SortedCreditors(b), SortedDebtors(b), id);
  }

  /**
   * When the rounded balances add up to zero the plan squares everyone: each
   * member's rounded balance, less what they receive, plus what they pay, is 0.
   */
  lemma PlanSettlesAll(b: Balances, id: MemberId)
    requires Distinct(Keys(b))
    requires RoundedTotal(b) == 0
    ensures Cents(Get(b, id)) - Received(PlanSettlements(b), id) + Paid(PlanSettlements(b), id) == 0
  {
    PlanPaysAllDebts(b, id);
    PlanReceivesAllCredits(b, id);
  }

  /**
   * Rounding each balance to cents moves the total by less than half a cent
   * per entry (at most half a cent upward), so for a map that adds up to zero
   * the rounded total is within `|b| / 2` cents of zero.
   */
  lemma {:induction false} RoundingResidual(b: Balances)
    ensures 100.0 * Total(b) - (|b| as real) / 2.0 <= RoundedTotal(b) as real
    ensures RoundedTotal(b) as real <= 100.0 * Total(b) + (|b| as real) / 2.0
  {
    if b != [] {
      RoundingResidual(b[1..]);
    }
  }
}
