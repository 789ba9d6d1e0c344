/**
 * The in-memory store and the handlers that change it: `POST /groups`,
 * `POST /groups/:groupId/members`, `POST /groups/:groupId/expenses`, and
 * `GET /groups/:groupId`, each answering with the group's snapshot.
 *
 * Ids (`generateId`) and timestamps (`new Date().toISOString()`) come in as
 * parameters. Like the server, the store does not check a new id against
 * the ids already in use.
 */
module Store {
  import opened Money
  import opened Text
  import opened Ledger
  import opened Snapshots

  datatype Option<T> = None | Some(value: T)

  /** Why a request body was refused with a 400. */
  datatype Reason = NameRequired | DescriptionRequired | AmountNotPositive | PayerRequired | SplitRequired

  /** A failed request: 404 for an unknown group, 400 for a bad body. */
  datatype Error = NotFound | BadRequest(reason: Reason)

  datatype Result<T> = Ok(value: T) | Err(error: Error)

  const DefaultGroupName := "New Group"

  /** The `error` text of the JSON body the server answers a failed request with. */
  function Message(e: Error): string {
    match e
    case NotFound => "Group not found"
    case BadRequest(NameRequired) => "Member name is required"
    case BadRequest(DescriptionRequired) => "Description is required"
    case BadRequest(AmountNotPositive) => "Amount must be a positive number"
    case BadRequest(PayerRequired) => "Valid paidBy memberId is required"
    case BadRequest(SplitRequired) => "splitBetween must include at least one valid memberId"
  }

  /**
   * The body of an expense request. A missing or non-string field is `None`;
   * `amount` is `Number(amount)` when that is finite and `None` otherwise;
   * `splitBetween` is the array sent, or empty when none was.
   */
  datatype ExpenseRequest = ExpenseRequest(
    description: Option<string>,
    amount: Option<real>,
    paidBy: Option<MemberId>,
    splitBetween: seq<MemberId>)

  /** A JavaScript string is truthy when it is not empty. */
  predicate Given(s: Option<string>) {
    s.Some? && s.value != ""
  }

  // ---------------------------------------------------------------------------
  // Members

  /** `members.find(m => m.name.toLowerCase() === name.toLowerCase())`. */
  function FindMemberByName(ms: seq<Member>, name: string): (r: Option<Member>)
    ensures r.Some? ==> r.value in ms && ToLower(r.value.name) == ToLower(name)
    ensures r.None? <==> forall m :: m in ms ==> ToLower(m.name) != ToLower(name)
    ensures r.Some? ==> exists i :: 0 <= i < |ms| && ms[i] == r.value && NoMatchBefore(ms, name, i)
  {
    if ms == [] then None
    else if ToLower(ms[0].name) == ToLower(name) then
      assert NoMatchBefore(ms, name, 0);
      Some(ms[0])
    else
      var r := FindMemberByName(ms[1..], name);
      if r.Some? then
        var i :| 0 <= i < |ms[1..]| && ms[1..][i] == r.value && NoMatchBefore(ms[1..], name, i);
        assert ms[i + 1] == r.value;
        assert NoMatchBefore(ms, name, i + 1) by {
          forall k | 0 <= k < i + 1 ensures ToLower(ms[k].name) != ToLower(name) {
            if k > 0 {
              assert ms[k] == ms[1..][k - 1];
            }
          }
        }
        r
      else r
  }

  /** No member ahead of position `i` has `name`, ignoring case: `find` stops at the first match. */
  predicate NoMatchBefore(ms: seq<Member>, name: string, i: int)
    requires 0 <= i <= |ms|
  {
    forall k :: 0 <= k < i ==> ToLower(ms[k].name) != ToLower(name)
  }

  /** The outcome of adding a member: the group after, the member answered with, and whether it is new. */
  datatype Joined = Joined(group: Group, member: Member, created: bool)

  /** Adds a member called `name` unless one of that name, ignoring case, is already there. */
  function JoinMember(g: Group, name: string, id: MemberId): Joined {
    match FindMemberByName(g.members, name)
    case Some(m) => Joined(g, m, false)
    case None => Joined(g.(members := g.members + [Member(id, name)]), Member(id, name), true)
  }

  /** No two members have the same name ignoring case. */
  predicate NamesDistinct(ms: seq<Member>) {
    forall i, j :: 0 <= i < j < |ms| ==> ToLower(ms[i].name) != ToLower(ms[j].name)
  }

  /** Adding a name a second time, in any case, finds the member the first call added. */
  lemma JoinIdempotent(g: Group, name: string, id: MemberId, name': string, id': MemberId)
    requires ToLower(name') == ToLower(name)
    ensures var first := JoinMember(g, name, id);
      var second := JoinMember(first.group, name', id');
      second.group == first.group && second.member == first.member && !second.created
  {
    var first := JoinMember(g, name, id);
    FindByLowerName(first.group.members, name, name');
    if first.created {
      FindAfterAppend(g.members, first.member, name);
    } else {
      FindByLowerName(g.members, name, name');
    }
  }

  /** The lookup sees only the lower-cased name. */
  lemma {:induction false} FindByLowerName(ms: seq<Member>, name: string, name': string)
    requires ToLower(name) == ToLower(name')
    ensures FindMemberByName(ms, name) == FindMemberByName(ms, name')
  {
    if ms != [] {
      FindByLowerName(ms[1..], name, name');
    }
  }

  lemma {:induction false} FindAfterAppend(ms: seq<Member>, m: Member, name: string)
    requires forall x :: x in ms ==> ToLower(x.name) != ToLower(name)
    ensures FindMemberByName(ms + [m], name) == if ToLower(m.name) == ToLower(name) then Some(m) else None
  {
    if ms == [] {
      assert ms + [m] == [m];
    } else {
      assert (ms + [m])[1..] == ms[1..] + [m];
      FindAfterAppend(ms[1..], m, name);
    }
  }

  lemma IdsAppend(ms: seq<Member>, m: Member)
    ensures Ids(ms + [m]) == Ids(ms) + [m.id]
  {
  }

  // ---------------------------------------------------------------------------
  // Expenses

  /** `splitIds.filter(id => group.members.some(m => m.id === id))`. */
  function ValidSplit(ms: seq<Member>, ids: seq<MemberId>): (r: seq<MemberId>)
    ensures |r| <= |ids|
    ensures forall k :: k in r <==> k in ids && k in Ids(ms)
  {
    if ids == [] then []
    else (if ids[0] in Ids(ms) then [ids[0]] else []) + ValidSplit(ms, ids[1..])
  }

  /**
   * The valid split is exactly the filter: the member ids sent, in the order
   * sent, each as many times as it was sent; other ids are dropped.
   */
  lemma ValidSplitIsFilter(ms: seq<Member>, ids: seq<MemberId>)
    ensures var r := ValidSplit(ms, ids);
      && (forall k :: multiset(r)[k] == if k in Ids(ms) then multiset(ids)[k] else 0)
      && SubsequenceOf(r, ids)
  {
    ValidSplitCounts(ms, ids);
    ValidSplitKeepsOrder(ms, ids);
  }

  /** Each member id is kept as often as it was sent, every other id is dropped. */
  lemma {:induction false} ValidSplitCounts(ms: seq<Member>, ids: seq<MemberId>)
    ensures forall k :: multiset(ValidSplit(ms, ids))[k] == if k in Ids(ms) then multiset(ids)[k] else 0
  {
    if ids != [] {
      ValidSplitCounts(ms, ids[1..]);
      assert ids == [ids[0]] + ids[1..];
    }
  }

  /** The ids kept stay in the order they were sent. */
  lemma {:induction false} ValidSplitKeepsOrder(ms: seq<Member>, ids: seq<MemberId>)
    ensures SubsequenceOf(ValidSplit(ms, ids), ids)
  {
    if ids != [] {
      var rest := ValidSplit(ms, ids[1..]);
      ValidSplitKeepsOrder(ms, ids[1..]);
      if ids[0] in Ids(ms) {
        assert ([ids[0]] + rest)[1..] == rest;
      } else {
        assert [] + rest == rest;
        SkipKeepsSubsequence(rest, ids);
      }
    }
  }

  /** `a` is `b` with some elements left out, the rest kept in order. */
  predicate SubsequenceOf<T(==)>(a: seq<T>, b: seq<T>)
    decreases |b|
  {
    if a == [] then true
    else if b == [] then false
    else if a[0] == b[0] then SubsequenceOf(a[1..], b[1..])
    else SubsequenceOf(a, b[1..])
  }

  /** Leaving out one more element of `b` keeps a subsequence. */
  lemma {:induction false} SkipKeepsSubsequence<T>(a: seq<T>, b: seq<T>)
    requires b != [] && SubsequenceOf(a, b[1..])
    ensures SubsequenceOf(a, b)
    decreases |b|, |a|
  {
    if a != [] && a[0] == b[0] {
      TailKeepsSubsequence(a, b[1..]);
    }
  }

  /** Leaving out the first element of `a` keeps a subsequence. */
  lemma {:induction false} TailKeepsSubsequence<T>(a: seq<T>, b: seq<T>)
    requires a != [] && SubsequenceOf(a, b)
    ensures SubsequenceOf(a[1..], b)
    decreases |b|, |a|
  {
    if a[0] == b[0] {
      if a[1..] != [] {
        SkipKeepsSubsequence(a[1..], b);
      }
    } else {
      TailKeepsSubsequence(a, b[1..]);
      if a[1..] != [] {
        SkipKeepsSubsequence(a[1..], b);
      }
    }
  }

  /** What a request must hold for the expense to be accepted. */
  predicate Acceptable(g: Group, req: ExpenseRequest) {
    && Given(req.description)
    && req.amount.Some? && req.amount.value > 0.0
    && req.paidBy.Some? && req.paidBy.value in Ids(g.members)
    && exists k :: k in req.splitBetween && k in Ids(g.members)
  }

  /** An expense as the store keeps it: a rounded, non-negative amount paid and shared by members. */
  predicate StoredExpenseOk(ms: seq<Member>, e: Expense) {
    && e.amount >= 0.0 && Round2(e.amount) == e.amount
    && e.paidBy in Ids(ms)
    && e.splitBetween != []
    && forall k :: k in e.splitBetween ==> k in Ids(ms)
  }

  /** What the store keeps true of every group. */
  predicate WellFormed(g: Group) {
    && NamesDistinct(g.members)
    && forall e :: e in g.expenses ==> StoredExpenseOk(g.members, e)
  }

  /**
   * The checks of the expense handler, in order, and the expense it builds:
   * the trimmed description, the amount rounded to cents, the payer and the
   * split ids that are members (order and repeats kept).
   */
  function ValidateExpense(g: Group, req: ExpenseRequest, id: string, createdAt: string): (r: Result<Expense>)
    ensures r.Ok? <==> Acceptable(g, req)
    ensures r == Err(BadRequest(DescriptionRequired)) <==> !Given(req.description)
    ensures r == Err(BadRequest(AmountNotPositive)) <==>
      Given(req.description) && (req.amount.None? || req.amount.value <= 0.0)
    ensures r == Err(BadRequest(PayerRequired)) <==>
      && Given(req.description) && req.amount.Some? && req.amount.value > 0.0
      && (req.paidBy.None? || req.paidBy.value !in Ids(g.members))
    ensures r == Err(BadRequest(SplitRequired)) <==>
      && Given(req.description) && req.amount.Some? && req.amount.value > 0.0
      && req.paidBy.Some? && req.paidBy.value in Ids(g.members)
      && forall k :: k in req.splitBetween ==> k !in Ids(g.members)
    ensures r.Ok? ==> StoredExpenseOk(g.members, r.value)
    ensures r.Ok? ==>
      && r.value.id == id && r.value.createdAt == createdAt
      && r.value.description == Trim(req.description.value)
      && Cents(r.value.amount) == Cents(req.amount.value)
      && r.value.paidBy == req.paidBy.value
      && r.value.splitBetween == ValidSplit(g.members, req.splitBetween)
  {
    if !Given(req.description) then Err(BadRequest(DescriptionRequired))
    else if req.amount.None? || req.amount.value <= 0.0 then Err(BadRequest(AmountNotPositive))
    else if req.paidBy.None? || req.paidBy.value !in Ids(g.members) then Err(BadRequest(PayerRequired))
    else
      var split := ValidSplit(g.members, req.splitBetween);
      if split == [] then
        assert !exists k :: k in req.splitBetween && k in Ids(g.members);
        Err(BadRequest(SplitRequired))
      else
        var amount := req.amount.value;
        Round2Idempotent(amount);
        Round2Nearest(amount);
        assert split[0] in split;
        Ok(Expense(id, Trim(req.description.value), Round2(amount), req.paidBy.value, split, createdAt))
  }

  /** A description of white space only passes the check and is stored empty. */
  lemma BlankDescriptionStoredEmpty(g: Group, req: ExpenseRequest, id: string, createdAt: string)
    requires Acceptable(g, req)
    requires forall i :: 0 <= i < |req.description.value| ==> IsSpace(req.description.value[i])
    ensures ValidateExpense(g, req, id, createdAt).Ok?
    ensures ValidateExpense(g, req, id, createdAt).value.description == ""
  {
    BlankTrimsToEmpty(req.description.value);
  }

  /** An amount under half a cent passes the positivity check and is stored as 0. */
  lemma TinyAmountStoredAsZero(g: Group, req: ExpenseRequest, id: string, createdAt: string)
    requires Acceptable(g, req)
    requires req.amount.value < 0.005
    ensures ValidateExpense(g, req, id, createdAt).Ok?
    ensures ValidateExpense(g, req, id, createdAt).value.amount == 0.0
  {
    var r := ValidateExpense(g, req, id, createdAt);
    assert Cents(req.amount.value) == 0;
    assert Cents(r.value.amount) == 0 && Round2(r.value.amount) == r.value.amount;
  }

  // ---------------------------------------------------------------------------
  // What the changes keep

  lemma JoinKeepsWellFormed(g: Group, name: string, id: MemberId)
    requires WellFormed(g)
    ensures WellFormed(JoinMember(g, name, id).group)
  {
    var j := JoinMember(g, name, id);
    if j.created {
      var ms := j.group.members;
      IdsAppend(g.members, j.member);
      forall i, k | 0 <= i < k < |ms| ensures ToLower(ms[i].name) != ToLower(ms[k].name) {
        if k == |g.members| {
          assert ms[i] in g.members;
        }
      }
    }
  }

  lemma AddExpenseKeepsWellFormed(g: Group, e: Expense)
    requires WellFormed(g) && StoredExpenseOk(g.members, e)
    ensures WellFormed(g.(expenses := g.expenses + [e]))
  {
  }

  /** Recording an expense applies it to the balances the group had. */
  lemma AddExpenseBalances(g: Group, e: Expense)
    ensures BalancesOf(g.(expenses := g.expenses + [e])) == ApplyExpense(BalancesOf(g), e)
  {
    var es := g.expenses + [e];
    assert es[..|es| - 1] == g.expenses;
  }

  /** A group whose expenses were recorded by the store has one balance per member id and no other. */
  lemma WellFormedBalanceKeys(g: Group)
    requires WellFormed(g)
    ensures forall k :: k in Keys(BalancesOf(g)) <==> k in Ids(g.members)
  {
    KeysAreMemberIds(g);
  }

  // ---------------------------------------------------------------------------
  // The store

  datatype GroupReply = GroupReply(id: string, group: Snapshot)
  datatype MemberReply = MemberReply(member: Member, created: bool, group: Snapshot)
  datatype ExpenseReply = ExpenseReply(expense: Expense, group: Snapshot)

  /** `name || 'New Group'`. */
  function GroupName(name: Option<string>): string {
    if Given(name) then name.value else DefaultGroupName
  }

  /** `groupsById`: the groups by id. */
  class GroupStore {
    var groups: map<string, Group>

    ghost predicate Valid()
      reads this
    {
      forall gid :: gid in groups ==> groups[gid].id == gid && WellFormed(groups[gid])
    }

    constructor()
      ensures groups == map[] && Valid()
    {
      groups := map[];
    }

    /** `ensureGroup(groupId)`: the group, or a 404. */
    function EnsureGroup(gid: string): (r: Result<Group>)
      reads this
      ensures r.Ok? <==> gid in groups
      ensures r.Ok? ==> r.value == groups[gid]
      ensures r.Err? ==> r.error == NotFound
      ensures Valid() && r.Ok? ==> r.value.id == gid && WellFormed(r.value)
    {
      if gid in groups then Ok(groups[gid]) else Err(NotFound)
    }

    /** `POST /groups`: a new empty group under `gid`, named `name` or "New Group". */
    method CreateGroup(name: Option<string>, gid: string) returns (reply: GroupReply)
      requires Valid()
      modifies this
      ensures Valid()
      ensures groups == old(groups)[gid := Group(gid, GroupName(name), [], [])]
      ensures reply.id == gid && reply.group == SnapshotOf(groups[gid])
    {
      var group := Group(gid, GroupName(name), [], []);
      groups := groups[gid := group];
      var snapshot := GroupSnapshot(group);
      reply := GroupReply(gid, snapshot);
    }

    /** `GET /groups/:groupId`. */
    method GetGroup(gid: string) returns (r: Result<Snapshot>)
      ensures r == if gid in groups then Ok(SnapshotOf(groups[gid])) else Err(NotFound)
    {
      var found := EnsureGroup(gid);
      if found.Err? {
        return Err(NotFound);
      }
      var snapshot := GroupSnapshot(found.value);
      r := Ok(snapshot);
    }

    /**
     * `POST /groups/:groupId/members`: the name is checked before the group is
     * looked up; a name already present, in any case, answers with that member
     * and changes nothing.
     */
    method AddMember(gid: string, name: Option<string>, id: MemberId) returns (r: Result<MemberReply>)
      requires Valid()
      modifies this
      ensures Valid()
      ensures r == Err(BadRequest(NameRequired)) <==> !Given(name)
      ensures r == Err(NotFound) <==> Given(name) && gid !in old(groups)
      ensures r.Ok? <==> Given(name) && gid in old(groups)
      ensures r.Err? ==> groups == old(groups)
      ensures r.Ok? ==>
        var joined := JoinMember(old(groups)[gid], name.value, id);
        && groups == old(groups)[gid := joined.group]
        && r.value.member == joined.member && r.value.created == joined.created
        && r.value.group == SnapshotOf(groups[gid])
    {
      if !Given(name) {
        return Err(BadRequest(NameRequired));
      }
      var found := EnsureGroup(gid);
      if found.Err? {
        return Err(NotFound);
      }
      var group := found.value;
      var existing := FindMemberByName(group.members, name.value);
      if existing.Some? {
        var snapshot := GroupSnapshot(group);
        return Ok(MemberReply(existing.value, false, snapshot));
      }
      var member := Member(id, name.value);
      group := group.(members := group.members + [member]);
      JoinKeepsWellFormed(found.value, name.value, id);
      groups := groups[gid := group];
      var snapshot := GroupSnapshot(group);
      r := Ok(MemberReply(member, true, snapshot));
    }

    /**
     * `POST /groups/:groupId/expenses`: the group is looked up first, then the
     * body is checked; an accepted expense is appended to the group's list.
     */
    method AddExpense(gid: string, req: ExpenseRequest, id: string, createdAt: string) returns (r: Result<ExpenseReply>)
      requires Valid()
      modifies this
      ensures Valid()
      ensures r == Err(NotFound) <==> gid !in old(groups)
      ensures gid in old(groups) ==> (r.Ok? <==> Acceptable(old(groups)[gid], req))
      ensures gid in old(groups) && r.Err? ==> r == Err(ValidateExpense(old(groups)[gid], req, id, createdAt).error)
      ensures r.Err? ==> groups == old(groups)
      ensures r.Ok? ==>
        && r.value.expense == ValidateExpense(old(groups)[gid], req, id, createdAt).value
        && groups == old(groups)[gid := old(groups)[gid].(expenses := old(groups)[gid].expenses + [r.value.expense])]
        && r.value.group == SnapshotOf(groups[gid])
    {
      var found := EnsureGroup(gid);
      if found.Err? {
        return Err(NotFound);
      }
      var group := found.value;
      var checked := ValidateExpense(group, req, id, createdAt);
      if checked.Err? {
        return Err(checked.error);
      }
      var expense := checked.value;
      AddExpenseKeepsWellFormed(group, expense);
      group := group.(expenses := group.expenses + [expense]);
      groups := groups[gid := group];
      var snapshot := GroupSnapshot(group);
      r := Ok(ExpenseReply(expense, snapshot));
    }
  }
}
