/** The net-balance summary (GET /api/expenses/summary) as functions: the
    expense-to-payer lookup, the effect of one split row on the running net
    per counterparty, the scan over all split rows, and the partition of
    the nets into what others owe the viewer and what the viewer owes. */
module BalanceSummary {
  import opened Wrappers
  import opened Domain

  /** An expense as the summary reads it. */
  datatype ExpenseRow = ExpenseRow(id: ExpenseId, paidBy: UserId, groupId: GroupId)

  /** A row of the expense_splits table (the rows ExpenseCreation.SplitRow
      describes on insertion) as the summary reads it: left-joined with the
      participant's user record, whose name and email are null when the
      record is absent or the name unset. */
  datatype JoinedSplit = JoinedSplit(
    expenseId: ExpenseId,
    userId: UserId,
    amount: Cents,
    userName: Option<string>,
    userEmail: Option<string>)

  /** One entry of owedBy or owesTo. */
  datatype Line = Line(name: string, amount: Cents)

  datatype Summary = Summary(
    totalBalance: Cents,
    totalOwed: Cents,   // others owe the viewer
    totalOwes: Cents,   // the viewer owes others
    owedBy: seq<Line>,
    owesTo: seq<Line>)

  const ZeroSummary := Summary(0, 0, 0, [], [])

  /** The value netByCounterparty keeps per counterparty: the display name
      fixed on insertion and the running net, positive when the
      counterparty owes the viewer. */
  datatype Entry = Entry(name: string, net: Cents)

  /** netByCounterparty: its entries, and its keys in insertion order (the
      order in which a Map yields its values). */
  datatype Ledger = Ledger(order: seq<UserId>, entries: map<UserId, Entry>)

  const EmptyLedger := Ledger([], map[])

  /** What every step of the scan reads besides the ledger: the viewer, the
      expense-to-payer lookup and the whole list of split rows (the payer's
      name is searched for in all of them). */
  datatype Context = Context(viewer: UserId, paidBy: map<ExpenseId, UserId>, splits: seq<JoinedSplit>)

  ghost predicate Distinct(s: seq<UserId>) {
    forall i, j :: 0 <= i < j < |s| ==> s[i] != s[j]
  }

  /** Keys without repetition, and exactly the keys of the map. */
  ghost predicate ValidLedger(l: Ledger) {
    && Distinct(l.order)
    && (forall u :: u in l.entries <==> u in l.order)
  }

  /** No later expense has the same id as expenses[k]. */
  ghost predicate LastWithId(expenses: seq<ExpenseRow>, k: int)
    requires 0 <= k < |expenses|
  {
    forall j :: k < j < |expenses| ==> expenses[j].id != expenses[k].id
  }

  /** `new Map(allExpenses.map(e => [e.id, e.paidBy]))`: the entries are
      set in order, so a later expense overwrites an earlier one with the
      same id. */
  function PaidByLookup(expenses: seq<ExpenseRow>): map<ExpenseId, UserId> {
    if expenses == [] then map[]
    else
      var last := expenses[|expenses| - 1];
      PaidByLookup(expenses[..|expenses| - 1])[last.id := last.paidBy]
  }

  /** Every expense id is a key of the lookup, and nothing else is. */
  lemma {:induction false} PaidByLookupKeys(expenses: seq<ExpenseRow>)
    ensures forall id :: id in PaidByLookup(expenses) <==>
      exists k :: 0 <= k < |expenses| && expenses[k].id == id
  {
    if expenses != [] {
      var init := expenses[..|expenses| - 1];
      var last := expenses[|expenses| - 1];
      assert PaidByLookup(expenses) == PaidByLookup(init)[last.id := last.paidBy];
      PaidByLookupKeys(init);
      forall id | id in PaidByLookup(expenses)
        ensures exists k :: 0 <= k < |expenses| && expenses[k].id == id
      {
        if id != last.id {
          assert id in PaidByLookup(init);
          var k :| 0 <= k < |init| && init[k].id == id;
          assert expenses[k] == init[k];
        }
      }
      forall id | exists k :: 0 <= k < |expenses| && expenses[k].id == id
        ensures id in PaidByLookup(expenses)
      {
        var k :| 0 <= k < |expenses| && expenses[k].id == id;
        if k < |init| {
          assert init[k] == expenses[k];
        }
      }
    }
  }

  /** Of two expenses with one id the later one gives the payer. */
  lemma {:induction false} PaidByLookupLastWins(expenses: seq<ExpenseRow>, k: int)
    requires 0 <= k < |expenses| && LastWithId(expenses, k)
    ensures expenses[k].id in PaidByLookup(expenses)
    ensures PaidByLookup(expenses)[expenses[k].id] == expenses[k].paidBy
  {
    if k < |expenses| - 1 {
      var init := expenses[..|expenses| - 1];
      assert init[k] == expenses[k];
      assert LastWithId(init, k) by {
        forall j | k < j < |init| ensures init[j].id != init[k].id {
          assert init[j] == expenses[j];
        }
      }
      PaidByLookupLastWins(init, k);
    }
  }

  /** The payer of a row's expense, or None when the lookup has no payer for
      it or gives the empty string (`if (!paidBy) continue`). */
  function PayerOf(ctx: Context, s: JoinedSplit): (p: Option<UserId>)
    ensures p.Some? <==> s.expenseId in ctx.paidBy && ctx.paidBy[s.expenseId] != ""
    ensures p.Some? ==> p.value == ctx.paidBy[s.expenseId] && p.value != ""
  {
    if s.expenseId in ctx.paidBy && ctx.paidBy[s.expenseId] != "" then Some(ctx.paidBy[s.expenseId])
    else None
  }

  /** `splits.find(x => x.userId === u)`: the first row of user u. */
  function FindByUser(splits: seq<JoinedSplit>, u: UserId): (r: Option<JoinedSplit>)
    ensures r.None? <==> forall k :: 0 <= k < |splits| ==> splits[k].userId != u
    ensures r.Some? ==>
      exists k :: 0 <= k < |splits| && splits[k] == r.value && r.value.userId == u &&
                  (forall j :: 0 <= j < k ==> splits[j].userId != u)
  {
    if splits == [] then None
    else if splits[0].userId == u then Some(splits[0])
    else
      var r := FindByUser(splits[1..], u);
      assert forall k :: 0 < k < |splits| ==> splits[k] == splits[1..][k - 1];
      r
  }

  /** `s.userName ?? s.userEmail ?? s.userId`. */
  function DisplayName(s: JoinedSplit): string {
    if s.userName.Some? then s.userName.value
    else if s.userEmail.Some? then s.userEmail.value
    else s.userId
  }

  /** The payer's name, from the first row of all split rows that names the
      payer as participant, else the payer id. */
  function PayerName(splits: seq<JoinedSplit>, payer: UserId): string {
    match FindByUser(splits, payer)
    case None => payer
    case Some(other) =>
      if other.userName.Some? then other.userName.value
      else if other.userEmail.Some? then other.userEmail.value
      else payer
  }

  /** `current = net.get(key) ?? { name, amount: 0 }; current.amount += delta;
      net.set(key, current)`: an existing key keeps its name and its place,
      a new key goes last with the given name. */
  function Post(l: Ledger, key: UserId, name: string, delta: Cents): Ledger {
    if key in l.entries then
      Ledger(l.order, l.entries[key := Entry(l.entries[key].name, l.entries[key].net + delta)])
    else
      Ledger(l.order + [key], l.entries[key := Entry(name, delta)])
  }

  /** The body of the scan loop for one split row. */
  function Step(ctx: Context, l: Ledger, s: JoinedSplit): Ledger {
    match PayerOf(ctx, s)
    case None => l
    case Some(paidBy) =>
      if paidBy == s.userId then l
      else if paidBy == ctx.viewer then Post(l, s.userId, DisplayName(s), s.amount)
      else if s.userId == ctx.viewer then Post(l, paidBy, PayerName(ctx.splits, paidBy), -s.amount)
      else l
  }

  /** The ledger after scanning `rows` in order from the empty ledger. It is
      always valid and never has the viewer as a counterparty. */
  function Run(ctx: Context, rows: seq<JoinedSplit>): (l: Ledger)
    ensures ValidLedger(l)
    ensures ctx.viewer !in l.entries
  {
    if rows == [] then EmptyLedger
    else
      var prev := Run(ctx, rows[..|rows| - 1]);
      var l := Step(ctx, prev, rows[|rows| - 1]);
      assert forall i :: 0 <= i < |prev.order| ==> l.order[i] == prev.order[i];
      l
  }

  /** `amount > 0.009` on an amount of net / 100 currency units. */
  predicate AboveNoise(net: Cents) {
    10 * net > 9
  }

  /** `amount < -0.009` on an amount of net / 100 currency units. */
  predicate BelowNoise(net: Cents) {
    10 * net < -9
  }

  /** On whole cents the noise band holds only zero. */
  lemma NoiseBandIsZero(net: Cents)
    ensures AboveNoise(net) <==> net > 0
    ensures BelowNoise(net) <==> net < 0
  {
  }

  /** The running totals and lists of the second loop. */
  datatype Tally = Tally(totalOwed: Cents, totalOwes: Cents, owedBy: seq<Line>, owesTo: seq<Line>)

  /** The second loop over the ledger's values in insertion order. */
  function TallyOf(order: seq<UserId>, entries: map<UserId, Entry>): Tally
    requires forall u :: u in order ==> u in entries
  {
    if order == [] then Tally(0, 0, [], [])
    else
      var t := TallyOf(order[..|order| - 1], entries);
      var e := entries[order[|order| - 1]];
      if AboveNoise(e.net) then
        Tally(t.totalOwed + e.net, t.totalOwes, t.owedBy + [Line(e.name, e.net)], t.owesTo)
      else if BelowNoise(e.net) then
        Tally(t.totalOwed, t.totalOwes - e.net, t.owedBy, t.owesTo + [Line(e.name, -e.net)])
      else t
  }

  /** The whole GET handler after authentication, with the three database
      reads given as sequences: the viewer's group memberships, the
      expenses of those groups and the split rows of those expenses. */
  function SummaryOf(viewer: UserId, groupIds: seq<GroupId>, expenses: seq<ExpenseRow>, splits: seq<JoinedSplit>)
    : Summary
  {
    if |groupIds| == 0 || |expenses| == 0 then ZeroSummary
    else
      var l := Run(Context(viewer, PaidByLookup(expenses), splits), splits);
      var t := TallyOf(l.order, l.entries);
      Summary(t.totalOwed - t.totalOwes, t.totalOwed, t.totalOwes, t.owedBy, t.owesTo)
  }
}
