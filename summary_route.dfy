/** The summary handler as the source runs it: a loop over the split rows
    that updates netByCounterparty in place (get, add or subtract, set),
    then a loop over its values in insertion order that accumulates the two
    totals and appends to owedBy and owesTo. */
module SummaryRoute {
  import opened Wrappers
  import opened Domain
  import opened BalanceSummary
  import opened BalanceProperties

  /** GET /api/expenses/summary after authentication. The three database
      reads are given: the viewer's group ids, the expenses of those groups
      and the split rows of those expenses joined with user name and email. */
  method ComputeSummary(viewer: UserId, groupIds: seq<GroupId>, expenses: seq<ExpenseRow>, splits: seq<JoinedSplit>)
    returns (summary: Summary)
    ensures summary == SummaryOf(viewer, groupIds, expenses, splits)
    ensures (|groupIds| == 0 || |expenses| == 0) ==> summary == ZeroSummary
    ensures summary.totalOwed == SumLines(summary.owedBy) >= 0
    ensures summary.totalOwes == SumLines(summary.owesTo) >= 0
    ensures summary.totalBalance == summary.totalOwed - summary.totalOwes
  {
    if |groupIds| == 0 {
      return ZeroSummary;
    }
    if |expenses| == 0 {
      return ZeroSummary;
    }
    var paidBy := PaidByLookup(expenses);
    var order, net := ScanSplits(viewer, paidBy, splits);
    var totalOwed, totalOwes, owedBy, owesTo := TallyNets(order, net);
    summary := Summary(totalOwed - totalOwes, totalOwed, totalOwes, owedBy, owesTo);
    SummaryTotals(viewer, groupIds, expenses, splits);
  }

  /** The loop over the split rows: netByCounterparty, given as its entries
      and its keys in insertion order, ends as the ledger of the scan. */
  method ScanSplits(viewer: UserId, paidBy: map<ExpenseId, UserId>, splits: seq<JoinedSplit>)
    returns (order: seq<UserId>, net: map<UserId, Entry>)
    ensures Ledger(order, net) == Run(Context(viewer, paidBy, splits), splits)
  {
    ghost var ctx := Context(viewer, paidBy, splits);
    net, order := map[], [];
    for i := 0 to |splits|
      invariant Ledger(order, net) == Run(ctx, splits[..i])
    {
      assert splits[..i + 1][..i] == splits[..i];
      order, net := ScanRow(viewer, paidBy, splits, order, net, splits[i]);
    }
    assert splits[..|splits|] == splits;
  }

  /** One iteration of the scan: skip a row with no payer or with the payer
      as participant; for a share of the viewer's expense add it to the
      participant's net, for the viewer's share of another's expense take it
      from the payer's net, and skip any other row. */
  method ScanRow(viewer: UserId, paidBy: map<ExpenseId, UserId>, splits: seq<JoinedSplit>,
                 order: seq<UserId>, net: map<UserId, Entry>, s: JoinedSplit)
    returns (order': seq<UserId>, net': map<UserId, Entry>)
    ensures Ledger(order', net') == Step(Context(viewer, paidBy, splits), Ledger(order, net), s)
  {
    ghost var ctx := Context(viewer, paidBy, splits);
    order', net' := order, net;
    if s.expenseId !in paidBy || paidBy[s.expenseId] == "" {
      return;
    }
    var payer := paidBy[s.expenseId];
    assert PayerOf(ctx, s) == Some(payer);
    if payer == s.userId {
      return;
    }
    if payer == viewer {
      // the participant owes the viewer their share
      var key := s.userId;
      var name := DisplayName(s);
      var current := if key in net then net[key] else Entry(name, 0);
      if key !in net {
        order' := order + [key];
      }
      net' := net[key := current.(net := current.net + s.amount)];
    } else if s.userId == viewer {
      // the viewer owes the payer their own share
      var key := payer;
      var name := PayerName(splits, payer);
      var current := if key in net then net[key] else Entry(name, 0);
      if key !in net {
        order' := order + [key];
      }
      net' := net[key := current.(net := current.net - s.amount)];
    }
  }

  /** The loop over netByCounterparty's values in insertion order: a net
      above the noise band is owed to the viewer, one below it is owed by
      the viewer (negated), one inside it is settled and left out. */
  method TallyNets(order: seq<UserId>, net: map<UserId, Entry>)
    returns (totalOwed: Cents, totalOwes: Cents, owedBy: seq<Line>, owesTo: seq<Line>)
    requires forall u :: u in order ==> u in net
    ensures Tally(totalOwed, totalOwes, owedBy, owesTo) == TallyOf(order, net)
  {
    totalOwed, totalOwes := 0, 0;
    owedBy, owesTo := [], [];
    for k := 0 to |order|
      invariant Tally(totalOwed, totalOwes, owedBy, owesTo) == TallyOf(order[..k], net)
    {
      assert order[..k + 1][..k] == order[..k];
      var e := net[order[k]];
      if AboveNoise(e.net) {
        totalOwed := totalOwed + e.net;
        owedBy := owedBy + [Line(e.name, e.net)];
      } else if BelowNoise(e.net) {
        var owed := -e.net;
        totalOwes := totalOwes + owed;
        owesTo := owesTo + [Line(e.name, owed)];
      }
    }
    assert order[..|order|] == order;
  }
}
