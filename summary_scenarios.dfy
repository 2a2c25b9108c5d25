/** Worked cases of the summary: two members sharing one expense, and two
    expenses that cancel out. Each case is computed row by row: one lemma
    per row for the effect of that row, then the scan and the partition. */
module SummaryScenarios {
  import opened Wrappers
  import opened Domain
  import opened BalanceSummary

  /** Scanning one more row is one more step. */
  lemma RunPrefix(ctx: Context, rows: seq<JoinedSplit>, k: nat)
    requires 0 < k <= |rows|
    ensures Run(ctx, rows[..k]) == Step(ctx, Run(ctx, rows[..k - 1]), rows[k - 1])
  {
    assert rows[..k][..k - 1] == rows[..k - 1];
  }

  // ---------------------------------------------------------------------
  // One group g with members A and B; A paid 100.00, split 50.00 each.

  function OneExpense(): seq<ExpenseRow> {
    [ExpenseRow("e1", "A", "g")]
  }

  function OneExpenseSplits(): seq<JoinedSplit> {
    [JoinedSplit("e1", "A", 5000, Some("Asha"), None),
     JoinedSplit("e1", "B", 5000, None, Some("b@x"))]
  }

  function OneExpenseContext(viewer: UserId): Context {
    Context(viewer, map["e1" := "A"], OneExpenseSplits())
  }

  lemma OneExpenseLookup()
    ensures PaidByLookup(OneExpense()) == map["e1" := "A"]
  {
  }

  /** A's own share of A's expense is skipped, whoever is looking. */
  lemma OneExpensePayerShare(viewer: UserId, l: Ledger)
    ensures Step(OneExpenseContext(viewer), l, OneExpenseSplits()[0]) == l
  {
    assert PayerOf(OneExpenseContext(viewer), OneExpenseSplits()[0]) == Some("A");
  }

  /** For A, B's share is owed to A under B's email, B having no name. */
  lemma OneExpenseOtherShareForPayer()
    ensures Step(OneExpenseContext("A"), EmptyLedger, OneExpenseSplits()[1]) ==
      Ledger(["B"], map["B" := Entry("b@x", 5000)])
  {
    assert PayerOf(OneExpenseContext("A"), OneExpenseSplits()[1]) == Some("A");
  }

  /** For B, B's own share is owed to A under the name of A's first row. */
  lemma OneExpenseOwnShareForParticipant()
    ensures Step(OneExpenseContext("B"), EmptyLedger, OneExpenseSplits()[1]) ==
      Ledger(["A"], map["A" := Entry("Asha", -5000)])
  {
    var splits := OneExpenseSplits();
    assert PayerOf(OneExpenseContext("B"), splits[1]) == Some("A");
    assert FindByUser(splits, "A") == Some(splits[0]);
  }

  /** For A: B owes 50.00. A's own share counts for nobody, and B's name
      falls back to the email. */
  lemma TwoPartyPayerView()
    ensures SummaryOf("A", ["g"], OneExpense(), OneExpenseSplits()) ==
      Summary(5000, 5000, 0, [Line("b@x", 5000)], [])
  {
    var splits := OneExpenseSplits();
    var ctx := OneExpenseContext("A");
    var l := Ledger(["B"], map["B" := Entry("b@x", 5000)]);
    OneExpenseLookup();
    assert splits[..0] == [] && splits[..2] == splits;
    RunPrefix(ctx, splits, 1);
    OneExpensePayerShare("A", EmptyLedger);
    RunPrefix(ctx, splits, 2);
    OneExpenseOtherShareForPayer();
    assert Run(ctx, splits) == l;
    assert l.order[..0] == [];
  }

  /** For B: 50.00 owed to A, named after the first split row of A. */
  lemma TwoPartyParticipantView()
    ensures SummaryOf("B", ["g"], OneExpense(), OneExpenseSplits()) ==
      Summary(-5000, 0, 5000, [], [Line("Asha", 5000)])
  {
    var splits := OneExpenseSplits();
    var ctx := OneExpenseContext("B");
    var l := Ledger(["A"], map["A" := Entry("Asha", -5000)]);
    OneExpenseLookup();
    assert splits[..0] == [] && splits[..2] == splits;
    RunPrefix(ctx, splits, 1);
    OneExpensePayerShare("B", EmptyLedger);
    RunPrefix(ctx, splits, 2);
    OneExpenseOwnShareForParticipant();
    assert Run(ctx, splits) == l;
    assert l.order[..0] == [];
  }

  // ---------------------------------------------------------------------
  // A paid 100.00 and B paid 100.00, each split 50.00 and 50.00.

  function TwoExpenses(): seq<ExpenseRow> {
    [ExpenseRow("e1", "A", "g"), ExpenseRow("e2", "B", "g")]
  }

  function TwoExpensesSplits(): seq<JoinedSplit> {
    [JoinedSplit("e1", "A", 5000, Some("Asha"), None),
     JoinedSplit("e1", "B", 5000, Some("Bo"), None),
     JoinedSplit("e2", "A", 5000, Some("Asha"), None),
     JoinedSplit("e2", "B", 5000, Some("Bo"), None)]
  }

  function TwoExpensesContext(viewer: UserId): Context {
    Context(viewer, map["e1" := "A", "e2" := "B"], TwoExpensesSplits())
  }

  lemma TwoExpensesLookup()
    ensures PaidByLookup(TwoExpenses()) == map["e1" := "A", "e2" := "B"]
  {
    assert TwoExpenses()[..1] == [ExpenseRow("e1", "A", "g")];
  }

  /** Each payer's own share is skipped, whoever is looking. */
  lemma TwoExpensesPayerShares(viewer: UserId, l: Ledger)
    ensures Step(TwoExpensesContext(viewer), l, TwoExpensesSplits()[0]) == l
    ensures Step(TwoExpensesContext(viewer), l, TwoExpensesSplits()[3]) == l
  {
    assert PayerOf(TwoExpensesContext(viewer), TwoExpensesSplits()[0]) == Some("A");
    assert PayerOf(TwoExpensesContext(viewer), TwoExpensesSplits()[3]) == Some("B");
  }

  /** For A, B's share of A's expense puts B at +50.00 ... */
  lemma CancellingPayerLends()
    ensures Step(TwoExpensesContext("A"), EmptyLedger, TwoExpensesSplits()[1]) ==
      Ledger(["B"], map["B" := Entry("Bo", 5000)])
  {
    assert PayerOf(TwoExpensesContext("A"), TwoExpensesSplits()[1]) == Some("A");
  }

  /** ... and A's share of B's expense brings B back to zero, keeping B's
      name and place. */
  lemma CancellingPayerBorrows()
    ensures Step(TwoExpensesContext("A"), Ledger(["B"], map["B" := Entry("Bo", 5000)]), TwoExpensesSplits()[2]) ==
      Ledger(["B"], map["B" := Entry("Bo", 0)])
  {
    var before := Ledger(["B"], map["B" := Entry("Bo", 5000)]);
    assert PayerOf(TwoExpensesContext("A"), TwoExpensesSplits()[2]) == Some("B");
    assert before.entries["B" := Entry("Bo", 0)] == map["B" := Entry("Bo", 0)];
  }

  /** For B, B's share of A's expense puts A at -50.00, named after A's
      first split row ... */
  lemma CancellingOtherBorrows()
    ensures Step(TwoExpensesContext("B"), EmptyLedger, TwoExpensesSplits()[1]) ==
      Ledger(["A"], map["A" := Entry("Asha", -5000)])
  {
    var splits := TwoExpensesSplits();
    assert PayerOf(TwoExpensesContext("B"), splits[1]) == Some("A");
    assert FindByUser(splits, "A") == Some(splits[0]);
  }

  /** ... and A's share of B's expense brings A back to zero. */
  lemma CancellingOtherLends()
    ensures Step(TwoExpensesContext("B"), Ledger(["A"], map["A" := Entry("Asha", -5000)]), TwoExpensesSplits()[2]) ==
      Ledger(["A"], map["A" := Entry("Asha", 0)])
  {
    var before := Ledger(["A"], map["A" := Entry("Asha", -5000)]);
    assert PayerOf(TwoExpensesContext("B"), TwoExpensesSplits()[2]) == Some("B");
    assert before.entries["A" := Entry("Asha", 0)] == map["A" := Entry("Asha", 0)];
  }

  lemma CancellingPayerLedger()
    ensures Run(TwoExpensesContext("A"), TwoExpensesSplits()) == Ledger(["B"], map["B" := Entry("Bo", 0)])
  {
    var splits := TwoExpensesSplits();
    var ctx := TwoExpensesContext("A");
    var l1 := Ledger(["B"], map["B" := Entry("Bo", 5000)]);
    var l2 := Ledger(["B"], map["B" := Entry("Bo", 0)]);
    assert splits[..0] == [] && splits[..4] == splits;
    TwoExpensesPayerShares("A", EmptyLedger);
    TwoExpensesPayerShares("A", l2);
    CancellingPayerLends();
    CancellingPayerBorrows();
    RunPrefix(ctx, splits, 1);
    assert Run(ctx, splits[..1]) == EmptyLedger;
    RunPrefix(ctx, splits, 2);
    assert Run(ctx, splits[..2]) == l1;
    RunPrefix(ctx, splits, 3);
    assert Run(ctx, splits[..3]) == l2;
    RunPrefix(ctx, splits, 4);
  }

  lemma CancellingOtherLedger()
    ensures Run(TwoExpensesContext("B"), TwoExpensesSplits()) == Ledger(["A"], map["A" := Entry("Asha", 0)])
  {
    var splits := TwoExpensesSplits();
    var ctx := TwoExpensesContext("B");
    var l1 := Ledger(["A"], map["A" := Entry("Asha", -5000)]);
    var l2 := Ledger(["A"], map["A" := Entry("Asha", 0)]);
    assert splits[..0] == [] && splits[..4] == splits;
    TwoExpensesPayerShares("B", EmptyLedger);
    TwoExpensesPayerShares("B", l2);
    CancellingOtherBorrows();
    CancellingOtherLends();
    RunPrefix(ctx, splits, 1);
    assert Run(ctx, splits[..1]) == EmptyLedger;
    RunPrefix(ctx, splits, 2);
    assert Run(ctx, splits[..2]) == l1;
    RunPrefix(ctx, splits, 3);
    assert Run(ctx, splits[..3]) == l2;
    RunPrefix(ctx, splits, 4);
  }

  /** For A the nets cancel: B is settled and left out, and every total is
      zero. */
  lemma CancellingExpensesPayerView()
    ensures SummaryOf("A", ["g"], TwoExpenses(), TwoExpensesSplits()) == ZeroSummary
  {
    TwoExpensesLookup();
    CancellingPayerLedger();
    var l := Ledger(["B"], map["B" := Entry("Bo", 0)]);
    assert l.order[..0] == [];
  }

  /** The same two expenses seen by B: also all zero. */
  lemma CancellingExpensesOtherView()
    ensures SummaryOf("B", ["g"], TwoExpenses(), TwoExpensesSplits()) == ZeroSummary
  {
    TwoExpensesLookup();
    CancellingOtherLedger();
    var l := Ledger(["A"], map["A" := Entry("Asha", 0)]);
    assert l.order[..0] == [];
  }
}
