/** What the summary means, stated independently of the scan: the net of a
    counterparty is what they owe on expenses the viewer paid minus what the
    viewer owes on expenses they paid; counterparties are listed in the
    order of the first row that involves them; the balance is the viewer's
    whole position. Each is proved of the functions in BalanceSummary. */
module BalanceProperties {
  import opened Wrappers
  import opened Domain
  import opened BalanceSummary

  // ---------------------------------------------------------------------
  // Reference definitions

  /** Row s is c's share of an expense the viewer paid. */
  predicate LendsTo(ctx: Context, s: JoinedSplit, c: UserId) {
    PayerOf(ctx, s) == Some(ctx.viewer) && s.userId == c && c != ctx.viewer
  }

  /** Row s is the viewer's share of an expense c paid. */
  predicate BorrowsFrom(ctx: Context, s: JoinedSplit, c: UserId) {
    s.userId == ctx.viewer && PayerOf(ctx, s) == Some(c) && c != ctx.viewer
  }

  /** Row s is a debt between the viewer and c, in either direction. */
  predicate Touches(ctx: Context, s: JoinedSplit, c: UserId) {
    LendsTo(ctx, s, c) || BorrowsFrom(ctx, s, c)
  }

  ghost predicate TouchedIn(ctx: Context, rows: seq<JoinedSplit>, c: UserId) {
    exists k :: 0 <= k < |rows| && Touches(ctx, rows[k], c)
  }

  /** What c owes the viewer over all rows. */
  function Lent(ctx: Context, rows: seq<JoinedSplit>, c: UserId): Cents {
    if rows == [] then 0
    else
      var s := rows[|rows| - 1];
      Lent(ctx, rows[..|rows| - 1], c) + (if LendsTo(ctx, s, c) then s.amount else 0)
  }

  /** What the viewer owes c over all rows. */
  function Borrowed(ctx: Context, rows: seq<JoinedSplit>, c: UserId): Cents {
    if rows == [] then 0
    else
      var s := rows[|rows| - 1];
      Borrowed(ctx, rows[..|rows| - 1], c) + (if BorrowsFrom(ctx, s, c) then s.amount else 0)
  }

  /** The net balance of c with the viewer, positive when c owes the viewer. */
  function NetOf(ctx: Context, rows: seq<JoinedSplit>, c: UserId): Cents {
    Lent(ctx, rows, c) - Borrowed(ctx, rows, c)
  }

  /** What others owe the viewer, summed over every expense the viewer paid. */
  function TotalLent(ctx: Context, rows: seq<JoinedSplit>): Cents {
    if rows == [] then 0
    else
      var s := rows[|rows| - 1];
      TotalLent(ctx, rows[..|rows| - 1]) +
        (if PayerOf(ctx, s) == Some(ctx.viewer) && s.userId != ctx.viewer then s.amount else 0)
  }

  /** The viewer's shares of every expense someone else paid. */
  function TotalBorrowed(ctx: Context, rows: seq<JoinedSplit>): Cents {
    if rows == [] then 0
    else
      var s := rows[|rows| - 1];
      TotalBorrowed(ctx, rows[..|rows| - 1]) +
        (if s.userId == ctx.viewer && PayerOf(ctx, s).Some? && PayerOf(ctx, s).value != ctx.viewer
         then s.amount else 0)
  }

  /** The index of the first row that touches c, or |rows| if none does. */
  function FirstTouch(ctx: Context, rows: seq<JoinedSplit>, c: UserId): (k: nat)
    ensures k <= |rows|
    ensures forall j :: 0 <= j < k ==> !Touches(ctx, rows[j], c)
    ensures k < |rows| ==> Touches(ctx, rows[k], c)
  {
    if rows == [] then 0
    else if Touches(ctx, rows[0], c) then 0
    else
      var k := FirstTouch(ctx, rows[1..], c);
      assert forall j :: 0 < j < |rows| ==> rows[j] == rows[1..][j - 1];
      1 + k
  }

  /** The name a counterparty is inserted with when row s touches it first:
      the participant's own name for a share of the viewer's expense, the
      payer's name otherwise. */
  function InsertedName(ctx: Context, s: JoinedSplit): string
    requires PayerOf(ctx, s).Some?
  {
    var payer := PayerOf(ctx, s).value;
    if payer == ctx.viewer then DisplayName(s) else PayerName(ctx.splits, payer)
  }

  /** The net the ledger holds for c, zero when c is not a key. */
  function NetIn(l: Ledger, c: UserId): Cents {
    if c in l.entries then l.entries[c].net else 0
  }

  function SumNets(order: seq<UserId>, entries: map<UserId, Entry>): Cents
    requires forall u :: u in order ==> u in entries
  {
    if order == [] then 0
    else SumNets(order[..|order| - 1], entries) + entries[order[|order| - 1]].net
  }

  function SumLines(lines: seq<Line>): Cents {
    if lines == [] then 0 else SumLines(lines[..|lines| - 1]) + lines[|lines| - 1].amount
  }

  /** The position of the first occurrence of c in `order`. */
  function IndexOf(order: seq<UserId>, c: UserId): (k: nat)
    requires c in order
    ensures k < |order| && order[k] == c
    ensures forall j :: 0 <= j < k ==> order[j] != c
  {
    if order[0] == c then 0
    else
      var k := IndexOf(order[1..], c);
      assert forall j :: 0 < j < |order| ==> order[j] == order[1..][j - 1];
      1 + k
  }

  /** r lists keys of `order`, each once, in the order `order` has them. */
  ghost predicate InOrderOf(r: seq<UserId>, order: seq<UserId>) {
    && (forall i :: 0 <= i < |r| ==> r[i] in order)
    && (forall i, j :: 0 <= i < j < |r| ==>
          r[i] in order && r[j] in order && IndexOf(order, r[i]) < IndexOf(order, r[j]))
  }

  /** The counterparties that owe the viewer, in ledger order. */
  function OwedByIds(order: seq<UserId>, entries: map<UserId, Entry>): (r: seq<UserId>)
    requires forall u :: u in order ==> u in entries
    ensures forall c :: c in r <==> c in order && entries[c].net > 0
  {
    if order == [] then []
    else
      var c := order[|order| - 1];
      var r := OwedByIds(order[..|order| - 1], entries);
      if entries[c].net > 0 then r + [c] else r
  }

  /** The counterparties the viewer owes, in ledger order. */
  function OwesToIds(order: seq<UserId>, entries: map<UserId, Entry>): (r: seq<UserId>)
    requires forall u :: u in order ==> u in entries
    ensures forall c :: c in r <==> c in order && entries[c].net < 0
  {
    if order == [] then []
    else
      var c := order[|order| - 1];
      var r := OwesToIds(order[..|order| - 1], entries);
      if entries[c].net < 0 then r + [c] else r
  }

  /** A key before the last keeps its position when `order` drops its
      last key. */
  lemma IndexOfInit(order: seq<UserId>, c: UserId)
    requires order != [] && c in order[..|order| - 1]
    ensures IndexOf(order, c) == IndexOf(order[..|order| - 1], c)
  {
    var init := order[..|order| - 1];
    var k1, k2 := IndexOf(order, c), IndexOf(init, c);
    assert order[k2] == c;
    assert init[k1] == c;
  }

  /** Appending the last key of distinct `order` to a selection from the
      keys before it keeps the selection in ledger order. */
  lemma InOrderSnoc(order: seq<UserId>, r: seq<UserId>)
    requires order != [] && Distinct(order)
    requires InOrderOf(r, order[..|order| - 1])
    ensures InOrderOf(r, order)
    ensures InOrderOf(r + [order[|order| - 1]], order)
  {
    var init, c, r' := order[..|order| - 1], order[|order| - 1], r + [order[|order| - 1]];
    forall i | 0 <= i < |r| ensures r[i] in init && IndexOf(order, r[i]) == IndexOf(init, r[i]) < |init| {
      IndexOfInit(order, r[i]);
    }
    assert IndexOf(order, c) == |init| by {
      var k := IndexOf(order, c);
      assert order[k] == order[|order| - 1];
    }
    forall i, j | 0 <= i < j < |r'|
      ensures r'[i] in order && r'[j] in order && IndexOf(order, r'[i]) < IndexOf(order, r'[j])
    {
      assert r'[i] == r[i];
      if j < |r| {
        assert r'[j] == r[j];
      }
    }
  }

  /** Both selections list keys of distinct `order`, each once, in its order. */
  lemma {:induction false} IdsInLedgerOrder(order: seq<UserId>, entries: map<UserId, Entry>)
    requires forall u :: u in order ==> u in entries
    requires Distinct(order)
    ensures InOrderOf(OwedByIds(order, entries), order)
    ensures InOrderOf(OwesToIds(order, entries), order)
  {
    if order != [] {
      var init := order[..|order| - 1];
      assert forall u :: u in init ==> u in order;
      IdsInLedgerOrder(init, entries);
      InOrderSnoc(order, OwedByIds(init, entries));
      InOrderSnoc(order, OwesToIds(init, entries));
    }
  }

  /** A selection in the order of `order` lists each key once. */
  lemma InOrderIsDistinct(r: seq<UserId>, order: seq<UserId>)
    requires InOrderOf(r, order)
    ensures Distinct(r)
  {
  }

  // ---------------------------------------------------------------------
  // One row

  /** The three skips of the scan: a row with no known payer, a payer's own
      share, and a row between two other users leave the ledger as it is. */
  lemma SkippedRowsChangeNothing(ctx: Context, l: Ledger, s: JoinedSplit)
    requires || PayerOf(ctx, s).None?
             || PayerOf(ctx, s) == Some(s.userId)
             || (PayerOf(ctx, s) != Some(ctx.viewer) && s.userId != ctx.viewer)
    ensures Step(ctx, l, s) == l
  {
  }

  /** One row moves the net of the one counterparty it touches, by its
      amount when that counterparty owes the viewer and by minus its amount
      when the viewer owes them; every other net, and every name already
      there, stays. A key is added exactly for a counterparty the row
      touches, and it is added last. */
  lemma StepEffect(ctx: Context, l: Ledger, s: JoinedSplit)
    ensures forall c ::
      NetIn(Step(ctx, l, s), c) ==
      NetIn(l, c) + (if LendsTo(ctx, s, c) then s.amount else if BorrowsFrom(ctx, s, c) then -s.amount else 0)
    ensures forall c :: c in Step(ctx, l, s).entries <==> c in l.entries || Touches(ctx, s, c)
    ensures forall c :: c in l.entries ==> Step(ctx, l, s).entries[c].name == l.entries[c].name
    ensures forall c :: c !in l.entries && Touches(ctx, s, c) ==>
      && Step(ctx, l, s).order == l.order + [c]
      && Step(ctx, l, s).entries[c].name == InsertedName(ctx, s)
    ensures (forall c :: c in l.entries || !Touches(ctx, s, c)) ==> Step(ctx, l, s).order == l.order
  {
  }

  /** c is touched by some row exactly when its first touch is a real index. */
  lemma TouchedInIsFirstTouch(ctx: Context, rows: seq<JoinedSplit>, c: UserId)
    ensures TouchedIn(ctx, rows, c) <==> FirstTouch(ctx, rows, c) < |rows|
  {
    if TouchedIn(ctx, rows, c) {
      var k :| 0 <= k < |rows| && Touches(ctx, rows[k], c);
      assert FirstTouch(ctx, rows, c) <= k;
    }
  }

  lemma FirstTouchSnoc(ctx: Context, rows: seq<JoinedSplit>, c: UserId)
    requires rows != []
    ensures var init := rows[..|rows| - 1];
      FirstTouch(ctx, rows, c) ==
        if FirstTouch(ctx, init, c) < |init| then FirstTouch(ctx, init, c)
        else if Touches(ctx, rows[|rows| - 1], c) then |init|
        else |rows|
  {
    var init := rows[..|rows| - 1];
    assert forall k :: 0 <= k < |init| ==> rows[k] == init[k];
    var f, g := FirstTouch(ctx, rows, c), FirstTouch(ctx, init, c);
    if g < |init| {
      assert Touches(ctx, rows[g], c);
    }
  }

  lemma TouchedInSnoc(ctx: Context, rows: seq<JoinedSplit>, c: UserId)
    requires rows != []
    ensures TouchedIn(ctx, rows, c) <==>
      TouchedIn(ctx, rows[..|rows| - 1], c) || Touches(ctx, rows[|rows| - 1], c)
  {
    TouchedInIsFirstTouch(ctx, rows, c);
    TouchedInIsFirstTouch(ctx, rows[..|rows| - 1], c);
    FirstTouchSnoc(ctx, rows, c);
  }

  // ---------------------------------------------------------------------
  // The scan

  /** After the scan, the ledger holds exactly the counterparties that some
      row touches, and the net of every user is what they lent minus what
      they borrowed. */
  lemma {:induction false} RunComputesNets(ctx: Context, rows: seq<JoinedSplit>)
    ensures forall c :: c in Run(ctx, rows).entries <==> TouchedIn(ctx, rows, c)
    ensures forall c :: NetIn(Run(ctx, rows), c) == NetOf(ctx, rows, c)
  {
    if rows != [] {
      var init, s := rows[..|rows| - 1], rows[|rows| - 1];
      RunComputesNets(ctx, init);
      StepEffect(ctx, Run(ctx, init), s);
      forall c ensures c in Run(ctx, rows).entries <==> TouchedIn(ctx, rows, c) {
        TouchedInSnoc(ctx, rows, c);
      }
    }
  }

  /** Every key of `order` is touched by some row, and keys stand in the
      order of their first touch. */
  ghost predicate OrderedByFirstTouch(ctx: Context, rows: seq<JoinedSplit>, order: seq<UserId>) {
    && (forall i :: 0 <= i < |order| ==> FirstTouch(ctx, rows, order[i]) < |rows|)
    && (forall i, j :: 0 <= i < j < |order| ==>
          FirstTouch(ctx, rows, order[i]) < FirstTouch(ctx, rows, order[j]))
  }

  /** Counterparties are kept in the order of the first row that touches
      each of them. */
  lemma {:induction false} RunOrderIsFirstTouch(ctx: Context, rows: seq<JoinedSplit>)
    ensures OrderedByFirstTouch(ctx, rows, Run(ctx, rows).order)
  {
    if rows != [] {
      RunOrderIsFirstTouch(ctx, rows[..|rows| - 1]);
      RunOrderStep(ctx, rows);
    }
  }

  lemma RunOrderStep(ctx: Context, rows: seq<JoinedSplit>)
    requires rows != []
    requires OrderedByFirstTouch(ctx, rows[..|rows| - 1], Run(ctx, rows[..|rows| - 1]).order)
    ensures OrderedByFirstTouch(ctx, rows, Run(ctx, rows).order)
  {
    var init, s := rows[..|rows| - 1], rows[|rows| - 1];
    var l := Run(ctx, init);
    var order := Run(ctx, rows).order;
    FirstTouchKept(ctx, rows, l.order);
    StepEffect(ctx, l, s);
    if order != l.order {
      var c :| c !in l.entries && Touches(ctx, s, c);
      assert order == l.order + [c];
      NewKeyFirstTouch(ctx, rows, c);
    }
  }

  /** Keys already there keep their first touch when a row is appended. */
  lemma FirstTouchKept(ctx: Context, rows: seq<JoinedSplit>, order: seq<UserId>)
    requires rows != []
    requires forall i :: 0 <= i < |order| ==> FirstTouch(ctx, rows[..|rows| - 1], order[i]) < |rows| - 1
    ensures forall i :: 0 <= i < |order| ==>
      FirstTouch(ctx, rows, order[i]) == FirstTouch(ctx, rows[..|rows| - 1], order[i])
  {
    forall i | 0 <= i < |order|
      ensures FirstTouch(ctx, rows, order[i]) == FirstTouch(ctx, rows[..|rows| - 1], order[i])
    {
      FirstTouchSnoc(ctx, rows, order[i]);
    }
  }

  /** A key the last row adds is first touched by that row. */
  lemma NewKeyFirstTouch(ctx: Context, rows: seq<JoinedSplit>, c: UserId)
    requires rows != []
    requires c !in Run(ctx, rows[..|rows| - 1]).entries && Touches(ctx, rows[|rows| - 1], c)
    ensures FirstTouch(ctx, rows, c) == |rows| - 1
  {
    var init := rows[..|rows| - 1];
    RunComputesNets(ctx, init);
    TouchedInIsFirstTouch(ctx, init, c);
    FirstTouchSnoc(ctx, rows, c);
  }

  /** The name of a counterparty is the one it was inserted with, by the
      first row that touches it; later rows do not change it. */
  lemma {:induction false} RunNamesFromFirstTouch(ctx: Context, rows: seq<JoinedSplit>, c: UserId)
    requires c in Run(ctx, rows).entries
    ensures FirstTouch(ctx, rows, c) < |rows|
    ensures PayerOf(ctx, rows[FirstTouch(ctx, rows, c)]).Some?
    ensures Run(ctx, rows).entries[c].name == InsertedName(ctx, rows[FirstTouch(ctx, rows, c)])
  {
    var init, s := rows[..|rows| - 1], rows[|rows| - 1];
    var l := Run(ctx, init);
    RunComputesNets(ctx, init);
    TouchedInIsFirstTouch(ctx, init, c);
    StepEffect(ctx, l, s);
    FirstTouchSnoc(ctx, rows, c);
    if c in l.entries {
      RunNamesFromFirstTouch(ctx, init, c);
      assert rows[FirstTouch(ctx, rows, c)] == init[FirstTouch(ctx, init, c)];
    }
  }

  // ---------------------------------------------------------------------
  // Rows that involve nobody

  /** Does the row move any balance of the viewer's? */
  ghost predicate Involves(ctx: Context, s: JoinedSplit) {
    exists c :: Touches(ctx, s, c)
  }

  function Keep(rows: seq<JoinedSplit>, keep: JoinedSplit -> bool): (r: seq<JoinedSplit>)
    ensures forall s :: s in r <==> s in rows && keep(s)
  {
    if rows == [] then []
    else
      var s := rows[|rows| - 1];
      Keep(rows[..|rows| - 1], keep) + (if keep(s) then [s] else [])
  }

  /** A row that touches no counterparty leaves the ledger as it is. */
  lemma UninvolvedRowChangesNothing(ctx: Context, l: Ledger, s: JoinedSplit)
    ensures Involves(ctx, s) || Step(ctx, l, s) == l
  {
    match PayerOf(ctx, s)
    case None =>
    case Some(p) =>
      if p != s.userId && p == ctx.viewer {
        assert Touches(ctx, s, s.userId);
      } else if p != s.userId && s.userId == ctx.viewer {
        assert Touches(ctx, s, p);
      }
  }

  /** Dropping rows that touch no counterparty does not change the ledger. */
  lemma {:induction false} DroppingUninvolvedRows(ctx: Context, rows: seq<JoinedSplit>, keep: JoinedSplit -> bool)
    requires forall s :: s in rows && !keep(s) ==> !Involves(ctx, s)
    ensures Run(ctx, Keep(rows, keep)) == Run(ctx, rows)
  {
    if rows != [] {
      var init, s := rows[..|rows| - 1], rows[|rows| - 1];
      assert forall x :: x in init ==> x in rows;
      DroppingUninvolvedRows(ctx, init, keep);
      if !keep(s) {
        assert Keep(rows, keep) == Keep(init, keep) + [] == Keep(init, keep);
        UninvolvedRowChangesNothing(ctx, Run(ctx, init), s);
      } else {
        var kept := Keep(init, keep) + [s];
        assert kept[..|kept| - 1] == Keep(init, keep);
      }
    }
  }

  /** An expense whose every split is its payer's own share (or whose payer
      is unknown) contributes nothing to any viewer's ledger. */
  lemma SelfPaidExpenseIsNeutral(ctx: Context, rows: seq<JoinedSplit>, e: ExpenseId)
    requires forall s :: s in rows && s.expenseId == e ==>
      PayerOf(ctx, s).None? || PayerOf(ctx, s) == Some(s.userId)
    ensures Run(ctx, Keep(rows, (s: JoinedSplit) => s.expenseId != e)) == Run(ctx, rows)
  {
    DroppingUninvolvedRows(ctx, rows, (s: JoinedSplit) => s.expenseId != e);
  }

  // ---------------------------------------------------------------------
  // Totals

  lemma {:induction false} SumNetsUpdate(order: seq<UserId>, entries: map<UserId, Entry>, key: UserId, e: Entry)
    requires forall u :: u in order ==> u in entries
    requires Distinct(order)
    ensures SumNets(order, entries[key := e]) ==
      SumNets(order, entries) + (if key in order then e.net - entries[key].net else 0)
  {
    if order != [] {
      var init := order[..|order| - 1];
      assert forall u :: u in init ==> u in order;
      SumNetsUpdate(init, entries, key, e);
      assert key == order[|order| - 1] ==> key !in init;
    }
  }

  /** Posting delta to a key moves the sum of all nets by delta. */
  lemma PostSumNets(l: Ledger, key: UserId, name: string, delta: Cents)
    requires ValidLedger(l)
    ensures SumNets(Post(l, key, name, delta).order, Post(l, key, name, delta).entries) ==
      SumNets(l.order, l.entries) + delta
  {
    var l' := Post(l, key, name, delta);
    if key in l.entries {
      var e := Entry(l.entries[key].name, l.entries[key].net + delta);
      assert l' == Ledger(l.order, l.entries[key := e]);
      SumNetsUpdate(l.order, l.entries, key, e);
    } else {
      var e := Entry(name, delta);
      assert l' == Ledger(l.order + [key], l.entries[key := e]);
      SumNetsUpdate(l.order, l.entries, key, e);
      assert l'.order[..|l'.order| - 1] == l.order;
    }
  }

  /** One row moves the sum of all nets by what it adds to the viewer's
      position. */
  lemma StepSumNets(ctx: Context, l: Ledger, s: JoinedSplit)
    requires ValidLedger(l)
    ensures SumNets(Step(ctx, l, s).order, Step(ctx, l, s).entries) ==
      SumNets(l.order, l.entries) +
      (if PayerOf(ctx, s) == Some(ctx.viewer) && s.userId != ctx.viewer then s.amount
       else if s.userId == ctx.viewer && PayerOf(ctx, s).Some? && PayerOf(ctx, s).value != ctx.viewer
       then -s.amount else 0)
  {
    var l' := Step(ctx, l, s);
    match PayerOf(ctx, s)
    case None =>
      assert l' == l;
    case Some(p) =>
      if p == s.userId {
        assert l' == l;
      } else if p == ctx.viewer {
        assert l' == Post(l, s.userId, DisplayName(s), s.amount);
        PostSumNets(l, s.userId, DisplayName(s), s.amount);
        assert SumNets(l'.order, l'.entries) == SumNets(l.order, l.entries) + s.amount;
      } else if s.userId == ctx.viewer {
        assert l' == Post(l, p, PayerName(ctx.splits, p), -s.amount);
        PostSumNets(l, p, PayerName(ctx.splits, p), -s.amount);
        assert SumNets(l'.order, l'.entries) == SumNets(l.order, l.entries) - s.amount;
      } else {
        assert l' == l;
      }
  }

  /** The sum of all nets is the viewer's whole position. */
  lemma {:induction false} RunSumNets(ctx: Context, rows: seq<JoinedSplit>)
    ensures SumNets(Run(ctx, rows).order, Run(ctx, rows).entries) ==
      TotalLent(ctx, rows) - TotalBorrowed(ctx, rows)
  {
    if rows != [] {
      var init, s := rows[..|rows| - 1], rows[|rows| - 1];
      RunSumNets(ctx, init);
      StepSumNets(ctx, Run(ctx, init), s);
    }
  }

  // ---------------------------------------------------------------------
  // The second loop

  /** owedBy lists exactly the counterparties with a positive net, in
      ledger order, with their name and net; owesTo those with a negative
      net, with the net negated. */
  lemma {:induction false} TallyLists(order: seq<UserId>, entries: map<UserId, Entry>)
    requires forall u :: u in order ==> u in entries
    ensures var t, ids, jds := TallyOf(order, entries), OwedByIds(order, entries), OwesToIds(order, entries);
      && |t.owedBy| == |ids|
      && (forall k :: 0 <= k < |ids| ==> t.owedBy[k] == Line(entries[ids[k]].name, entries[ids[k]].net))
      && |t.owesTo| == |jds|
      && (forall k :: 0 <= k < |jds| ==> t.owesTo[k] == Line(entries[jds[k]].name, -entries[jds[k]].net))
  {
    if order != [] {
      var init := order[..|order| - 1];
      assert forall u :: u in init ==> u in order;
      TallyLists(init, entries);
      NoiseBandIsZero(entries[order[|order| - 1]].net);
    }
  }

  /** The totals are the sums of the listed amounts, and their difference
      is the sum of all nets (settled counterparties have net zero). */
  lemma {:induction false} TallyTotals(order: seq<UserId>, entries: map<UserId, Entry>)
    requires forall u :: u in order ==> u in entries
    ensures var t := TallyOf(order, entries);
      && t.totalOwed == SumLines(t.owedBy)
      && t.totalOwes == SumLines(t.owesTo)
      && (forall k :: 0 <= k < |t.owedBy| ==> t.owedBy[k].amount > 0)
      && (forall k :: 0 <= k < |t.owesTo| ==> t.owesTo[k].amount > 0)
      && t.totalOwed - t.totalOwes == SumNets(order, entries)
  {
    if order != [] {
      var init := order[..|order| - 1];
      assert forall u :: u in init ==> u in order;
      TallyTotals(init, entries);
      var t := TallyOf(init, entries);
      var e := entries[order[|order| - 1]];
      NoiseBandIsZero(e.net);
      assert SumNets(order, entries) == SumNets(init, entries) + e.net;
      if e.net > 0 {
        var owedBy := t.owedBy + [Line(e.name, e.net)];
        assert owedBy[..|t.owedBy|] == t.owedBy;
        assert TallyOf(order, entries) == Tally(t.totalOwed + e.net, t.totalOwes, owedBy, t.owesTo);
      } else if e.net < 0 {
        var owesTo := t.owesTo + [Line(e.name, -e.net)];
        assert owesTo[..|t.owesTo|] == t.owesTo;
        assert TallyOf(order, entries) == Tally(t.totalOwed, t.totalOwes - e.net, t.owedBy, owesTo);
      } else {
        assert TallyOf(order, entries) == t;
      }
    }
  }

  lemma {:induction false} SumOfPositiveLines(lines: seq<Line>)
    requires forall k :: 0 <= k < |lines| ==> lines[k].amount > 0
    ensures SumLines(lines) >= 0
    ensures lines != [] ==> SumLines(lines) > 0
  {
    if lines != [] {
      SumOfPositiveLines(lines[..|lines| - 1]);
    }
  }

  // ---------------------------------------------------------------------
  // The summary

  /** The scan context of a GET: the viewer, the payer lookup built from the
      expenses, and all split rows. */
  function ContextOf(viewer: UserId, expenses: seq<ExpenseRow>, splits: seq<JoinedSplit>): Context {
    Context(viewer, PaidByLookup(expenses), splits)
  }

  /** The two early returns: a viewer in no group, or groups without
      expenses, get the all-zero summary whatever the split rows are. */
  lemma SummaryZeroCases(viewer: UserId, groupIds: seq<GroupId>, expenses: seq<ExpenseRow>, splits: seq<JoinedSplit>)
    requires |groupIds| == 0 || |expenses| == 0
    ensures SummaryOf(viewer, groupIds, expenses, splits) == ZeroSummary
  {
  }

  lemma {:induction false} NetZeroOutsideLedger(ctx: Context, rows: seq<JoinedSplit>, c: UserId)
    ensures c in Run(ctx, rows).entries <==> TouchedIn(ctx, rows, c)
    ensures c in Run(ctx, rows).entries ==> Run(ctx, rows).entries[c].net == NetOf(ctx, rows, c)
    ensures c !in Run(ctx, rows).entries ==> NetOf(ctx, rows, c) == 0
  {
    RunComputesNets(ctx, rows);
    assert NetIn(Run(ctx, rows), c) == NetOf(ctx, rows, c);
  }

  /** Keys listed in ledger order stand in the order of their first touch. */
  lemma ListedByFirstTouch(ctx: Context, rows: seq<JoinedSplit>, ids: seq<UserId>)
    requires InOrderOf(ids, Run(ctx, rows).order)
    ensures forall i, j :: 0 <= i < j < |ids| ==>
      FirstTouch(ctx, rows, ids[i]) < FirstTouch(ctx, rows, ids[j])
  {
    var order := Run(ctx, rows).order;
    RunOrderIsFirstTouch(ctx, rows);
    forall i, j | 0 <= i < j < |ids|
      ensures FirstTouch(ctx, rows, ids[i]) < FirstTouch(ctx, rows, ids[j])
    {
      var a, b := IndexOf(order, ids[i]), IndexOf(order, ids[j]);
      assert order[a] == ids[i] && order[b] == ids[j];
    }
  }

  /** Each listed key holds the name its first touching row inserted and
      its net over all rows. */
  lemma ListedEntries(ctx: Context, rows: seq<JoinedSplit>, ids: seq<UserId>)
    requires forall c :: c in ids ==> c in Run(ctx, rows).entries
    ensures forall k :: 0 <= k < |ids| ==>
      && FirstTouch(ctx, rows, ids[k]) < |rows|
      && PayerOf(ctx, rows[FirstTouch(ctx, rows, ids[k])]).Some?
      && Run(ctx, rows).entries[ids[k]] ==
         Entry(InsertedName(ctx, rows[FirstTouch(ctx, rows, ids[k])]), NetOf(ctx, rows, ids[k]))
  {
    forall k | 0 <= k < |ids|
      ensures FirstTouch(ctx, rows, ids[k]) < |rows|
      ensures PayerOf(ctx, rows[FirstTouch(ctx, rows, ids[k])]).Some?
      ensures Run(ctx, rows).entries[ids[k]] ==
        Entry(InsertedName(ctx, rows[FirstTouch(ctx, rows, ids[k])]), NetOf(ctx, rows, ids[k]))
    {
      RunNamesFromFirstTouch(ctx, rows, ids[k]);
      NetZeroOutsideLedger(ctx, rows, ids[k]);
    }
  }

  /** owedBy lists every counterparty whose net with the viewer is positive
      and no other, each once, in the order of the first row that touches
      it, with the name it was inserted with and its net as the amount. */
  lemma SummaryOwedBy(viewer: UserId, groupIds: seq<GroupId>, expenses: seq<ExpenseRow>, splits: seq<JoinedSplit>)
    requires |groupIds| > 0 && |expenses| > 0
    ensures var ctx := ContextOf(viewer, expenses, splits);
      var l := Run(ctx, splits);
      var ids := OwedByIds(l.order, l.entries);
      var sum := SummaryOf(viewer, groupIds, expenses, splits);
      && |sum.owedBy| == |ids|
      && (forall c :: c in ids <==> NetOf(ctx, splits, c) > 0)
      && Distinct(ids)
      && (forall i, j :: 0 <= i < j < |ids| ==>
            FirstTouch(ctx, splits, ids[i]) < FirstTouch(ctx, splits, ids[j]))
      && (forall k :: 0 <= k < |ids| ==>
            && FirstTouch(ctx, splits, ids[k]) < |splits|
            && PayerOf(ctx, splits[FirstTouch(ctx, splits, ids[k])]).Some?
            && sum.owedBy[k] ==
               Line(InsertedName(ctx, splits[FirstTouch(ctx, splits, ids[k])]), NetOf(ctx, splits, ids[k])))
  {
    var ctx := ContextOf(viewer, expenses, splits);
    var l := Run(ctx, splits);
    var ids := OwedByIds(l.order, l.entries);
    TallyLists(l.order, l.entries);
    IdsInLedgerOrder(l.order, l.entries);
    InOrderIsDistinct(ids, l.order);
    forall c ensures c in ids <==> NetOf(ctx, splits, c) > 0 {
      NetZeroOutsideLedger(ctx, splits, c);
    }
    ListedByFirstTouch(ctx, splits, ids);
    ListedEntries(ctx, splits, ids);
  }


  /** owesTo lists every counterparty whose net with the viewer is
      negative and no other, each once, in the order of the first row that
      touches it, with the name it was inserted with and the negated net as
      the amount. */
  lemma SummaryOwesTo(viewer: UserId, groupIds: seq<GroupId>, expenses: seq<ExpenseRow>, splits: seq<JoinedSplit>)
    requires |groupIds| > 0 && |expenses| > 0
    ensures var ctx := ContextOf(viewer, expenses, splits);
      var l := Run(ctx, splits);
      var ids := OwesToIds(l.order, l.entries);
      var sum := SummaryOf(viewer, groupIds, expenses, splits);
      && |sum.owesTo| == |ids|
      && (forall c :: c in ids <==> NetOf(ctx, splits, c) < 0)
      && Distinct(ids)
      && (forall i, j :: 0 <= i < j < |ids| ==>
            FirstTouch(ctx, splits, ids[i]) < FirstTouch(ctx, splits, ids[j]))
      && (forall k :: 0 <= k < |ids| ==>
            && FirstTouch(ctx, splits, ids[k]) < |splits|
            && PayerOf(ctx, splits[FirstTouch(ctx, splits, ids[k])]).Some?
            && sum.owesTo[k] ==
               Line(InsertedName(ctx, splits[FirstTouch(ctx, splits, ids[k])]), -NetOf(ctx, splits, ids[k])))
  {
    var ctx := ContextOf(viewer, expenses, splits);
    var l := Run(ctx, splits);
    var ids := OwesToIds(l.order, l.entries);
    TallyLists(l.order, l.entries);
    IdsInLedgerOrder(l.order, l.entries);
    InOrderIsDistinct(ids, l.order);
    forall c ensures c in ids <==> NetOf(ctx, splits, c) < 0 {
      NetZeroOutsideLedger(ctx, splits, c);
    }
    ListedByFirstTouch(ctx, splits, ids);
    ListedEntries(ctx, splits, ids);
  }


  /** No counterparty is in both lists. */
  lemma SummaryListsDisjoint(viewer: UserId, expenses: seq<ExpenseRow>, splits: seq<JoinedSplit>, c: UserId)
    ensures var l := Run(ContextOf(viewer, expenses, splits), splits);
      !(c in OwedByIds(l.order, l.entries) && c in OwesToIds(l.order, l.entries))
  {
  }

  /** totalOwed and totalOwes are the sums of the listed amounts, every
      listed amount is positive, both totals are non-negative, and the
      balance is their difference. */
  lemma SummaryTotals(viewer: UserId, groupIds: seq<GroupId>, expenses: seq<ExpenseRow>, splits: seq<JoinedSplit>)
    ensures var sum := SummaryOf(viewer, groupIds, expenses, splits);
      && sum.totalOwed == SumLines(sum.owedBy) >= 0
      && sum.totalOwes == SumLines(sum.owesTo) >= 0
      && (forall k :: 0 <= k < |sum.owedBy| ==> sum.owedBy[k].amount > 0)
      && (forall k :: 0 <= k < |sum.owesTo| ==> sum.owesTo[k].amount > 0)
      && sum.totalBalance == sum.totalOwed - sum.totalOwes
  {
    if |groupIds| > 0 && |expenses| > 0 {
      var l := Run(ContextOf(viewer, expenses, splits), splits);
      TallyTotals(l.order, l.entries);
      var t := TallyOf(l.order, l.entries);
      SumOfPositiveLines(t.owedBy);
      SumOfPositiveLines(t.owesTo);
    }
  }

  /** The balance is the viewer's whole position: what others owe on the
      expenses the viewer paid minus the viewer's shares of the expenses
      others paid. Settled counterparties, left out of both lists, have net
      zero, so nothing is lost by leaving them out. */
  lemma SummaryBalanceIsPosition(viewer: UserId, groupIds: seq<GroupId>, expenses: seq<ExpenseRow>, splits: seq<JoinedSplit>)
    requires |groupIds| > 0 && |expenses| > 0
    ensures var ctx := ContextOf(viewer, expenses, splits);
      SummaryOf(viewer, groupIds, expenses, splits).totalBalance ==
      TotalLent(ctx, splits) - TotalBorrowed(ctx, splits)
  {
    var ctx := ContextOf(viewer, expenses, splits);
    var l := Run(ctx, splits);
    TallyTotals(l.order, l.entries);
    RunSumNets(ctx, splits);
  }
}
