/** Expense creation (POST /api/expenses): the request body is validated,
    the amount is divided equally over the group's current members, and one
    expense row plus one split row per member are produced. */
module ExpenseCreation {
  import opened Wrappers
  import opened Domain

  /** One field of the JSON request body as the schema sees it: absent,
      present with a type the schema refuses (null included), or present
      with the expected type. */
  datatype Field<+T> = Missing | Mistyped | Present(value: T)

  /** The parsed JSON body, field by field. */
  datatype CreateBody = CreateBody(
    groupId: Field<string>,
    amount: Field<Cents>,
    description: Field<string>,
    paidBy: Field<string>)

  /** A body the schema accepted. */
  datatype CreateRequest = CreateRequest(
    groupId: GroupId,
    amount: Cents,
    description: Option<string>,
    paidBy: UserId)

  /** The 400 answers: unreadable JSON, a body the schema refuses, a group
      without members. */
  datatype CreateError = InvalidJson | InvalidBody | NoMembers

  datatype Expense = Expense(
    id: ExpenseId,
    groupId: GroupId,
    paidBy: UserId,
    amount: Cents,
    description: Option<string>)

  /** A row inserted into the expense_splits table. The summary reads the
      same table joined with user names, as BalanceSummary.JoinedSplit. */
  datatype SplitRow = SplitRow(expenseId: ExpenseId, userId: UserId, amount: Cents)

  /** What the transaction writes: the expense and its split rows. */
  datatype Created = Created(expense: Expense, splits: seq<SplitRow>)

  const MaxDescriptionLength: nat := 500

  predicate IsHexDigit(c: char) {
    '0' <= c <= '9' || 'a' <= c <= 'f' || 'A' <= c <= 'F'
  }

  /** The schema's uuid format: 8-4-4-4-12 hexadecimal digits, either case. */
  predicate IsUuid(s: string) {
    |s| == 36 &&
    forall i :: 0 <= i < |s| ==>
      if i == 8 || i == 13 || i == 18 || i == 23 then s[i] == '-' else IsHexDigit(s[i])
  }

  /** A string's JavaScript `.length`: its UTF-16 code units, one for a
      character of the Basic Multilingual Plane and two (a surrogate pair)
      for a character above U+FFFF. */
  function Utf16Length(s: string): (len: nat)
    ensures |s| <= len <= 2 * |s|
    ensures len == |s| <==> forall i :: 0 <= i < |s| ==> s[i] as int <= 0xFFFF
  {
    if s == [] then 0
    else
      var rest := Utf16Length(s[1..]);
      assert forall i :: 0 < i < |s| ==> s[i] == s[1..][i - 1];
      (if s[0] as int > 0xFFFF then 2 else 1) + rest
  }

  /** The length check of `max(500)`, on UTF-16 code units. */
  predicate DescriptionFits(d: string) {
    Utf16Length(d) <= MaxDescriptionLength
  }

  /** What the schema demands of an accepted request. */
  predicate WellFormed(req: CreateRequest) {
    && IsUuid(req.groupId)
    && req.amount > 0
    && (req.description.Some? ==> DescriptionFits(req.description.value))
    && IsUuid(req.paidBy)
  }

  /** The body a client sends for a request. */
  function BodyOf(req: CreateRequest): CreateBody {
    CreateBody(
      Present(req.groupId),
      Present(req.amount),
      if req.description.Some? then Present(req.description.value) else Missing,
      Present(req.paidBy))
  }

  /** The schema check: uuid groupId and paidBy, a positive amount, and an
      optional description of at most 500 UTF-16 code units. Accepting a body
      means it is exactly the body of a well-formed request. */
  function Validate(body: CreateBody): (r: Result<CreateRequest, CreateError>)
    ensures r.Ok? ==> WellFormed(r.value) && BodyOf(r.value) == body
    ensures r.Err? ==> r.error == InvalidBody
  {
    if && body.groupId.Present? && IsUuid(body.groupId.value)
       && body.amount.Present? && body.amount.value > 0
       && (body.description.Missing? ||
           (body.description.Present? && DescriptionFits(body.description.value)))
       && body.paidBy.Present? && IsUuid(body.paidBy.value)
    then
      Ok(CreateRequest(
        body.groupId.value,
        body.amount.value,
        if body.description.Present? then Some(body.description.value) else None,
        body.paidBy.value))
    else
      Err(InvalidBody)
  }

  /** The other direction: every well-formed request is accepted unchanged. */
  lemma ValidateAcceptsWellFormed(req: CreateRequest)
    requires WellFormed(req)
    ensures Validate(BodyOf(req)) == Ok(req)
  {
  }

  /** 300 characters above U+FFFF are 600 code units: such a description
      is refused, while 500 characters of the Basic Multilingual Plane
      fit. */
  lemma DescriptionLimitCountsCodeUnits(g: string, p: string, astral: string, plain: string)
    requires IsUuid(g) && IsUuid(p)
    requires |astral| == 300 && forall i :: 0 <= i < |astral| ==> astral[i] as int > 0xFFFF
    requires |plain| == 500 && forall i :: 0 <= i < |plain| ==> plain[i] as int <= 0xFFFF
    ensures Validate(CreateBody(Present(g), Present(100), Present(astral), Present(p))) == Err(InvalidBody)
    ensures Validate(CreateBody(Present(g), Present(100), Present(plain), Present(p))).Ok?
  {
    assert Utf16Length(astral) == 600 by {
      AstralLength(astral);
    }
  }

  /** Every character above U+FFFF counts twice. */
  lemma {:induction false} AstralLength(s: string)
    requires forall i :: 0 <= i < |s| ==> s[i] as int > 0xFFFF
    ensures Utf16Length(s) == 2 * |s|
  {
    if s != [] {
      assert forall i :: 0 <= i < |s[1..]| ==> s[1..][i] == s[i + 1];
      AstralLength(s[1..]);
    }
  }

  /** `Number((amount / n).toFixed(2))` in cents. toFixed picks the nearest
      two-decimal value and, of two equally near, the larger one, so the
      share is within half a cent of amount / n, ties rounding up. */
  function ShareOf(amount: Cents, n: nat): (share: Cents)
    requires amount > 0 && n > 0
    ensures -(n as int) < 2 * (n * share - amount) <= n
    ensures share >= 0
  {
    var q := (2 * amount + n) / (2 * n);
    var r := (2 * amount + n) % (2 * n);
    assert 2 * amount + n == 2 * n * q + r && 0 <= r < 2 * n;
    assert 2 * (n * q - amount) == n - r;
    q
  }

  /** The share is the nearest cent: no whole number of cents is closer to
      amount / n. */
  lemma ShareIsNearestCent(amount: Cents, n: nat, c: Cents)
    requires amount > 0 && n > 0
    ensures Abs(n * ShareOf(amount, n) - amount) <= Abs(n * c - amount)
  {
    var s := ShareOf(amount, n);
    ScaledDistance(n, s, c);
  }

  /** Any other whole number of cents misses amount / n by more than half a
      cent, so the contract of ShareOf determines the share uniquely. */
  lemma ShareIsUnique(amount: Cents, n: nat, c: Cents)
    requires amount > 0 && n > 0
    requires -(n as int) < 2 * (n * c - amount) <= n
    ensures c == ShareOf(amount, n)
  {
    var s := ShareOf(amount, n);
    ScaledDistance(n, s, c);
  }

  /** Moving the share by a whole cent moves n * share by at least n. */
  lemma ScaledDistance(n: nat, s: int, c: int)
    requires n > 0
    ensures c > s ==> n * c >= n * s + n
    ensures c < s ==> n * c <= n * s - n
  {
    var d := c - s;
    assert n * c == n * s + n * d;
    if d >= 1 {
      assert n * d >= n * 1;
    } else if d <= -1 {
      assert n * (-d) >= n * 1;
    }
  }

  function Abs(x: int): (r: nat)
    ensures r == x || r == -x
  {
    if x < 0 then -x else x
  }

  /** `members.map(m => ({ expenseId, userId: m.userId, amount: share }))`. */
  function EqualSplit(expenseId: ExpenseId, members: seq<UserId>, share: Cents): (rows: seq<SplitRow>)
    ensures |rows| == |members|
    ensures forall i :: 0 <= i < |rows| ==> rows[i] == SplitRow(expenseId, members[i], share)
  {
    if members == [] then []
    else [SplitRow(expenseId, members[0], share)] + EqualSplit(expenseId, members[1..], share)
  }

  function SumAmounts(rows: seq<SplitRow>): Cents {
    if rows == [] then 0 else rows[0].amount + SumAmounts(rows[1..])
  }

  /** The split rows of one expense add up to n times the common share. */
  lemma {:induction false} EqualSplitTotal(expenseId: ExpenseId, members: seq<UserId>, share: Cents)
    ensures SumAmounts(EqualSplit(expenseId, members, share)) == |members| * share
  {
    if members != [] {
      EqualSplitTotal(expenseId, members[1..], share);
    }
  }

  /** Handling of one POST: unreadable JSON, a refused body and an empty
      member list are rejected before anything is written; otherwise the
      expense keeps the request's group, payer, description and amount, and
      every member, in member order, gets one split row of the same rounded
      share. The payer is not checked against the member list. `newId` is
      the id the database gives the new expense. */
  function CreateExpense(json: Option<CreateBody>, members: seq<UserId>, newId: ExpenseId)
    : (r: Result<Created, CreateError>)
    ensures json.None? <==> r == Err(InvalidJson)
    ensures (json.Some? && Validate(json.value).Err?) <==> r == Err(InvalidBody)
    ensures (json.Some? && Validate(json.value).Ok? && members == []) <==> r == Err(NoMembers)
    ensures r.Ok? ==>
      var req := Validate(json.value).value;
      && r.value.expense == Expense(newId, req.groupId, req.paidBy, req.amount, req.description)
      && |r.value.splits| == |members|
      && (forall i :: 0 <= i < |members| ==>
            r.value.splits[i] == SplitRow(newId, members[i], ShareOf(req.amount, |members|)))
  {
    if json.None? then Err(InvalidJson)
    else
      match Validate(json.value)
      case Err(e) => Err(e)
      case Ok(req) =>
        if |members| == 0 then Err(NoMembers)
        else
          var share := ShareOf(req.amount, |members|);
          Ok(Created(
            Expense(newId, req.groupId, req.paidBy, req.amount, req.description),
            EqualSplit(newId, members, share)))
  }

  /** The rounding remainder is not redistributed: the split rows of a
      created expense add up to within n/2 cents of its amount. */
  lemma SplitTotalWithinHalfCentPerMember(json: Option<CreateBody>, members: seq<UserId>, newId: ExpenseId)
    requires CreateExpense(json, members, newId).Ok?
    ensures var c := CreateExpense(json, members, newId).value;
      2 * Abs(SumAmounts(c.splits) - c.expense.amount) <= |members|
  {
    var req := Validate(json.value).value;
    var share := ShareOf(req.amount, |members|);
    EqualSplitTotal(newId, members, share);
  }

  /** 100.00 over three members: 33.33 each, 99.99 in all. */
  lemma HundredOverThree()
    ensures ShareOf(10000, 3) == 3333
    ensures SumAmounts(EqualSplit("e", ["a", "b", "c"], ShareOf(10000, 3))) == 9999
  {
    EqualSplitTotal("e", ["a", "b", "c"], 3333);
  }

  /** Distinct members give distinct (expense, user) pairs, so the rows fit
      the split table's composite primary key. */
  lemma SplitKeysDistinct(expenseId: ExpenseId, members: seq<UserId>, share: Cents)
    requires forall i, j :: 0 <= i < j < |members| ==> members[i] != members[j]
    ensures var rows := EqualSplit(expenseId, members, share);
      forall i, j :: 0 <= i < j < |rows| ==> rows[i].userId != rows[j].userId
  {
  }
}
