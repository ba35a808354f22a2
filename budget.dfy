/**
  The budget summary of `buildResponse` and `sumTransactions`. Amounts are
  exact reals; the zoned (year, month) of a formatted date and "today" are
  supplied by the caller instead of moment-timezone and the wall clock.
 */
module Budget {
  import opened Wrappers
  import opened Calendar
  import opened Transactions

  /** The allowance per day, in shekels. */
  const DAILY_LUNCH_BUDGET: int := 40

  datatype Summary = Summary(
    workDays: nat,
    remainingWorkDays: nat,
    monthlyLunchBudget: real,
    totalSpent: real,
    remainingMonthlyLunchBudget: real,
    averageLunchSpending: real,
    remainingAverageLunchSpending: real)

  datatype Response = Response(summary: Summary, transactions: seq<Transaction>)

  /** `transactions.map(t => t.amount)` */
  function Amounts(ts: seq<Transaction>): (xs: seq<real>)
    ensures |xs| == |ts| && forall i :: 0 <= i < |ts| ==> xs[i] == ts[i].amount
  {
    seq(|ts|, i requires 0 <= i < |ts| => ts[i].amount)
  }

  /** The arithmetic sum of a sequence: the reference `Reduce` is checked against. */
  function Sum(xs: seq<real>): real {
    if xs == [] then 0.0 else xs[0] + Sum(xs[1..])
  }

  /**
    `reduce((total, amount) => total + amount)` continued from the running
    total `acc`: the left fold adds up to `acc` plus the arithmetic sum.
   */
  function Reduce(acc: real, xs: seq<real>): (total: real)
    ensures total == acc + Sum(xs)
    decreases |xs|
  {
    if xs == [] then acc else Reduce(acc + xs[0], xs[1..])
  }

  /** Refunds and purchases add up alike: the sum of a concatenation is the sum of the sums. */
  lemma {:induction false} SumAppend(a: seq<real>, b: seq<real>)
    ensures Sum(a + b) == Sum(a) + Sum(b)
  {
    if a == [] {
      assert a + b == b;
    } else {
      assert (a + b)[1..] == a[1..] + b;
      SumAppend(a[1..], b);
    }
  }

  /**
    `sumTransactions`: `reduce` without an initial value starts from the first
    amount, so an empty batch throws instead of summing to zero.
   */
  function SumTransactions(ts: seq<Transaction>): (r: Result<real, Error>)
    ensures r.Failure? <==> ts == []
    ensures r.Failure? ==> r.error == EmptyBatch
    ensures r.Success? ==> r.value == Sum(Amounts(ts))
  {
    if ts == [] then Failure(EmptyBatch)
    else
      var xs := Amounts(ts);
      Success(Reduce(xs[0], xs[1..]))
  }

  lemma AmountsAppend(a: seq<Transaction>, b: seq<Transaction>)
    ensures Amounts(a + b) == Amounts(a) + Amounts(b)
  {
  }

  /** The total of a batch is the total of its parts however it is split: the fold's order does not matter. */
  lemma SumTransactionsSplit(a: seq<Transaction>, b: seq<Transaction>)
    ensures a + b != [] ==> SumTransactions(a + b) == Success(Sum(Amounts(a)) + Sum(Amounts(b)))
  {
    AmountsAppend(a, b);
    SumAppend(Amounts(a), Amounts(b));
  }

  /** On a single transaction `reduce` returns its amount untouched. */
  lemma SumOfOne(t: Transaction)
    ensures SumTransactions([t]) == Success(t.amount)
  {
  }

  /** The figures of `buildResponse` once the day counts and the batch are known. */
  function Summarize(workDays: nat, remainingWorkDays: nat, ts: seq<Transaction>): (s: Summary)
    requires remainingWorkDays > 0 && ts != []
    ensures s.workDays == workDays && s.remainingWorkDays == remainingWorkDays
    ensures s.monthlyLunchBudget == (DAILY_LUNCH_BUDGET * workDays) as real
    ensures s.totalSpent == Sum(Amounts(ts))
    ensures s.remainingMonthlyLunchBudget + s.totalSpent == s.monthlyLunchBudget
    ensures s.averageLunchSpending * |ts| as real == s.totalSpent
    ensures s.remainingAverageLunchSpending * remainingWorkDays as real == s.remainingMonthlyLunchBudget
  {
    var monthlyLunchBudget := (workDays * DAILY_LUNCH_BUDGET) as real;
    var totalSpent := SumTransactions(ts).value;
    var remainingMonthlyLunchBudget := monthlyLunchBudget - totalSpent;
    Summary(workDays, remainingWorkDays, monthlyLunchBudget, totalSpent, remainingMonthlyLunchBudget,
            totalSpent / |ts| as real, remainingMonthlyLunchBudget / remainingWorkDays as real)
  }

  /** Amounts 50 and -10 in a month of 20 days, with 10 days left. */
  lemma RefundScenario(t1: Transaction, t2: Transaction)
    requires t1.amount == 50.0 && t2.amount == -10.0
    ensures var s := Summarize(20, 10, [t1, t2]);
      s.totalSpent == 40.0 && s.monthlyLunchBudget == 800.0 && s.remainingMonthlyLunchBudget == 760.0
      && s.averageLunchSpending == 20.0 && s.remainingAverageLunchSpending == 76.0
  {
    var xs := Amounts([t1, t2]);
    assert xs == [50.0, -10.0];
    assert Sum(xs) == 50.0 + Sum([-10.0]);
  }

  /**
    The work days `getWorkDays` counts for the (year, month) of a date: the
    month's length, or 0 for an invalid date, whose month NaN never equals itself.
   */
  function MonthLength(yearMonth: Option<(int, Month)>): (n: nat)
    ensures yearMonth.None? <==> n == 0
    ensures yearMonth.Some? ==> 28 <= n <= 31
  {
    match yearMonth
    case None => 0
    case Some((year, month)) => DaysInMonth(year, month)
  }

  /** A first date that moment cannot represent yields no work days and so no budget at all. */
  lemma InvalidDateGivesNoBudget(ts: seq<Transaction>, remainingWorkDays: nat)
    requires remainingWorkDays > 0 && ts != []
    ensures var s := Summarize(MonthLength(None), remainingWorkDays, ts);
      s.workDays == 0 && s.monthlyLunchBudget == 0.0 && s.remainingMonthlyLunchBudget == -s.totalSpent
  {
  }

  /**
    `buildResponse`: the month comes from the first transaction's date in
    Asia/Jerusalem (`zonedYearMonth`), so an empty batch fails on
    `transactions[0]` before anything is computed. `zonedYearMonth` gives
    None for "Invalid date", the text moment formats for an instant beyond
    8.64e15 ms; the remaining days are counted from `today`, whatever month
    the batch is in.
   */
  method BuildResponse(transactions: seq<Transaction>, zonedYearMonth: string -> Option<(int, Month)>, today: Date)
    returns (r: Result<Response, Error>)
    requires ValidDate(today)
    ensures r.Failure? <==> transactions == []
    ensures r.Failure? ==> r.error == EmptyBatch
    ensures r.Success? ==> r.value.transactions == transactions
    ensures r.Success? ==>
      r.value.summary == Summarize(MonthLength(zonedYearMonth(transactions[0].date)), DaysLeftInMonth(today), transactions)
  {
    if transactions == [] {
      return Failure(EmptyBatch);
    }
    var workDays := 0;
    match zonedYearMonth(transactions[0].date) {
      case Some((year, month)) =>
        workDays := GetWorkDays(year, month);
      case None =>
        // year() and month() are NaN, so the loop guard `day.month() == month` fails at once.
    }
    var remainingWorkDays := GetRemainingWorkDays(today);
    var monthlyLunchBudget := (workDays * DAILY_LUNCH_BUDGET) as real;
    var totalSpent := SumTransactions(transactions).value;
    var remainingMonthlyLunchBudget := monthlyLunchBudget - totalSpent;
    var averageLunchSpending := totalSpent / |transactions| as real;
    var remainingAverageLunchSpending := remainingMonthlyLunchBudget / remainingWorkDays as real;
    var summary := Summary(workDays, remainingWorkDays, monthlyLunchBudget, totalSpent,
                           remainingMonthlyLunchBudget, averageLunchSpending, remainingAverageLunchSpending);
    r := Success(Response(summary, transactions));
  }
}
