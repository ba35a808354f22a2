/**
  Transaction normalisation: `parseTransactionDate` (first run of decimal
  digits, read as epoch milliseconds) and `parseTransactions` (a field-by-field
  map over the upstream records).
 */
module Transactions {
  import opened Wrappers

  datatype Error = MalformedDate | EmptyBatch

  /** A record as the upstream transactions report delivers it. */
  datatype RawTransaction = RawTransaction(
    TransactionId: int,
    TransactionDate: string,
    ResName: string,
    ResLogoUrl: string,
    TransactionAmount: real,
    TransactionType: string,
    PaymentMethod: string)

  /** The normalised record; `date` is the instant formatted in Asia/Jerusalem. */
  datatype Transaction = Transaction(
    id: int,
    date: string,
    restaurantName: string,
    restaurantLogoUrl: string,
    amount: real,
    orderType: string,
    paymentMethod: string)

  predicate IsDigit(c: char) {
    '0' <= c <= '9'
  }

  predicate AllDigits(s: string) {
    forall k :: 0 <= k < |s| ==> IsDigit(s[k])
  }

  predicate NoDigits(s: string) {
    forall k :: 0 <= k < |s| ==> !IsDigit(s[k])
  }

  /** The value of a string of decimal digits, leading zeros allowed (as `parseInt` reads it). */
  function DecimalValue(s: string): (n: nat)
    requires AllDigits(s)
    ensures |s| > 0 && s[0] == '0' ==> n == DecimalValue(s[1..])
  {
    if s == [] then 0
    else
      var prefix := s[..|s| - 1];
      assert |s| > 1 ==> prefix[1..] == s[1..][..|s| - 2];
      DecimalValue(prefix) * 10 + (s[|s| - 1] as int - '0' as int)
  }

  /** The shortest decimal spelling of `n`. */
  function DecimalString(n: nat): (s: string)
    ensures |s| > 0 && AllDigits(s)
  {
    var last := ('0' as int + n % 10) as char;
    if n < 10 then [last] else DecimalString(n / 10) + [last]
  }

  lemma {:induction false} DecimalRoundTrip(n: nat)
    ensures DecimalValue(DecimalString(n)) == n
  {
    var s := DecimalString(n);
    if n >= 10 {
      DecimalRoundTrip(n / 10);
      assert s[..|s| - 1] == DecimalString(n / 10);
    }
  }

  /** The first index at or after `i` that holds a digit. */
  function FirstDigitFrom(s: string, i: nat): (r: Option<nat>)
    requires i <= |s|
    ensures r.None? <==> forall k :: i <= k < |s| ==> !IsDigit(s[k])
    ensures r.Some? ==> i <= r.value < |s| && IsDigit(s[r.value])
    ensures r.Some? ==> forall k :: i <= k < r.value ==> !IsDigit(s[k])
    decreases |s| - i
  {
    if i == |s| then None
    else if IsDigit(s[i]) then Some(i)
    else FirstDigitFrom(s, i + 1)
  }

  /** The end of the maximal run of digits that starts at `i`. */
  function DigitRunEnd(s: string, i: nat): (j: nat)
    requires i <= |s|
    ensures i <= j <= |s|
    ensures forall k :: i <= k < j ==> IsDigit(s[k])
    ensures j == |s| || !IsDigit(s[j])
    decreases |s| - i
  {
    if i == |s| || !IsDigit(s[i]) then i else DigitRunEnd(s, i + 1)
  }

  /** `matches[0]` of `/(\d+)/.exec(s)`: the first maximal run of digits, or null. */
  function FirstDigitRun(s: string): (r: Option<string>)
    ensures r.None? <==> NoDigits(s)
    ensures r.Some? ==> |r.value| > 0 && AllDigits(r.value)
  {
    match FirstDigitFrom(s, 0)
    case None => None
    case Some(i) => Some(s[i..DigitRunEnd(s, i)])
  }

  /** The run found is the first one, and it is maximal: no digit precedes it and none follows it. */
  lemma FirstDigitRunIsFirstMaximal(s: string)
    requires FirstDigitRun(s).Some?
    ensures exists i, j ::
      0 <= i < j <= |s| && NoDigits(s[..i]) && s[i..j] == FirstDigitRun(s).value && (j == |s| || !IsDigit(s[j]))
  {
    var i := FirstDigitFrom(s, 0).value;
    var j := DigitRunEnd(s, i);
    assert NoDigits(s[..i]);
    assert s[i..j] == FirstDigitRun(s).value;
  }

  /** The epoch milliseconds named by a raw date string, or None when it holds no digit. */
  function EpochMillis(s: string): (r: Option<nat>)
    ensures r.None? <==> NoDigits(s)
  {
    match FirstDigitRun(s)
    case None => None
    case Some(run) => Some(DecimalValue(run))
  }

  /** The first digit of `s` is at `i` when none comes before it. */
  lemma FirstDigitAt(s: string, i: nat)
    requires i < |s| && IsDigit(s[i]) && NoDigits(s[..i])
    ensures FirstDigitFrom(s, 0) == Some(i)
  {
  }

  /** A run of digits from `i` to `j` that no digit follows ends at `j`. */
  lemma DigitRunEndsAt(s: string, i: nat, j: nat)
    requires i <= j <= |s| && AllDigits(s[i..j]) && (j == |s| || !IsDigit(s[j]))
    ensures DigitRunEnd(s, i) == j
  {
  }

  /** Upstream dates look like "/Date(1700000000000)/": the number in them is read back exactly. */
  lemma EpochMillisOfWrapped(prefix: string, n: nat, suffix: string)
    requires NoDigits(prefix)
    requires suffix == [] || !IsDigit(suffix[0])
    ensures EpochMillis(prefix + DecimalString(n) + suffix) == Some(n)
  {
    var digits := DecimalString(n);
    var s := prefix + digits + suffix;
    var i, j := |prefix|, |prefix| + |digits|;
    assert s[..i] == prefix && s[i..j] == digits;
    assert j < |s| ==> s[j] == suffix[0];
    FirstDigitAt(s, i);
    DigitRunEndsAt(s, i, j);
    DecimalRoundTrip(n);
  }

  /** Upstream's own shape, "/Date(<epoch ms>)/", reads back the number it was written with. */
  lemma UpstreamDateFormat(n: nat)
    ensures EpochMillis("/Date(" + DecimalString(n) + ")/") == Some(n)
  {
    EpochMillisOfWrapped("/Date(", n, ")/");
  }

  /** `parseTransactionDate`: fails (the `matches[0]` of a null match) when the string has no digit. */
  function ParseTransactionDate(s: string, format: nat -> string): (r: Result<string, Error>)
    ensures r.Failure? <==> NoDigits(s)
    ensures r.Failure? ==> r.error == MalformedDate
    ensures r.Success? ==> r.value == format(EpochMillis(s).value)
  {
    match EpochMillis(s)
    case None => Failure(MalformedDate)
    case Some(ms) => Success(format(ms))
  }

  /** The callback of the map in `parseTransactions`. */
  function ParseEntry(entry: RawTransaction, format: nat -> string): (r: Result<Transaction, Error>)
    ensures r.Success? <==> EpochMillis(entry.TransactionDate).Some?
    ensures r.Failure? ==> r.error == MalformedDate
    ensures r.Success? ==> Normalises(entry, r.value, format)
  {
    match ParseTransactionDate(entry.TransactionDate, format)
    case Failure(e) => Failure(e)
    case Success(date) =>
      Success(Transaction(entry.TransactionId, date, entry.ResName, entry.ResLogoUrl,
                          entry.TransactionAmount, entry.TransactionType, entry.PaymentMethod))
  }

  /** Every field but `date` is copied; `date` is the formatted epoch milliseconds. */
  predicate Normalises(entry: RawTransaction, t: Transaction, format: nat -> string) {
    EpochMillis(entry.TransactionDate).Some?
    && t.id == entry.TransactionId
    && t.date == format(EpochMillis(entry.TransactionDate).value)
    && t.restaurantName == entry.ResName
    && t.restaurantLogoUrl == entry.ResLogoUrl
    && t.amount == entry.TransactionAmount
    && t.orderType == entry.TransactionType
    && t.paymentMethod == entry.PaymentMethod
  }

  /** Every record's date string holds a run of digits. */
  predicate AllDatesParse(raws: seq<RawTransaction>) {
    forall i :: 0 <= i < |raws| ==> EpochMillis(raws[i].TransactionDate).Some?
  }

  /**
    `parseTransactions`: one output per input, in order; the `map` does not
    catch, so a single malformed date fails the whole batch.
   */
  function ParseTransactions(raws: seq<RawTransaction>, format: nat -> string): (r: Result<seq<Transaction>, Error>)
    ensures r.Success? <==> AllDatesParse(raws)
    ensures r.Failure? ==> r.error == MalformedDate
    ensures r.Success? ==> |r.value| == |raws|
    ensures r.Success? ==> forall i :: 0 <= i < |raws| ==> Normalises(raws[i], r.value[i], format)
  {
    if raws == [] then Success([])
    else
      match ParseEntry(raws[0], format)
      case Failure(e) => Failure(e)
      case Success(t) =>
        match ParseTransactions(raws[1..], format)
        case Failure(e) => Failure(e)
        case Success(rest) =>
          assert forall i :: 1 <= i < |raws| ==> raws[i] == raws[1..][i - 1];
          Success([t] + rest)
  }

  /** One record without a digit in its date fails the whole batch; nothing is dropped silently. */
  lemma MalformedRecordFailsBatch(raws: seq<RawTransaction>, i: nat, format: nat -> string)
    requires i < |raws| && NoDigits(raws[i].TransactionDate)
    ensures ParseTransactions(raws, format) == Failure(MalformedDate)
  {
  }
}
