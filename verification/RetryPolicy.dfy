/** Retry headers, retry queues, and the choice between retrying a command and giving it up. */
module RetryPolicy {
  import opened Wrappers
  import opened FreshIds

  const MAX_RETRY_ATTEMPTS := 3

  datatype RetryQueue = RetryQueue(routingKey: string, ttlMs: nat)

  const RETRY_QUEUES: seq<RetryQueue> := [
    RetryQueue("workflow.execution.requested.retry.10s", 10_000),
    RetryQueue("workflow.execution.requested.retry.1m", 60_000),
    RetryQueue("workflow.execution.requested.retry.5m", 300_000)
  ]

  /** What the retry header of a delivery may hold. */
  datatype Header = Absent | NumberHeader(value: real) | TextHeader(text: string) | OtherHeader

  // ---- Reading the header ----

  predicate IsBlank(c: char) {
    c == ' ' || c == '\t' || c == '\n' || c == '\r'
  }

  predicate IsDigit(c: char) {
    '0' <= c <= '9'
  }

  /** The longest prefix made of digits. */
  function LeadingDigits(s: string): (d: string)
    ensures forall i :: 0 <= i < |d| ==> '0' <= d[i] <= '9'
  {
    if s == [] || !IsDigit(s[0]) then [] else [s[0]] + LeadingDigits(s[1..])
  }

  function SkipBlanks(s: string): string {
    if s != [] && IsBlank(s[0]) then SkipBlanks(s[1..]) else s
  }

  /** Decimal parseInt: blanks, a sign, then as many digits as there are; anything after them is ignored. */
  function ParseInt(text: string): Option<int> {
    var s := SkipBlanks(text);
    var negative := s != [] && s[0] == '-';
    var digits := LeadingDigits(if negative || (s != [] && s[0] == '+') then s[1..] else s);
    if digits == [] then None
    else Some(if negative then -(ReadDecimal(digits) as int) else ReadDecimal(digits))
  }

  /** The attempt a delivery stands for; unusable headers count as the first attempt. */
  function RetryAttempt(header: Header): nat {
    match header
    case NumberHeader(value) => if value == value.Floor as real && value >= 0.0 then value.Floor else 0
    case TextHeader(text) =>
      var parsed := ParseInt(text);
      if parsed.Some? && parsed.value >= 0 then parsed.value else 0
    case _ => 0
  }

  lemma {:induction false} DigitsLead(d: string)
    requires forall i :: 0 <= i < |d| ==> '0' <= d[i] <= '9'
    ensures LeadingDigits(d) == d
  {
    if d != [] {
      DigitsLead(d[1..]);
      assert d == [d[0]] + d[1..];
    }
  }

  /** An attempt written into a header is read back, as a number or as text. */
  lemma AttemptRoundTrips(attempt: nat)
    ensures RetryAttempt(NumberHeader(attempt as real)) == attempt
    ensures RetryAttempt(TextHeader(Decimal(attempt))) == attempt
  {
    DecimalParses(attempt);
  }

  lemma DecimalParses(n: nat)
    ensures ParseInt(Decimal(n)) == Some(n)
  {
    var s := Decimal(n);
    ReadBack(n);
    DigitsLead(s);
    assert IsDigit(s[0]) && !IsBlank(s[0]);
    assert SkipBlanks(s) == s;
  }

  lemma {:induction false} BlanksAreSkipped(blanks: string, rest: string)
    requires forall i :: 0 <= i < |blanks| ==> IsBlank(blanks[i])
    requires rest == [] || !IsBlank(rest[0])
    ensures SkipBlanks(blanks + rest) == rest
  {
    if blanks == [] {
      assert blanks + rest == rest;
    } else {
      assert (blanks + rest)[1..] == blanks[1..] + rest;
      BlanksAreSkipped(blanks[1..], rest);
    }
  }

  lemma {:induction false} DigitsStop(digits: string, tail: string)
    requires forall i :: 0 <= i < |digits| ==> '0' <= digits[i] <= '9'
    requires tail == [] || !('0' <= tail[0] <= '9')
    ensures LeadingDigits(digits + tail) == digits
  {
    if digits == [] {
      assert digits + tail == tail;
    } else {
      assert (digits + tail)[1..] == digits[1..] + tail;
      DigitsStop(digits[1..], tail);
    }
  }

  predicate AllBlank(s: string) {
    forall i :: 0 <= i < |s| ==> s[i] == ' ' || s[i] == '\t' || s[i] == '\n' || s[i] == '\r'
  }

  lemma NumberLeads(n: nat, tail: string)
    requires tail == [] || !('0' <= tail[0] <= '9')
    ensures LeadingDigits(Decimal(n) + tail) == Decimal(n) && ReadDecimal(Decimal(n)) == n
    ensures '0' <= (Decimal(n) + tail)[0] <= '9'
  {
    ReadBack(n);
    DigitsStop(Decimal(n), tail);
    assert (Decimal(n) + tail)[0] == Decimal(n)[0];
  }

  /** Blanks before a number and anything but a digit after it are ignored. */
  lemma NumberIsFound(blanks: string, n: nat, tail: string)
    requires AllBlank(blanks) && (tail == [] || !('0' <= tail[0] <= '9'))
    ensures ParseInt(blanks + (Decimal(n) + tail)) == Some(n)
  {
    NumberLeads(n, tail);
    BlanksAreSkipped(blanks, Decimal(n) + tail);
  }

  /** A sign right before a number counts. */
  lemma SignIsRead(blanks: string, n: nat, tail: string)
    requires AllBlank(blanks) && (tail == [] || !('0' <= tail[0] <= '9'))
    ensures ParseInt(blanks + ("+" + (Decimal(n) + tail))) == Some(n)
    ensures ParseInt(blanks + ("-" + (Decimal(n) + tail))) == Some(0 - n)
  {
    var text := Decimal(n) + tail;
    NumberLeads(n, tail);
    BlanksAreSkipped(blanks, "+" + text);
    BlanksAreSkipped(blanks, "-" + text);
    assert ("+" + text)[1..] == text && ("-" + text)[1..] == text;
  }

  /** Without a digit after the blanks and the sign there is no number. */
  lemma NoNumberIsFound(blanks: string, rest: string)
    requires AllBlank(blanks)
    requires rest == [] || !(AllBlank([rest[0]]) || '0' <= rest[0] <= '9' || rest[0] == '-' || rest[0] == '+')
    ensures ParseInt(blanks + rest).None? && ParseInt(blanks + ("+" + rest)).None?
            && ParseInt(blanks + ("-" + rest)).None?
  {
    BlanksAreSkipped(blanks, rest);
    BlanksAreSkipped(blanks, "+" + rest);
    BlanksAreSkipped(blanks, "-" + rest);
    assert ("+" + rest)[1..] == rest && ("-" + rest)[1..] == rest;
  }

  /**
   * A header holds the attempt it reads as; one that is missing, of another
   * type, fractional, negative or no number at all stands for the first attempt.
   */
  lemma HeaderHolds(header: Header, n: nat)
    ensures header.Absent? || header.OtherHeader? ==> RetryAttempt(header) == 0
    ensures header.NumberHeader? && (header.value < 0.0 || header.value.Floor as real != header.value) ==>
              RetryAttempt(header) == 0
    ensures header.TextHeader? && (ParseInt(header.text).None? || ParseInt(header.text).value < 0) ==>
              RetryAttempt(header) == 0
    ensures header.TextHeader? && ParseInt(header.text) == Some(n) ==> RetryAttempt(header) == n
    ensures header == NumberHeader(n as real) ==> RetryAttempt(header) == n
  {
  }

  // ---- Deciding ----

  datatype Decision = Retry(attempt: nat) | GiveUp

  function Decide(retryable: bool, currentAttempt: nat): Decision {
    if retryable && currentAttempt < MAX_RETRY_ATTEMPTS then Retry(currentAttempt + 1) else GiveUp
  }

  function QueueFor(attempt: nat): Option<RetryQueue> {
    if 1 <= attempt <= |RETRY_QUEUES| then Some(RETRY_QUEUES[attempt - 1]) else None
  }

  /** Retryable failures of the first three attempts are retried, and no others; each next attempt has its own wait. */
  lemma RetryHasQueue(retryable: bool, currentAttempt: nat)
    ensures Decide(retryable, currentAttempt).Retry? <==> retryable && currentAttempt < 3
    ensures Decide(retryable, currentAttempt).Retry? ==>
              && Decide(retryable, currentAttempt).attempt == currentAttempt + 1
              && QueueFor(currentAttempt + 1) == Some(
                   if currentAttempt == 0 then RetryQueue("workflow.execution.requested.retry.10s", 10_000)
                   else if currentAttempt == 1 then RetryQueue("workflow.execution.requested.retry.1m", 60_000)
                   else RetryQueue("workflow.execution.requested.retry.5m", 300_000))
  {
    assert |RETRY_QUEUES| == MAX_RETRY_ATTEMPTS;
  }

  /** The delay scheduled on the way from one attempt to a later one. */
  function DelayBetween(first: nat, last: nat): nat
    decreases last
  {
    if last <= first then 0
    else DelayBetween(first, last - 1) + if QueueFor(last).Some? then QueueFor(last).value.ttlMs else 0
  }

  lemma DelayIsBounded(first: nat, last: nat)
    requires last <= MAX_RETRY_ATTEMPTS
    ensures DelayBetween(first, last) <= 370_000
  {
    assert DelayBetween(first, 0) == 0;
    assert DelayBetween(first, 1) <= 10_000;
    assert DelayBetween(first, 2) <= 70_000;
    assert DelayBetween(first, 3) <= 370_000;
  }
}
