/**
 * Job identifiers of the installer: the text "job-" followed by the
 * decimal rendering of the submission time in nanoseconds (Go's `%d`).
 * The clock itself is not modelled; the nanosecond count is an input.
 */
module JobIds {
  import opened Wrappers

  const JobPrefix: string := "job-"

  predicate IsDigit(c: char) {
    '0' <= c <= '9'
  }

  predicate AllDigits(s: string) {
    forall i :: 0 <= i < |s| ==> IsDigit(s[i])
  }

  /** The character for one decimal digit. */
  function Digit(d: nat): (c: char)
    requires d < 10
    ensures IsDigit(c) && c as int - '0' as int == d
  {
    ('0' as int + d) as char
  }

  /** Go's `%d` rendering of a non-negative integer: at least one digit, no leading zero. */
  function Decimal(n: nat): (s: string)
    ensures |s| >= 1 && AllDigits(s)
    ensures |s| > 1 ==> s[0] != '0'
    ensures n < 10 <==> |s| == 1
    decreases n
  {
    if n < 10 then [Digit(n)] else Decimal(n / 10) + [Digit(n % 10)]
  }

  /** The number a string of decimal digits denotes (most significant digit first). */
  function DigitsValue(s: string): nat
    requires AllDigits(s)
  {
    if s == [] then 0
    else DigitsValue(s[..|s| - 1]) * 10 + (s[|s| - 1] as int - '0' as int)
  }

  /** Reading back a rendered number gives the number. */
  lemma {:induction false} DecimalRoundTrip(n: nat)
    ensures DigitsValue(Decimal(n)) == n
    decreases n
  {
    var s := Decimal(n);
    if n >= 10 {
      assert s[..|s| - 1] == Decimal(n / 10);
      DecimalRoundTrip(n / 10);
    }
  }

  /** The identifier `fmt.Sprintf("job-%d", nanos)` (cmd/installer/main.go:157). */
  function JobId(nanos: nat): (id: string)
    ensures |id| > |JobPrefix| && id[..|JobPrefix|] == JobPrefix
    ensures AllDigits(id[|JobPrefix|..])
  {
    JobPrefix + Decimal(nanos)
  }

  /**
   * The number the digits after "job-" denote, if they are all digits; a left
   * inverse of JobId (ParseJobIdRoundTrip). It also accepts leading zeros,
   * which JobId never produces.
   */
  function ParseJobId(id: string): (r: Option<nat>)
    ensures r.Some? <==> |id| > |JobPrefix| && id[..|JobPrefix|] == JobPrefix && AllDigits(id[|JobPrefix|..])
  {
    if |id| > |JobPrefix| && id[..|JobPrefix|] == JobPrefix && AllDigits(id[|JobPrefix|..])
    then Some(DigitsValue(id[|JobPrefix|..]))
    else None
  }

  lemma ParseJobIdRoundTrip(nanos: nat)
    ensures ParseJobId(JobId(nanos)) == Some(nanos)
  {
    assert JobId(nanos)[|JobPrefix|..] == Decimal(nanos);
    DecimalRoundTrip(nanos);
  }

  /** Distinct clock readings give distinct identifiers; equal readings collide. */
  lemma JobIdInjective(a: nat, b: nat)
    ensures JobId(a) == JobId(b) <==> a == b
  {
    if JobId(a) == JobId(b) {
      ParseJobIdRoundTrip(a);
      ParseJobIdRoundTrip(b);
    }
  }
}
