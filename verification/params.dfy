/** Validation of the run parameters k (clusters), n (points), d (dimension) and max_iter in the
    C variants. The printed message is modelled as the `Complaint` the validator reports. */
module Params {
  import opened Outcomes

  /** MAX_ITERATION: max_iter must stay strictly below it. */
  const MaxIteration: int := 1000

  /** DEFAULT_ITERATION, used when no iteration count is given. */
  const DefaultIteration: int := 200

  /** The four rejection messages ("Invalid number of clusters!", ... ). */
  datatype Complaint = InvalidClusters | InvalidPoints | InvalidDimension | InvalidIteration

  datatype Verdict = Accepted | Rejected(complaint: Complaint)

  predicate IsDigit(ch: char) {
    '0' <= ch <= '9'
  }

  predicate AllDigits(s: string) {
    forall i :: 0 <= i < |s| ==> IsDigit(s[i])
  }

  function DigitValue(ch: char): nat
    requires IsDigit(ch)
  {
    (ch as int) - ('0' as int)
  }

  function DigitChar(v: nat): (ch: char)
    requires v < 10
    ensures IsDigit(ch) && DigitValue(ch) == v
  {
    (('0' as int) + v) as char
  }

  /** The number a string of decimal digits denotes; leading zeros are allowed and the empty
      string denotes 0, as `atoi` has it. */
  function DecimalValue(s: string): nat
    requires AllDigits(s)
  {
    if |s| == 0 then 0 else DecimalValue(s[..|s| - 1]) * 10 + DigitValue(s[|s| - 1])
  }

  /** The shortest decimal rendering of `v`, as a user types it on the command line. */
  function DecimalString(v: nat): (s: string)
    ensures |s| >= 1 && AllDigits(s)
  {
    if v < 10 then [DigitChar(v)] else DecimalString(v / 10) + [DigitChar(v % 10)]
  }

  /** Parsing the rendering of a number gives the number back. */
  lemma {:induction false} DecimalRoundTrip(v: nat)
    ensures DecimalValue(DecimalString(v)) == v
  {
    if v >= 10 {
      DecimalRoundTrip(v / 10);
      var s := DecimalString(v);
      assert s[..|s| - 1] == DecimalString(v / 10);
    }
  }

  /** `atoi` on a string the caller has already checked to be all digits (integer overflow
      is not modelled). */
  method Atoi(s: string) returns (j: int)
    requires AllDigits(s)
    ensures j == DecimalValue(s)
  {
    j := 0;
    var i := 0;
    while i < |s|
      invariant 0 <= i <= |s|
      invariant j == DecimalValue(s[..i])
    {
      assert s[..i + 1][..i] == s[..i];
      j := j * 10 + DigitValue(s[i]);
      i := i + 1;
    }
    assert s[..i] == s;
  }

  /** The message `assert_input` prints for parameter letter `x` ('k', 'n', 'd' or 'i');
      any other letter prints nothing. */
  function ComplaintFor(x: char): Option<Complaint> {
    if x == 'k' then Some(InvalidClusters)
    else if x == 'n' then Some(InvalidPoints)
    else if x == 'd' then Some(InvalidDimension)
    else if x == 'i' then Some(InvalidIteration)
    else None
  }

  /** The range `assert_input` demands of the value of parameter `x`: more than one cluster,
      more than one point, an iteration count strictly between 1 and MAX_ITERATION, and no
      bound at all on the dimension. */
  predicate InRange(x: char, j: int) {
    && (x == 'k' ==> j > 1)
    && (x == 'n' ==> j > 1)
    && (x == 'i' ==> 1 < j < MaxIteration)
  }

  /** `assert_input` (kmeans.c, k_means.c and k_mean.c hold the same code): 0 with the
      parameter's message for a string with a non-digit or an out-of-range value, otherwise
      the decimal value. A "d" of "0" also yields 0, but silently; the caller treats every 0
      as a rejection. */
  method AssertInput(x: char, input: string) returns (r: int, complaint: Option<Complaint>)
    ensures !AllDigits(input) ==> r == 0 && complaint == ComplaintFor(x)
    ensures AllDigits(input) && !InRange(x, DecimalValue(input)) ==>
              r == 0 && complaint == ComplaintFor(x)
    ensures AllDigits(input) && InRange(x, DecimalValue(input)) ==>
              r == DecimalValue(input) && complaint == None
    ensures r >= 0
    ensures r != 0 <==> AllDigits(input) && InRange(x, DecimalValue(input)) && DecimalValue(input) != 0
  {
    var i := 0;
    while i < |input|
      invariant 0 <= i <= |input|
      invariant AllDigits(input[..i])
    {
      var curr := input[i];
      if curr > '9' || curr < '0' {
        return 0, ComplaintFor(x);
      }
      i := i + 1;
    }
    assert input[..i] == input;
    var j := Atoi(input);
    if x == 'k' && j <= 1 {
      return 0, Some(InvalidClusters);
    }
    if x == 'i' && (j <= 1 || j >= MaxIteration) {
      return 0, Some(InvalidIteration);
    }
    if x == 'n' && j <= 1 {
      return 0, Some(InvalidPoints);
    }
    return j, None;
  }

  /** `is_natural` (mia_k_mean.c). */
  function IsNatural(num: int): (r: bool)
    ensures r <==> num >= 1
  {
    num > 0
  }

  /** `check_input` (mia_k_mean.c): the parameters are checked in the order n, k, d, max_iter
      and the first failing check decides the message. */
  function CheckInput(k: int, n: int, d: int, maxIter: int): (r: Verdict)
    ensures r == Accepted <==> n > 1 && 1 < k < n && d > 0 && 1 < maxIter < MaxIteration
    ensures r == Rejected(InvalidPoints) <==> n <= 1
    ensures r == Rejected(InvalidClusters) <==> n > 1 && !(1 < k < n)
    ensures r == Rejected(InvalidDimension) <==> n > 1 && 1 < k < n && d <= 0
    ensures r == Rejected(InvalidIteration) <==>
              n > 1 && 1 < k < n && d > 0 && !(1 < maxIter < MaxIteration)
  {
    if !(n > 1 && IsNatural(n)) then Rejected(InvalidPoints)
    else if !(1 < k && k < n && IsNatural(k)) then Rejected(InvalidClusters)
    else if !IsNatural(d) then Rejected(InvalidDimension)
    else if !(1 < maxIter && maxIter < MaxIteration && IsNatural(maxIter)) then Rejected(InvalidIteration)
    else Accepted
  }
}
