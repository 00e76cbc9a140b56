/**
 * The worker lifecycle shared by producers and consumers: a speed, a
 * reference to the shared buffer, the product in hand, a working flag and a
 * progress percentage. Sleeping is a no-op here and the random per-step
 * delay is a parameter constrained to the range it is drawn from.
 */
module Workers {
  import opened Wrappers
  import opened Buffers

  /** The exceptions a worker's loop body can raise. */
  datatype WorkError =
    | ZeroDivision         // `15 // speed` with speed 0
    | EmptyDelayRange      // `randint(1, b)` with b < 1
    | TaskDoneTooManyTimes // `task_done()` with the counter at 0

  /** Python's `a // b`: division rounded towards minus infinity. */
  function FloorDiv(a: int, b: int): (q: int)
    requires b != 0
    ensures b > 0 ==> b * q <= a < b * q + b
    ensures b < 0 ==> b * q + b < a <= b * q
  {
    if b > 0 || a % b == 0 then a / b else a / b - 1
  }

  /** The upper end of `randint(1, 1 + 15 // speed)`, or the exception computing it raises. */
  function DelayUpper(speed: int): (r: Result<int, WorkError>)
    ensures r.Success? ==> r.value >= 1
    ensures r == Failure(ZeroDivision) <==> speed == 0
  {
    if speed == 0 then Failure(ZeroDivision)
    else
      var upper := 1 + FloorDiv(15, speed);
      if upper < 1 then Failure(EmptyDelayRange) else Success(upper)
  }

  /** `delay` is a value `randint` can draw for this speed. */
  predicate DelayAllowed(speed: int, delay: int) {
    DelayUpper(speed).Success? && 1 <= delay <= DelayUpper(speed).value
  }

  /**
   * The delay is defined exactly for positive speeds; it then lies in
   * [1, 16], and is always 1 from speed 16 on.
   */
  lemma DelayBounds(speed: int)
    ensures DelayUpper(speed).Success? <==> speed >= 1
    ensures speed == 0 ==> DelayUpper(speed) == Failure(ZeroDivision)
    ensures speed < 0 ==> DelayUpper(speed) == Failure(EmptyDelayRange)
    ensures speed >= 1 ==> 1 <= DelayUpper(speed).value <= 16
    ensures speed >= 16 ==> DelayUpper(speed) == Success(1)
  {
  }

  /** A faster worker never has a longer delay range. */
  lemma DelayShrinksWithSpeed(slow: int, fast: int)
    requires 1 <= slow <= fast
    ensures DelayUpper(fast).value <= DelayUpper(slow).value
  {
  }

  /** The decimal digit for 0 <= d < 10. */
  function DigitChar(d: nat): (c: char)
    requires d < 10
  {
    "0123456789"[d]
  }

  predicate IsDigit(c: char) {
    '0' <= c <= '9'
  }

  /** `str(n)` for a non-negative integer. */
  function Decimal(n: nat): (r: string)
    ensures |r| > 0
    ensures n == 0 ==> r == "0"
    ensures n > 0 ==> r[0] != '0'
    ensures forall i :: 0 <= i < |r| ==> IsDigit(r[i])
  {
    if n < 10 then [DigitChar(n)] else Decimal(n / 10) + [DigitChar(n % 10)]
  }

  /** The number an all-digit string spells. */
  function DigitsValue(s: string): (n: nat)
    requires forall i :: 0 <= i < |s| ==> IsDigit(s[i])
  {
    if s == [] then 0
    else
      assert IsDigit(s[|s| - 1]);
      DigitsValue(s[..|s| - 1]) * 10 + (s[|s| - 1] as int - '0' as int)
  }

  lemma {:induction false} DecimalRoundTrip(n: nat)
    ensures DigitsValue(Decimal(n)) == n
  {
    if n >= 10 {
      var r := Decimal(n);
      assert r[..|r| - 1] == Decimal(n / 10);
      DecimalRoundTrip(n / 10);
    }
  }

  /** The marker an idle worker shows. */
  const IdleMarker: string := ":zzz: Idle"

  /** The f-string rendering of the product: `None` prints as "None". */
  function ProductText(product: Option<string>): (text: string) {
    match product
    case Some(p) => p
    case None => "None"
  }

  /** The `state` string for the given fields. */
  function Describe(product: Option<string>, working: bool, progress: nat): (r: string) {
    if working then ProductText(product) + " (" + Decimal(progress) + ")%" else IdleMarker
  }

  /** How many characters at the end of `s` are digits. */
  function TrailingDigits(s: string): (k: nat)
    ensures k <= |s|
    ensures forall i :: |s| - k <= i < |s| ==> IsDigit(s[i])
  {
    if s != [] && IsDigit(s[|s| - 1]) then TrailingDigits(s[..|s| - 1]) + 1 else 0
  }

  /**
   * Reads a `state` string back: the product text and progress of a working
   * worker, `None` for the idle marker (or any string `state` cannot yield).
   */
  function ParseState(s: string): (r: Option<(string, nat)>) {
    if |s| < 2 || s[|s| - 2..] != ")%" then None
    else
      var body := s[..|s| - 2];
      var k := TrailingDigits(body);
      if k == 0 || |body| < k + 2 || body[|body| - k - 2..|body| - k] != " (" then None
      else if k > 1 && body[|body| - k] == '0' then None  // `str` prints no leading zeros
      else Some((body[..|body| - k - 2], DigitsValue(body[|body| - k..])))
  }

  lemma {:induction false} TrailingDigitsAfterParen(p: string, d: string)
    requires forall i :: 0 <= i < |d| ==> IsDigit(d[i])
    ensures TrailingDigits(p + " (" + d) == |d|
    decreases |d|
  {
    var s := p + " (" + d;
    if d == [] {
      assert s[|s| - 1] == '(';
    } else {
      assert s[..|s| - 1] == p + " (" + d[..|d| - 1];
      TrailingDigitsAfterParen(p, d[..|d| - 1]);
    }
  }

  /**
   * The state string determines the state shown: the idle marker exactly
   * when not working, otherwise the product text and progress read back.
   */
  lemma DescribeRoundTrip(product: Option<string>, working: bool, progress: nat)
    ensures ParseState(Describe(product, working, progress)) ==
      if working then Some((ProductText(product), progress)) else None
  {
    var s := Describe(product, working, progress);
    if working {
      var p, d := ProductText(product), Decimal(progress);
      var body := p + " (" + d;
      assert s == body + ")%";
      assert s[..|s| - 2] == body;
      TrailingDigitsAfterParen(p, d);
      assert body[|body| - |d|..] == d;
      assert body[..|body| - |d| - 2] == p;
      DecimalRoundTrip(progress);
    } else {
      assert s[|s| - 2..] == "le";
    }
  }

  class Worker {
    const speed: int
    const buffer: Buffer
    var product: Option<string>
    var working: bool
    var progress: nat

    /** Progress is a percentage, and an idle worker has made none. */
    ghost predicate Valid()
      reads this
    {
      progress <= 100 && (!working ==> progress == 0)
    }

    /** A fresh worker holds nothing and is idle. */
    constructor (speed: int, buffer: Buffer)
      ensures Valid()
      ensures this.speed == speed && this.buffer == buffer
      ensures product == None && !working && progress == 0
    {
      this.speed := speed;
      this.buffer := buffer;
      product := None;
      working := false;
      progress := 0;
    }

    /** The `state` property: product and progress while working, else the idle marker. */
    function State(): (r: string)
      reads this
      ensures r == IdleMarker <==> !working
      ensures working ==> ParseState(r) == Some((ProductText(product), progress))
    {
      DescribeRoundTrip(product, working, progress);
      Describe(product, working, progress)
    }

    /** `simulate_idle`: drops the product and resets; the sleep is not modelled. */
    method SimulateIdle()
      modifies this
      ensures Valid()
      ensures product == None && !working && progress == 0
    {
      product := None;
      working := false;
      progress := 0;
    }

    /**
     * `simulate_work`: starts working from progress 0, then raises progress
     * by one on each of 100 steps. `trace` lists progress after the reset
     * and after every step. With a speed below 1 the delay cannot be drawn
     * and the exception leaves the worker working at progress 0.
     */
    method SimulateWork(delay: int) returns (outcome: Outcome<WorkError>, ghost trace: seq<nat>)
      requires DelayUpper(speed).Success? ==> DelayAllowed(speed, delay)
      modifies this
      ensures Valid()
      ensures working && product == old(product)
      ensures outcome.Pass? <==> speed >= 1
      ensures outcome.Fail? ==> outcome.error == DelayUpper(speed).error && progress == 0
      ensures outcome.Pass? ==> progress == 100
      ensures outcome.Pass? ==> |trace| == 101 && forall i :: 0 <= i < |trace| ==> trace[i] == i
      ensures outcome.Pass? ==> trace[|trace| - 1] == progress
    {
      working := true;
      progress := 0;
      trace := [0];
      DelayBounds(speed);
      var upper := DelayUpper(speed);
      if upper.Failure? {
        return Fail(upper.error), trace;
      }
      for step := 0 to 100
        invariant working && product == old(product)
        invariant progress == step
        invariant |trace| == step + 1 && forall i :: 0 <= i < |trace| ==> trace[i] == i
      {
        progress := progress + 1;
        trace := trace + [progress];
      }
      outcome := Pass;
    }
  }
}
