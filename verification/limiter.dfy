/** The probe limiter: a token bucket whose reservations may run into debt, with exact arithmetic. */
module Limiter {

  datatype Bucket = Bucket(tokens: real, last: real)

  function Refilled(rate: real, burst: real, b: Bucket, now: real): Bucket {
    var elapsed := now - b.last;
    if elapsed > 0.0 then
      var tokens := b.tokens + elapsed * rate;
      Bucket(if tokens > burst then burst else tokens, now)
    else b
  }

  function Reserved(rate: real, burst: real, b: Bucket, now: real): Bucket {
    var r := Refilled(rate, burst, b, now);
    r.(tokens := r.tokens - 1.0)
  }

  /** How long a caller sleeps: until its debt is refilled. */
  function Delay(rate: real, b: Bucket): real
    requires rate > 0.0
  {
    if b.tokens < 0.0 then -b.tokens / rate else 0.0
  }

  class TokenBucket {
    const rate: real
    const burst: real
    var tokens: real
    var last: real

    function Value(): Bucket
      reads this
    {
      Bucket(tokens, last)
    }

    constructor (rate: real, burst: int, current: real)
      requires rate > 0.0
      ensures this.rate == rate && this.burst == burst as real && Value() == Bucket(burst as real, current)
    {
      this.rate, this.burst, tokens, last := rate, burst as real, burst as real, current;
    }

    /** Reserves one token at clock reading `now` unless the context is done; the sleep follows outside. */
    method Wait(contextDone: bool, now: real) returns (err: bool, delayed: bool, delay: real)
      requires rate > 0.0
      modifies this
      ensures err <==> contextDone
      ensures Value() == if err then old(Value()) else Reserved(rate, burst, old(Value()), now)
      ensures delay == if err then 0.0 else Delay(rate, Value())
      ensures delayed <==> delay > 0.0
    {
      if contextDone { return true, false, 0.0; }
      var elapsed := now - last;
      if elapsed > 0.0 {
        tokens := tokens + elapsed * rate;
        if tokens > burst { tokens := burst; }
        last := now;
      }
      tokens := tokens - 1.0;
      delay := 0.0;
      if tokens < 0.0 {
        delay := -tokens / rate;
        Positive(-tokens, rate);
      }
      err, delayed := false, delay > 0.0;
    }
  }

  lemma Positive(x: real, rate: real)
    requires x > 0.0 && rate > 0.0
    ensures x / rate > 0.0 && rate * (x / rate) == x
  {
  }

  // ---- Runs of reservations, in the order the mutex grants them ----

  /** The clock never runs backwards, though it may stand still. */
  predicate Steady(start: real, nows: seq<real>) {
    (forall i :: 0 <= i < |nows| ==> start <= nows[i]) && forall i, j :: 0 <= i < j < |nows| ==> nows[i] <= nows[j]
  }

  function After(rate: real, burst: int, start: real, nows: seq<real>): Bucket {
    if nows == [] then Bucket(burst as real, start)
    else Reserved(rate, burst as real, After(rate, burst, start, nows[..|nows| - 1]), nows[|nows| - 1])
  }

  /** The instant the `i`-th reservation is scheduled to proceed. */
  function Release(rate: real, burst: int, start: real, nows: seq<real>, i: nat): real
    requires rate > 0.0 && i < |nows|
  {
    nows[i] + Delay(rate, After(rate, burst, start, nows[..i + 1]))
  }

  // The reservation's place on the refill line, in tokens: it moves up by at least one each time.
  function Mark(rate: real, b: Bucket): real {
    rate * b.last - b.tokens
  }

  lemma MarkStep(rate: real, burst: real, b: Bucket, now: real)
    requires rate > 0.0 && now >= b.last && b.tokens <= burst
    ensures var r := Reserved(rate, burst, b, now);
      r.last == now && r.tokens <= burst - 1.0 && Mark(rate, r) >= Mark(rate, b) + 1.0
  {
    assert rate * now == rate * b.last + (now - b.last) * rate;
  }

  lemma {:induction false} Marks(rate: real, burst: int, start: real, nows: seq<real>, n: nat)
    requires rate > 0.0 && Steady(start, nows) && n <= |nows|
    ensures var b := After(rate, burst, start, nows[..n]);
      && b.tokens <= burst as real
      && (n > 0 ==> b.last == nows[n - 1] && b.tokens <= burst as real - 1.0) && (n == 0 ==> b.last == start)
  {
    if n > 0 {
      Marks(rate, burst, start, nows, n - 1);
      assert nows[..n][..n - 1] == nows[..n - 1];
      MarkStep(rate, burst as real, After(rate, burst, start, nows[..n - 1]), nows[n - 1]);
    }
  }

  lemma {:induction false} MarksApart(rate: real, burst: int, start: real, nows: seq<real>, i: nat, j: nat)
    requires rate > 0.0 && Steady(start, nows) && i <= j <= |nows|
    ensures Mark(rate, After(rate, burst, start, nows[..j])) >= Mark(rate, After(rate, burst, start, nows[..i]))
      + (j - i) as real
    decreases j
  {
    if i < j {
      MarksApart(rate, burst, start, nows, i, j - 1);
      Marks(rate, burst, start, nows, j - 1);
      assert nows[..j][..j - 1] == nows[..j - 1];
      MarkStep(rate, burst as real, After(rate, burst, start, nows[..j - 1]), nows[j - 1]);
    }
  }

  /** Time in tokens; kept as a name so that the proofs below stay linear. */
  function Scaled(rate: real, x: real): real {
    rate * x
  }

  lemma ScaledOrder(rate: real, x: real, y: real)
    requires rate > 0.0
    ensures Scaled(rate, x) <= Scaled(rate, y) <==> x <= y
  {
    assert rate * (y - x) == rate * y - rate * x;
  }

  lemma ScaledMinus(rate: real, x: real, y: real)
    ensures Scaled(rate, x - y) == Scaled(rate, x) - Scaled(rate, y)
  {
  }

  /** A release lies at the clock reading or at the mark, whichever is later. */
  ghost predicate AtMark(rate: real, burst: int, r: real, now: real, mark: real) {
    && Scaled(rate, r) >= mark && Scaled(rate, r) >= Scaled(rate, now)
    && Scaled(rate, r) <= mark + (burst - 1) as real
    && (Scaled(rate, r) == mark || r == now)
  }

  lemma DelayAtMark(rate: real, burst: int, b: Bucket, r: real)
    requires rate > 0.0 && burst >= 1 && b.tokens <= burst as real - 1.0 && r == b.last + Delay(rate, b)
    ensures AtMark(rate, burst, r, b.last, Mark(rate, b))
  {
    if b.tokens < 0.0 {
      var d := -b.tokens / rate;
      Positive(-b.tokens, rate);
      Distribute(rate, b.last, d);
    }
  }

  lemma Distribute(rate: real, x: real, y: real)
    ensures rate * (x + y) == rate * x + rate * y
  {
  }

  function MarkOf(rate: real, burst: int, start: real, nows: seq<real>, i: nat): real
    requires i < |nows|
  {
    Mark(rate, After(rate, burst, start, nows[..i + 1]))
  }

  lemma ReleaseAtMark(rate: real, burst: int, start: real, nows: seq<real>, i: nat)
    requires rate > 0.0 && burst >= 1 && Steady(start, nows) && i < |nows|
    ensures AtMark(rate, burst, Release(rate, burst, start, nows, i), nows[i], MarkOf(rate, burst, start, nows, i))
  {
    Marks(rate, burst, start, nows, i + 1);
    hide Steady, Mark, After, Delay, AtMark;
    DelayAtMark(rate, burst, After(rate, burst, start, nows[..i + 1]), Release(rate, burst, start, nows, i));
  }

  lemma MarkOrder(rate: real, burst: int, start: real, nows: seq<real>, i: nat, j: nat)
    requires rate > 0.0 && Steady(start, nows) && i <= j < |nows|
    ensures MarkOf(rate, burst, start, nows, j) >= MarkOf(rate, burst, start, nows, i) + (j - i) as real
  {
    hide Steady, Mark, After;
    MarksApart(rate, burst, start, nows, i + 1, j + 1);
  }

  /** Releases happen in the order of their reservations. */
  lemma ReleasesInOrder(rate: real, burst: int, start: real, nows: seq<real>, i: nat, j: nat)
    requires rate > 0.0 && burst >= 1 && Steady(start, nows) && i <= j < |nows|
    ensures Release(rate, burst, start, nows, i) <= Release(rate, burst, start, nows, j)
  {
    assert nows[i] <= nows[j];
    hide Release, MarkOf, Steady, Scaled;
    ReleaseAtMark(rate, burst, start, nows, i);
    ReleaseAtMark(rate, burst, start, nows, j);
    MarkOrder(rate, burst, start, nows, i, j);
    ScaledOrder(rate, nows[i], nows[j]);
    ScaledOrder(rate, Release(rate, burst, start, nows, i), Release(rate, burst, start, nows, j));
  }

  /** Reservations that many apart are released that far apart, give or take the burst. */
  lemma ReleasesSpread(rate: real, burst: int, start: real, nows: seq<real>, i: nat, j: nat)
    requires rate > 0.0 && burst >= 1 && Steady(start, nows) && i <= j < |nows|
    ensures var length := Release(rate, burst, start, nows, j) - Release(rate, burst, start, nows, i);
      (j - i + 1) as real <= burst as real + Scaled(rate, length)
  {
    hide Release, MarkOf, Steady, Scaled;
    ReleaseAtMark(rate, burst, start, nows, i);
    ReleaseAtMark(rate, burst, start, nows, j);
    MarkOrder(rate, burst, start, nows, i, j);
    ScaledMinus(rate, Release(rate, burst, start, nows, j), Release(rate, burst, start, nows, i));
  }

  predicate InWindow(rate: real, burst: int, start: real, nows: seq<real>, i: nat, from: real, length: real)
    requires rate > 0.0 && i < |nows|
  {
    from <= Release(rate, burst, start, nows, i) <= from + length
  }

  /** How many of the first `n` releases fall into the window. */
  function CountIn(rate: real, burst: int, start: real, nows: seq<real>, n: nat, from: real, length: real): nat
    requires rate > 0.0 && n <= |nows|
  {
    if n == 0 then 0
    else CountIn(rate, burst, start, nows, n - 1, from, length) +
         if InWindow(rate, burst, start, nows, n - 1, from, length) then 1 else 0
  }

  /** The window's releases among the first `n` lie at or after some first one. */
  lemma {:induction false} CountFromFirst(rate: real, burst: int, start: real, nows: seq<real>, n: nat, from: real,
                                          length: real)
    returns (first: nat)
    requires rate > 0.0 && n <= |nows| && CountIn(rate, burst, start, nows, n, from, length) > 0
    ensures first < n && InWindow(rate, burst, start, nows, first, from, length)
    ensures CountIn(rate, burst, start, nows, n, from, length) <= n - first
  {
    hide InWindow;
    if CountIn(rate, burst, start, nows, n - 1, from, length) > 0 {
      first := CountFromFirst(rate, burst, start, nows, n - 1, from, length);
    } else {
      first := n - 1;
    }
  }

  lemma {:induction false} CountToLast(rate: real, burst: int, start: real, nows: seq<real>, n: nat, from: real,
                                       length: real)
    returns (last: nat)
    requires rate > 0.0 && n <= |nows| && CountIn(rate, burst, start, nows, n, from, length) > 0
    ensures last < n && InWindow(rate, burst, start, nows, last, from, length)
    ensures CountIn(rate, burst, start, nows, n, from, length) ==
      CountIn(rate, burst, start, nows, last + 1, from, length)
  {
    hide InWindow;
    if InWindow(rate, burst, start, nows, n - 1, from, length) {
      last := n - 1;
    } else {
      last := CountToLast(rate, burst, start, nows, n - 1, from, length);
    }
  }

  /** Any window of time, closed at both ends, holds at most the burst plus what its length refills,
      whatever the readings of the clock and however many callers share the bucket. */
  lemma RateBound(rate: real, burst: int, start: real, nows: seq<real>, from: real, length: real)
    requires rate > 0.0 && burst >= 1 && Steady(start, nows) && length >= 0.0
    ensures CountIn(rate, burst, start, nows, |nows|, from, length) as real <= burst as real + rate * length
  {
    var n := CountIn(rate, burst, start, nows, |nows|, from, length);
    hide Release, CountIn, Steady, Scaled;
    if n == 0 {
      ScaledOrder(rate, 0.0, length);
    } else {
      var last := CountToLast(rate, burst, start, nows, |nows|, from, length);
      var first := CountFromFirst(rate, burst, start, nows, last + 1, from, length);
      ReleasesSpread(rate, burst, start, nows, first, last);
      var span := Release(rate, burst, start, nows, last) - Release(rate, burst, start, nows, first);
      ScaledOrder(rate, span, length);
      Chain(n, last - first + 1, burst as real, Scaled(rate, span), Scaled(rate, length));
    }
    ScaledIs(rate, length);
  }

  lemma ScaledIs(rate: real, x: real)
    ensures Scaled(rate, x) == rate * x && Scaled(rate, 0.0) == 0.0
  {
  }

  lemma Chain(n: int, m: int, burst: real, x: real, y: real)
    requires n <= m && m as real <= burst + x && x <= y
    ensures n as real <= burst + y
  {
  }

  /** The bound is tight: a burst at one instant, before any refill, is released at once. */
  lemma {:induction false} BurstAtOnce(rate: real, burst: int, start: real, nows: seq<real>, i: nat)
    requires rate > 0.0 && burst >= 1 && i < |nows| && i < burst && forall k :: 0 <= k < |nows| ==> nows[k] == start
    ensures Release(rate, burst, start, nows, i) == start
    ensures After(rate, burst, start, nows[..i + 1]) == Bucket((burst - i - 1) as real, start)
  {
    assert nows[..i + 1][..i] == nows[..i];
    if i > 0 {
      BurstAtOnce(rate, burst, start, nows, i - 1);
    } else {
      assert nows[..0] == [];
    }
    assert After(rate, burst, start, nows[..i]) == Bucket((burst - i) as real, start);
  }

  // ---- When a release is delayed ----

  /** The mark of a reservation after which the bucket held one token less than the burst. */
  function FullMark(rate: real, burst: int, now: real): real {
    Scaled(rate, now) - (burst - 1) as real
  }

  /** A reservation moves the mark by exactly one, unless the bucket was full. */
  lemma MarkExact(rate: real, burst: int, b: Bucket, now: real)
    requires rate > 0.0 && now >= b.last && b.tokens <= burst as real
    ensures var mark := Mark(rate, Reserved(rate, burst as real, b, now));
      mark == Mark(rate, b) + 1.0 || mark == FullMark(rate, burst, now)
  {
    assert rate * now == rate * b.last + (now - b.last) * rate;
  }

  /** Every mark counts from the last reservation that found the bucket full. */
  lemma {:induction false} CountsFrom(rate: real, burst: int, start: real, nows: seq<real>, i: nat) returns (j: nat)
    requires rate > 0.0 && burst >= 1 && Steady(start, nows) && i < |nows|
    ensures j <= i && MarkOf(rate, burst, start, nows, i) == FullMark(rate, burst, nows[j]) + (i - j) as real
  {
    assert nows[..i + 1][..i] == nows[..i];
    Marks(rate, burst, start, nows, i);
    if i == 0 {
      j := 0;
      assert After(rate, burst, start, nows[..1]) ==
        Reserved(rate, burst as real, Bucket(burst as real, start), nows[0]);
      FullAtStart(rate, burst, start, nows[0]);
    } else {
      MarkExact(rate, burst, After(rate, burst, start, nows[..i]), nows[i]);
      hide Mark, FullMark, Steady;
      if MarkOf(rate, burst, start, nows, i) == FullMark(rate, burst, nows[i]) {
        j := i;
      } else {
        j := CountsFrom(rate, burst, start, nows, i - 1);
      }
    }
  }

  lemma FullAtStart(rate: real, burst: int, start: real, now: real)
    requires rate > 0.0 && now >= start
    ensures Mark(rate, Reserved(rate, burst as real, Bucket(burst as real, start), now)) == FullMark(rate, burst, now)
  {
    assert now > start ==> (now - start) * rate > 0.0;
  }

  /** By its release the reservations from `j` to `i` have used the burst and all that was refilled since `j`. */
  predicate UsedUp(rate: real, burst: int, start: real, nows: seq<real>, j: nat, i: nat)
    requires rate > 0.0 && j <= i < |nows|
  {
    (i - j + 1) as real == burst as real + rate * (Release(rate, burst, start, nows, i) - nows[j])
  }

  lemma MarkAtLeast(rate: real, burst: int, start: real, nows: seq<real>, j: nat)
    requires rate > 0.0 && Steady(start, nows) && j < |nows|
    ensures MarkOf(rate, burst, start, nows, j) >= FullMark(rate, burst, nows[j])
  {
    Marks(rate, burst, start, nows, j + 1);
  }

  lemma FullEnough(rate: real, burst: int, start: real, nows: seq<real>, j: nat, i: nat)
    requires rate > 0.0 && burst >= 1 && Steady(start, nows) && j <= i < |nows|
    ensures (i - j + 1) as real <= burst as real + rate * (Release(rate, burst, start, nows, i) - nows[j])
    ensures Scaled(rate, Release(rate, burst, start, nows, i)) == FullMark(rate, burst, nows[j]) + (i - j) as real ==>
      UsedUp(rate, burst, start, nows, j, i)
  {
    hide Release, MarkOf, Steady, Scaled;
    MarkAtLeast(rate, burst, start, nows, j);
    MarkOrder(rate, burst, start, nows, j, i);
    ReleaseAtMark(rate, burst, start, nows, i);
    ScaledMinus(rate, Release(rate, burst, start, nows, i), nows[j]);
    ScaledIs(rate, Release(rate, burst, start, nows, i) - nows[j]);
  }

  /** A release is never earlier than the burst and the refill since any earlier reservation allow, and later than its
      own reservation only when they have been used up: no caller waits longer than it must. */
  lemma DelayedOnlyWhenUsedUp(rate: real, burst: int, start: real, nows: seq<real>, i: nat)
    requires rate > 0.0 && burst >= 1 && Steady(start, nows) && i < |nows|
    ensures Release(rate, burst, start, nows, i) >= nows[i]
    ensures forall j :: 0 <= j <= i ==>
      (i - j + 1) as real <= burst as real + rate * (Release(rate, burst, start, nows, i) - nows[j])
    ensures Release(rate, burst, start, nows, i) > nows[i] ==>
      exists j :: 0 <= j <= i && UsedUp(rate, burst, start, nows, j, i)
  {
    ReleaseAtMark(rate, burst, start, nows, i);
    ScaledOrder(rate, nows[i], Release(rate, burst, start, nows, i));
    hide Release, MarkOf, Steady, FullMark, Scaled, UsedUp;
    var k := CountsFrom(rate, burst, start, nows, i);
    forall j | 0 <= j <= i
      ensures (i - j + 1) as real <= burst as real + rate * (Release(rate, burst, start, nows, i) - nows[j])
    {
      FullEnough(rate, burst, start, nows, j, i);
    }
    FullEnough(rate, burst, start, nows, k, i);
  }
}
