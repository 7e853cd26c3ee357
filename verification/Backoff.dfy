/** Exponential backoff with jitter, over real numbers: every draw of the random source is a parameter. */
module Backoffs {
  import opened Bytes

  /** Seconds; `base` is the growth factor. */
  datatype Config = Config(init: real, max: real, base: real, deadline: Option<real>)

  datatype Fields = Fields(next: real, total: real)

  /** Durations are not negative. */
  predicate Valid(c: Config) {
    c.init >= 0.0 && c.max >= 0.0 && (c.deadline.Some? ==> c.deadline.value >= 0.0)
  }

  /** What the library needs to work at all: positive growth and room for the first interval. */
  predicate Sensible(c: Config) {
    0.0 < c.init <= c.max && c.base > 1.0
  }

  function MinReal(a: real, b: real): real {
    if a <= b then a else b
  }

  /** A product of two unknowns, named so that proofs can treat it as one term. */
  function Times(x: real, y: real): real {
    x * y
  }

  function Fresh(c: Config): Fields {
    Fields(c.init, 0.0)
  }

  /** The half-open sampling range is `[init, next * base)`; sampling an empty range panics. */
  predicate CanSample(c: Config, f: Fields) {
    c.init < Times(f.next, c.base)
  }

  predicate InRange(c: Config, f: Fields, draw: real) {
    c.init <= draw < Times(f.next, c.base)
  }

  function Advance(c: Config, f: Fields, draw: real): Fields {
    var next := MinReal(c.max, draw);
    Fields(next, f.total + next)
  }

  /** The interval to wait now is the one drawn last time; none once the total reaches the deadline. */
  function Interval(c: Config, f: Fields, draw: real): Option<real> {
    if c.deadline.Some? && Advance(c, f, draw).total >= c.deadline.value then None else Some(f.next)
  }

  class Backoff {
    const config: Config
    var nextBackoff: real
    var total: real

    ghost function Now(): Fields
      reads this
    {
      Fields(nextBackoff, total)
    }

    constructor (config: Config)
      ensures this.config == config && Now() == Fresh(config)
    {
      this.config := config;
      nextBackoff := config.init;
      total := 0.0;
    }

    method Next(draw: real) returns (interval: Option<real>)
      requires InRange(config, Now(), draw)
      modifies this
      ensures Now() == Advance(config, old(Now()), draw)
      ensures interval == Interval(config, old(Now()), draw)
    {
      var next := MinReal(config.max, draw);
      total := total + next;
      var backoff := nextBackoff;
      nextBackoff := next;
      if config.deadline.Some? && total >= config.deadline.value {
        return None;
      }
      return Some(backoff);
    }
  }

  // ---------------------------------------------------------------- any number of calls

  /** The state after using up `draws`. */
  function After(c: Config, draws: seq<real>): Fields {
    if draws == [] then Fresh(c) else Advance(c, After(c, draws[..|draws| - 1]), draws[|draws| - 1])
  }

  /** The interval handed out next is the last draw, or the maximum if that is smaller; the first one is the initial
      interval. */
  lemma DrawTakesEffect(c: Config, draws: seq<real>, draw: real)
    ensures Waiting(c, []) == c.init
    ensures Waiting(c, draws + [draw]) == if draw > c.max then c.max else draw
  {
    assert (draws + [draw])[..|draws|] == draws;
  }

  /** What the draws add up to, none of them counting for more than the maximum. */
  function Drew(c: Config, draws: seq<real>): real {
    if draws == [] then 0.0 else
    Drew(c, draws[1..]) + if draws[0] > c.max then c.max else draws[0]
  }

  lemma {:induction false} TotalIsDrawn(c: Config, draws: seq<real>)
    ensures After(c, draws).total == Drew(c, draws)
  {
    if draws != [] {
      TotalIsDrawn(c, draws[..|draws| - 1]);
      DrewSnoc(c, draws[..|draws| - 1], draws[|draws| - 1]);
      assert draws[..|draws| - 1] + [draws[|draws| - 1]] == draws;
    }
  }

  lemma {:induction false} DrewSnoc(c: Config, draws: seq<real>, draw: real)
    ensures Drew(c, draws + [draw]) == Drew(c, draws) + if draw > c.max then c.max else draw
  {
    if draws == [] {
      assert [] + [draw] == [draw] && [draw][1..] == [];
    } else {
      DrewSnoc(c, draws[1..], draw);
      assert (draws + [draw])[1..] == draws[1..] + [draw];
    }
  }

  /** A call hands out the pending interval, unless all draws up to its own reach the deadline. */
  lemma GivesUpIff(c: Config, draws: seq<real>, draw: real)
    ensures Interval(c, After(c, draws), draw)
         == if c.deadline.Some? && Drew(c, draws + [draw]) >= c.deadline.value then None else Some(Waiting(c, draws))
  {
    TotalIsDrawn(c, draws);
    DrewSnoc(c, draws, draw);
  }

  /** Every draw came from the range that was current. */
  predicate Drawn(c: Config, draws: seq<real>) {
    draws == [] || (Drawn(c, draws[..|draws| - 1]) && InRange(c, After(c, draws[..|draws| - 1]), draws[|draws| - 1]))
  }

  function Power(base: real, n: nat): real {
    if n == 0 then 1.0 else Times(base, Power(base, n - 1))
  }

  /** The interval handed out by call number `|draws|`, before its own draw takes effect. */
  function Waiting(c: Config, draws: seq<real>): real {
    After(c, draws).next
  }

  /** The sum of the intervals handed out by the calls that used `draws`. */
  function WaitedFor(c: Config, draws: seq<real>): real {
    if draws == [] then 0.0 else WaitedFor(c, draws[..|draws| - 1]) + Waiting(c, draws[..|draws| - 1])
  }

  lemma {:induction false} NextInBounds(c: Config, draws: seq<real>)
    requires Sensible(c) && Drawn(c, draws)
    ensures c.init <= Waiting(c, draws) <= c.max
  {
    hide Times;
    if draws != [] {
      NextInBounds(c, draws[..|draws| - 1]);
    }
  }

  lemma Grows(x: real, base: real)
    requires x > 0.0 && base > 1.0
    ensures x < Times(x, base)
  {
    assert x * base - x == x * (base - 1.0);
  }

  lemma Shrinks(x: real, base: real)
    requires x >= 0.0 && base <= 1.0
    ensures Times(x, base) <= x
  {
    assert x - x * base == x * (1.0 - base);
  }

  lemma Scales(x: real, y: real, z: real)
    requires x <= y && z > 0.0
    ensures Times(x, z) <= Times(y, z)
  {
    assert y * z - x * z == (y - x) * z;
  }

  lemma GrowthMeans(x: real, base: real)
    requires x >= 0.0
    ensures x < Times(x, base) <==> x > 0.0 && base > 1.0
  {
    if base <= 1.0 {
      Shrinks(x, base);
    } else if x > 0.0 {
      Grows(x, base);
    }
  }

  /** In every run the sampling range is never empty and every interval lies between the initial and the
      maximal one. */
  lemma NeverPanics(c: Config, draws: seq<real>)
    requires Sensible(c) && Drawn(c, draws)
    ensures CanSample(c, After(c, draws))
    ensures c.init <= Waiting(c, draws) <= c.max
  {
    hide After, Drawn, Times;
    NextInBounds(c, draws);
    Grows(c.init, c.base);
    Scales(c.init, After(c, draws).next, c.base);
  }

  lemma Regroup(a: real, p: real, base: real)
    ensures Times(Times(a, p), base) == Times(a, Times(base, p))
    ensures Times(a, 1.0) == a
  {
  }

  lemma NextBelowRange(c: Config, draws: seq<real>)
    requires Drawn(c, draws) && draws != []
    ensures Waiting(c, draws) < Times(Waiting(c, draws[..|draws| - 1]), c.base)
  {
    hide Times;
  }

  /** The k-th interval is at most `init * base^(k-1)`. */
  lemma {:induction false} IntervalsGrowAtMostExponentially(c: Config, draws: seq<real>)
    requires Sensible(c) && Drawn(c, draws)
    ensures Waiting(c, draws) <= Times(c.init, Power(c.base, |draws|))
    ensures draws != [] ==> Waiting(c, draws) < Times(c.init, Power(c.base, |draws|))
  {
    hide Times;
    Regroup(c.init, 1.0, c.base);
    if draws != [] {
      var before := draws[..|draws| - 1];
      IntervalsGrowAtMostExponentially(c, before);
      NextBelowRange(c, draws);
      hide Waiting;
      var w, p := Waiting(c, before), Power(c.base, |before|);
      Scales(w, Times(c.init, p), c.base);
      Regroup(c.init, p, c.base);
    }
  }

  lemma Counts(n: nat, x: real)
    ensures n == 0 ==> Times(n as real, x) == 0.0
    ensures n > 0 ==> Times(n as real, x) == Times((n - 1) as real, x) + x
  {
    if n > 0 {
      assert (n as real) * x == ((n - 1) as real) * x + x;
    }
  }

  /** The total runs ahead of what was handed out, by the interval that comes next. */
  lemma {:induction false} TotalIsAhead(c: Config, draws: seq<real>)
    requires Sensible(c) && Drawn(c, draws)
    ensures After(c, draws).total == WaitedFor(c, draws) + Waiting(c, draws) - c.init
    ensures WaitedFor(c, draws) <= After(c, draws).total
    ensures Times(|draws| as real, c.init) <= After(c, draws).total
  {
    hide Times;
    NextInBounds(c, draws);
    Counts(|draws|, c.init);
    if draws != [] {
      TotalIsAhead(c, draws[..|draws| - 1]);
    }
  }

  /** Every call so far was answered with an interval. */
  predicate AllAnswered(c: Config, draws: seq<real>) {
    draws == [] || (AllAnswered(c, draws[..|draws| - 1])
                    && Interval(c, After(c, draws[..|draws| - 1]), draws[|draws| - 1]).Some?)
  }

  /** The intervals handed out add up to strictly less than the deadline, and there are fewer of them than
      initial intervals fit into the deadline. */
  lemma SumStaysBelowDeadline(c: Config, draws: seq<real>)
    requires Sensible(c) && Drawn(c, draws) && AllAnswered(c, draws)
    requires c.deadline.Some? && draws != []
    ensures WaitedFor(c, draws) < c.deadline.value
    ensures Times(|draws| as real, c.init) < c.deadline.value
  {
    TotalIsAhead(c, draws);
  }

  // ---------------------------------------------------------------- exactly when sampling can panic

  /** No run, however long and whatever is drawn, reaches an empty sampling range. */
  ghost predicate AlwaysSamples(c: Config) {
    forall draws | Drawn(c, draws) :: CanSample(c, After(c, draws))
  }

  lemma {:induction false} SamplesFrom(c: Config, draws: seq<real>)
    requires Drawn(c, draws)
    ensures Waiting(c, draws) >= MinReal(c.init, c.max)
  {
    if draws != [] {
      SamplesFrom(c, draws[..|draws| - 1]);
    }
  }

  lemma SamplesWhen(c: Config, draws: seq<real>)
    requires Valid(c) && Drawn(c, draws)
    requires c.init < Times(c.init, c.base) && c.init < Times(c.max, c.base)
    ensures CanSample(c, After(c, draws))
  {
    hide After, Drawn, Times;
    SamplesFrom(c, draws);
    GrowthMeans(c.init, c.base);
    Scales(MinReal(c.init, c.max), After(c, draws).next, c.base);
  }

  lemma SampledTwice(c: Config)
    requires Valid(c) && AlwaysSamples(c)
    ensures c.init < Times(c.init, c.base) && c.init < Times(c.max, c.base)
  {
    hide Times;
    var none: seq<real> := [];
    assert Drawn(c, none) && After(c, none) == Fresh(c);
    assert CanSample(c, After(c, none));
    GrowthMeans(c.init, c.base);
    if Times(c.init, c.base) > c.max {
      // a draw at the maximum, or above it, leaves the maximum as the next interval
      var one := [if c.max >= c.init then c.max else c.init];
      assert one[..0] == none;
      assert Drawn(c, one) && After(c, one).next == c.max;
      assert CanSample(c, After(c, one));
    } else {
      Grows(c.max, c.base);
    }
  }

  /** Sampling never panics exactly when the first range is not empty and neither is the one after a draw
      that hits the maximum. In particular `base` must exceed one. */
  lemma AlwaysSamplesIff(c: Config)
    requires Valid(c)
    ensures AlwaysSamples(c) <==> c.init < Times(c.init, c.base) && c.init < Times(c.max, c.base)
  {
    hide Times;
    if c.init < Times(c.init, c.base) && c.init < Times(c.max, c.base) {
      forall draws | Drawn(c, draws) ensures CanSample(c, After(c, draws)) {
        SamplesWhen(c, draws);
      }
    }
    if AlwaysSamples(c) {
      SampledTwice(c);
    }
  }

  // ---------------------------------------------------------------- the retry loop

  /** What one attempt does: success or a fatal result ends the loop, an error backs off, a throttle waits as told. */
  datatype Attempt = Break(result: int) | Fails(code: int) | Throttled(seconds: real)

  /** `StillRunning` after the given attempts, or the end of the loop. */
  datatype Retry = Finished(result: int) | DeadlineExceeded(code: int) | StillRunning

  /** The draws the loop has used for its first `n` attempts. */
  function Failures(attempts: seq<Attempt>): nat {
    if attempts == [] then 0
    else Failures(attempts[..|attempts| - 1]) + if attempts[|attempts| - 1].Fails? then 1 else 0
  }

  function Ceil(x: real): int {
    if x.Floor as real == x then x.Floor else x.Floor + 1
  }

  /** The most failing attempts a deadline allows: the last one ends the loop. */
  predicate WithinDeadline(c: Config, failures: nat) {
    c.deadline.Some? ==> failures <= 1 || (c.init > 0.0 && failures <= Ceil(c.deadline.value / c.init))
  }

  lemma AttemptsBound(c: Config, answered: nat)
    requires Sensible(c) && c.deadline.Some? && Times(answered as real, c.init) < c.deadline.value
    ensures WithinDeadline(c, answered + 1)
  {
    var q := c.deadline.value / c.init;
    Divides(c.deadline.value, c.init);
    hide Times;
    if answered as real >= q {
      Scales(q, answered as real, c.init);
    }
  }

  lemma Divides(x: real, y: real)
    requires y > 0.0
    ensures Times(x / y, y) == x
  {
  }

  lemma FewFailures(c: Config, draws: seq<real>)
    requires Sensible(c) && Drawn(c, draws) && AllAnswered(c, draws)
    ensures WithinDeadline(c, |draws|) && WithinDeadline(c, |draws| + 1)
  {
    if c.deadline.Some? && draws != [] {
      SumStaysBelowDeadline(c, draws);
      hide After, Drawn, AllAnswered;
      AttemptsBound(c, |draws|);
    }
  }

  /** What one more call adds. */
  lemma OneMoreDraw(c: Config, draws: seq<real>, n: nat)
    requires Drawn(c, draws) && n < |draws|
    ensures Drawn(c, draws[..n + 1])
    ensures InRange(c, After(c, draws[..n]), draws[n])
    ensures After(c, draws[..n + 1]) == Advance(c, After(c, draws[..n]), draws[n])
    ensures WaitedFor(c, draws[..n + 1]) == WaitedFor(c, draws[..n]) + After(c, draws[..n]).next
    ensures AllAnswered(c, draws[..n + 1])
       <==> AllAnswered(c, draws[..n]) && Interval(c, After(c, draws[..n]), draws[n]).Some?
  {
    DrawnPrefix(c, draws, n + 1);
    assert draws[..n + 1][..n] == draws[..n];
  }

  lemma OneMoreAttempt(attempts: seq<Attempt>, n: nat)
    requires n < |attempts|
    ensures Failures(attempts[..n + 1]) == Failures(attempts[..n]) + if attempts[n].Fails? then 1 else 0
  {
    assert attempts[..n + 1][..n] == attempts[..n];
  }

  /** Runs the given attempts; `used` counts those made and `slept` the time spent on backoffs alone. */
  method RetryWithBackoff(c: Config, attempts: seq<Attempt>, draws: seq<real>)
    returns (r: Retry, used: nat, slept: real)
    requires Sensible(c) && Drawn(c, draws) && |draws| >= |attempts|
    ensures used <= |attempts|
    ensures r.Finished? ==> used > 0 && attempts[used - 1] == Break(r.result)
    ensures r.DeadlineExceeded? ==> used > 0 && attempts[used - 1] == Fails(r.code) && c.deadline.Some?
    ensures r.StillRunning? ==> used == |attempts|
    ensures forall i | 0 <= i < used - 1 :: !attempts[i].Break?
    ensures slept >= 0.0 && (c.deadline.Some? && slept > 0.0 ==> slept < c.deadline.value)
    ensures WithinDeadline(c, Failures(attempts[..used]))
    ensures var answered := Failures(attempts[..used]) - if r.DeadlineExceeded? then 1 else 0;
      0 <= answered <= |draws| && slept == WaitedFor(c, draws[..answered]) && AllAnswered(c, draws[..answered])
    ensures r.DeadlineExceeded? ==> var n := Failures(attempts[..used]);
      0 < n <= |draws| && Interval(c, After(c, draws[..n - 1]), draws[n - 1]).None?
  {
    hide After, Drawn, AllAnswered, WaitedFor, Failures, WithinDeadline, Advance;
    used, slept := 0, 0.0;
    var backoff := new Backoff(c);
    var n := 0;
    NoDraws(c, draws[..0], attempts[..0]);
    while used < |attempts|
      invariant used <= |attempts| && n <= used && fresh(backoff) && backoff.config == c
      invariant n == Failures(attempts[..used])
      invariant backoff.Now() == After(c, draws[..n])
      invariant Drawn(c, draws[..n]) && AllAnswered(c, draws[..n])
      invariant slept == WaitedFor(c, draws[..n])
      invariant forall i | 0 <= i < used :: !attempts[i].Break?
    {
      var a := attempts[used];
      OneMoreAttempt(attempts, used);
      OneMoreDraw(c, draws, n);
      SumSoFar(c, draws[..n]);
      FewFailures(c, draws[..n]);
      used := used + 1;
      match a
      case Break(result) =>
        return Finished(result), used, slept;
      case Throttled(_) =>
      case Fails(code) =>
        var interval := backoff.Next(draws[n]);
        if interval.None? {
          return DeadlineExceeded(code), used, slept;
        }
        slept := slept + interval.value;
        n := n + 1;
    }
    SumSoFar(c, draws[..n]);
    FewFailures(c, draws[..n]);
    return StillRunning, used, slept;
  }

  lemma NoDraws(c: Config, draws: seq<real>, attempts: seq<Attempt>)
    requires draws == [] && attempts == []
    ensures After(c, draws) == Fresh(c) && Drawn(c, draws) && AllAnswered(c, draws) && WaitedFor(c, draws) == 0.0
    ensures Failures(attempts) == 0
  {
  }

  lemma SumSoFar(c: Config, draws: seq<real>)
    requires Sensible(c) && Drawn(c, draws) && AllAnswered(c, draws)
    ensures WaitedFor(c, draws) >= 0.0
    ensures c.deadline.Some? && draws != [] ==>
              WaitedFor(c, draws) < c.deadline.value && Times(|draws| as real, c.init) < c.deadline.value
    ensures draws == [] ==> WaitedFor(c, draws) == 0.0
  {
    WaitedIsPositive(c, draws);
    if c.deadline.Some? && draws != [] {
      SumStaysBelowDeadline(c, draws);
    }
  }

  lemma {:induction false} WaitedIsPositive(c: Config, draws: seq<real>)
    requires Sensible(c) && Drawn(c, draws)
    ensures WaitedFor(c, draws) >= 0.0
  {
    if draws != [] {
      WaitedIsPositive(c, draws[..|draws| - 1]);
      NextInBounds(c, draws[..|draws| - 1]);
    }
  }

  lemma {:induction false} DrawnPrefix(c: Config, draws: seq<real>, n: nat)
    requires Drawn(c, draws) && n <= |draws|
    ensures Drawn(c, draws[..n])
  {
    if n < |draws| {
      DrawnPrefix(c, draws[..|draws| - 1], n);
      assert draws[..|draws| - 1][..n] == draws[..n];
    } else {
      assert draws[..n] == draws;
    }
  }
}
