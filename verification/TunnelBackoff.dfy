/** Reconnect back-off of a tunnel (src/config.rs), with exact arithmetic where
    the source uses floating point. */
module TunnelBackoff {
  import Arithmetic

  const U32_MAX: nat := 0xFFFF_FFFF
  const U64_MAX: nat := 0xFFFF_FFFF_FFFF_FFFF
  const U64_RANGE: nat := 0x1_0000_0000_0000_0000

  /** The settings of the reconnect screen, row by row. */
  datatype Settings = Settings(maxAttempts: nat, initialDelayMs: nat, maxDelayMs: nat,
                               jitterRatio: real, stableSecs: nat)

  function Min(a: int, b: int): int {
    if a < b then a else b
  }

  function Max(a: int, b: int): int {
    if a > b then a else b
  }

  function Clamp(x: int, low: int, high: int): int {
    if x < low then low else if x > high then high else x
  }

  // ---------------------------------------------------------------- counting failures

  /** tunnel_failure_attempt */
  function FailureAttempt(current: nat, uptime: nat, stable: nat): nat {
    if uptime >= stable then 0 else Min(current + 1, U32_MAX)
  }

  /** The counter after a series of exits, from zero. */
  function AttemptAfter(uptimes: seq<nat>, stable: nat): nat {
    if uptimes == [] then 0
    else FailureAttempt(AttemptAfter(uptimes[..|uptimes| - 1], stable), uptimes[|uptimes| - 1], stable)
  }

  /** The first of the last `n` runs was long, or there were no more, and these
      `n` were short. */
  ghost predicate TrailingShort(uptimes: seq<nat>, stable: nat, n: nat) {
    n <= |uptimes| && (forall i :: |uptimes| - n <= i < |uptimes| ==> uptimes[i] < stable)
    && (n < |uptimes| ==> uptimes[|uptimes| - n - 1] >= stable)
  }

  /** The counter is the number of short runs since the last stable one. */
  lemma {:induction false} AttemptCountsTrailingShort(uptimes: seq<nat>, stable: nat, n: nat)
    requires TrailingShort(uptimes, stable, n)
    ensures AttemptAfter(uptimes, stable) == Min(n, U32_MAX)
  {
    if n > 0 {
      var init := uptimes[..|uptimes| - 1];
      assert forall i :: |init| - (n - 1) <= i < |init| ==> init[i] == uptimes[i];
      assert n < |uptimes| ==> init[|init| - (n - 1) - 1] == uptimes[|uptimes| - n - 1];
      AttemptCountsTrailingShort(init, stable, n - 1);
    }
  }

  // ---------------------------------------------------------------- the delay

  function Pow2(e: nat): (r: nat)
    ensures r > 0
  {
    if e == 0 then 1 else 2 * Pow2(e - 1)
  }

  /** The delay before jitter: doubling up to the twenty-first attempt, capped. */
  function Base(attempt: nat, cfg: Settings): nat {
    var exp := Min(Max(attempt, 1) - 1, 20);
    Min(Min(cfg.initialDelayMs * Pow2(exp), U64_MAX), cfg.maxDelayMs)
  }

  /** Wrapping u64 arithmetic on the tunnel id, an i64 taken as a u64. */
  function Hash(tunnelId: int, attempt: nat): nat {
    (tunnelId % U64_RANGE * 31 + attempt) % U64_RANGE * 1_103_515_245 % U64_RANGE
  }

  /** From zero the hash goes on by its multiplier with each attempt, and by 31 times
      that with each tunnel, around the range of 64 bits. */
  lemma HashSteps(tunnelId: int, attempt: nat)
    ensures Hash(0, 0) == 0
    ensures Hash(tunnelId, attempt + 1) == (Hash(tunnelId, attempt) + 1_103_515_245) % U64_RANGE
    ensures Hash(tunnelId + 1, attempt) == (Hash(tunnelId, attempt) + 31 * 1_103_515_245) % U64_RANGE
  {
    HashIsRemainder(tunnelId, attempt);
    HashIsRemainder(tunnelId, attempt + 1);
    HashIsRemainder(tunnelId + 1, attempt);
    HashIsRemainder(0, 0);
    var v := (tunnelId * 31 + attempt) * 1_103_515_245;
    Arithmetic.RemainderAdds(v, 1_103_515_245, U64_RANGE);
    Arithmetic.RemainderAdds(v, 31 * 1_103_515_245, U64_RANGE);
  }

  /** One remainder at the end is as good as wrapping at every step. */
  lemma HashIsRemainder(tunnelId: int, attempt: nat)
    ensures Hash(tunnelId, attempt) == (tunnelId * 31 + attempt) * 1_103_515_245 % U64_RANGE
  {
    Wraps(tunnelId, attempt, 31, 1_103_515_245, U64_RANGE);
  }

  lemma Wraps(id: int, a: int, k: int, m: int, n: int)
    requires n > 0
    ensures (id % n * k + a) % n * m % n == (id * k + a) * m % n
  {
    Arithmetic.RemainderScales(id, k, n);
    Arithmetic.RemainderAdds(id % n * k, a, n);
    Arithmetic.RemainderAdds(id * k, a, n);
    Arithmetic.RemainderScales(id % n * k + a, m, n);
    Arithmetic.RemainderScales(id * k + a, m, n);
  }

  /** The place of the hash between minus one and one. */
  function Part(hash: nat): (r: real)
    ensures -1.0 <= r < 1.0
  {
    (hash % 2000) as real / 1000.0 - 1.0
  }

  /** Two thousand places, evenly spaced, one after the other and around. */
  lemma PartSteps(hash: nat)
    ensures Part(0) == -1.0
    ensures Part(hash + 1) == if hash % 2000 == 1999 then -1.0 else Part(hash) + 0.001
  {
    var k := hash % 2000;
    Arithmetic.Quotient(hash + 1, hash / 2000 + if k == 1999 then 1 else 0, 2000, if k == 1999 then 0 else k + 1);
    Thousandths(k);
  }

  lemma Thousandths(k: nat)
    ensures (k + 1) as real / 1000.0 == k as real / 1000.0 + 0.001
  {
  }

  function Jitter(part: real, ratio: real): real {
    1.0 + ratio * part
  }

  /** jitter_factor */
  function JitterFactor(tunnelId: int, attempt: nat, ratio: real): real {
    Jitter(Part(Hash(tunnelId, attempt)), ratio)
  }

  /** At least 1 ms; the cast drops the fraction and saturates. */
  function Cast(ms: real): int {
    Min((if ms < 1.0 then 1.0 else ms).Floor, U64_MAX)
  }

  function BackoffDelay(attempt: nat, tunnelId: int, cfg: Settings): int {
    Cast(Times(Base(attempt, cfg), JitterFactor(tunnelId, Max(attempt, 1), cfg.jitterRatio)))
  }

  function Times(base: nat, factor: real): real {
    base as real * factor
  }

  lemma {:induction false} Pow2Grows(a: nat, b: nat)
    requires a <= b
    ensures Pow2(a) <= Pow2(b)
  {
    if a < b {
      Pow2Grows(a, b - 1);
    }
  }

  lemma Scaled(x: nat, a: nat, b: nat)
    requires a <= b
    ensures x * a <= x * b
  {
  }

  /** More failures never shorten the base, and it never exceeds the limit. */
  lemma BaseGrows(a: nat, b: nat, cfg: Settings)
    requires a <= b
    ensures Base(a, cfg) <= Base(b, cfg) <= cfg.maxDelayMs
  {
    var ea, eb := Min(Max(a, 1) - 1, 20), Min(Max(b, 1) - 1, 20);
    Pow2Grows(ea, eb);
    Scaled(cfg.initialDelayMs, Pow2(ea), Pow2(eb));
  }

  lemma Pow2Doubles(e: nat)
    ensures Pow2(e + 1) == 2 * Pow2(e)
  {
  }

  lemma DoubledProduct(x: nat, e: nat)
    ensures x * Pow2(e + 1) == 2 * (x * Pow2(e))
  {
    Pow2Doubles(e);
  }

  /** Capping after doubling is doubling what was capped, and capping that. */
  lemma CappedDouble(x: nat, limit: nat)
    requires limit <= U64_MAX
    ensures Min(Min(2 * x, U64_MAX), limit) == Min(2 * Min(Min(x, U64_MAX), limit), limit)
  {
  }

  /** Each further failure doubles the base until the limit is reached. */
  lemma BaseDoubles(attempt: nat, cfg: Settings)
    requires 1 <= attempt <= 20 && cfg.maxDelayMs <= U64_MAX
    ensures Base(1, cfg) == Min(cfg.initialDelayMs, cfg.maxDelayMs)
    ensures Base(attempt + 1, cfg) == Min(2 * Base(attempt, cfg), cfg.maxDelayMs)
  {
    var x := cfg.initialDelayMs * Pow2(attempt - 1);
    DoubledProduct(cfg.initialDelayMs, attempt - 1);
    assert Base(attempt, cfg) == Min(Min(x, U64_MAX), cfg.maxDelayMs);
    assert Base(attempt + 1, cfg) == Min(Min(2 * x, U64_MAX), cfg.maxDelayMs);
    CappedDouble(x, cfg.maxDelayMs);
    assert Pow2(0) == 1 && cfg.initialDelayMs * Pow2(0) == cfg.initialDelayMs;
  }

  /** The doubling stops at the twenty-first attempt, and none counts as the first. */
  lemma BaseStops(attempt: nat, cfg: Settings)
    ensures attempt >= 21 ==> Base(attempt, cfg) == Base(21, cfg)
    ensures Base(0, cfg) == Base(1, cfg)
  {
  }

  lemma TimesGrows(base: nat, a: real, b: real)
    requires a <= b
    ensures Times(base, a) <= Times(base, b)
  {
  }

  lemma RatioScales(ratio: real, part: real)
    requires 0.0 <= ratio && -1.0 <= part <= 1.0
    ensures -ratio <= ratio * part <= ratio
  {
  }

  lemma JitterIsBounded(part: real, ratio: real)
    requires 0.0 <= ratio <= 1.0 && -1.0 <= part <= 1.0
    ensures 1.0 - ratio <= Jitter(part, ratio) <= 1.0 + ratio
  {
    RatioScales(ratio, part);
  }

  lemma CastIsBounded(base: nat, low: real, ms: real, high: real)
    requires base <= U64_MAX && low <= ms <= high && low <= base as real
    ensures low.Floor <= Cast(ms) && 1 <= Cast(ms)
    ensures Cast(ms) as real <= if high < 1.0 then 1.0 else high
  {
  }

  /** The delay stays within the jitter around the base, and is at least 1 ms. */
  lemma DelayIsBounded(attempt: nat, tunnelId: int, cfg: Settings)
    requires 0.0 <= cfg.jitterRatio <= 1.0
    ensures var low := Times(Base(attempt, cfg), 1.0 - cfg.jitterRatio);
            var high := Times(Base(attempt, cfg), 1.0 + cfg.jitterRatio);
            var delay := BackoffDelay(attempt, tunnelId, cfg);
            low.Floor <= delay && 1 <= delay && delay as real <= if high < 1.0 then 1.0 else high
  {
    var r, base := cfg.jitterRatio, Base(attempt, cfg);
    var jitter := JitterFactor(tunnelId, Max(attempt, 1), r);
    JitterIsBounded(Part(Hash(tunnelId, Max(attempt, 1))), r);
    TimesGrows(base, 1.0 - r, jitter);
    TimesGrows(base, jitter, 1.0 + r);
    TimesGrows(base, 1.0 - r, 1.0);
    CastIsBounded(base, Times(base, 1.0 - r), Times(base, jitter), Times(base, 1.0 + r));
  }

  /** Without jitter the delay is the base, and at least 1 ms. */
  lemma NoJitterNoChange(attempt: nat, tunnelId: int, cfg: Settings)
    requires cfg.jitterRatio == 0.0
    ensures BackoffDelay(attempt, tunnelId, cfg) == Max(Base(attempt, cfg), 1)
  {
    assert Base(attempt, cfg) <= U64_MAX;
    TimesOne(Base(attempt, cfg));
  }

  lemma TimesOne(base: nat)
    ensures Times(base, 1.0) == base as real
  {
  }

  function Share(part: real, ratio: real): real {
    part * ratio
  }

  /** The jitter is the ratio times the hash's place between minus one and one: the
      delay is the base moved by that share of it, cut to whole milliseconds. */
  lemma JitterMovesTheBase(attempt: nat, tunnelId: int, cfg: Settings)
    requires attempt >= 1
    ensures var base, delay := Base(attempt, cfg), BackoffDelay(attempt, tunnelId, cfg);
            var ms := base as real + Times(base, Share(Part(Hash(tunnelId, attempt)), cfg.jitterRatio));
            1.0 <= ms <= U64_MAX as real ==> delay as real <= ms < delay as real + 1.0
  {
    var base, part := Base(attempt, cfg), Part(Hash(tunnelId, attempt));
    Shared(base, part, cfg.jitterRatio);
    var ms := Times(base, Jitter(part, cfg.jitterRatio));
    if 1.0 <= ms <= U64_MAX as real {
      CastCuts(ms);
    }
  }

  lemma Shared(base: nat, part: real, ratio: real)
    ensures Times(base, Jitter(part, ratio)) == base as real + Times(base, Share(part, ratio))
  {
  }

  lemma CastCuts(ms: real)
    requires 1.0 <= ms <= U64_MAX as real
    ensures Cast(ms) as real <= ms < Cast(ms) as real + 1.0
  {
  }

  // ---------------------------------------------------------------- the settings screen

  /** adjust_field by `delta` steps of the row. */
  function Adjusted(c: Settings, row: nat, delta: int): Settings {
    match row
    case 0 => c.(maxAttempts := Clamp(c.maxAttempts + delta, 0, 999))
    case 1 =>
      var next := Clamp(c.initialDelayMs + delta * 1000, 1000, 300_000);
      c.(initialDelayMs := next, maxDelayMs := Max(c.maxDelayMs, next))
    case 2 =>
      var next := Clamp(c.maxDelayMs + delta * 5000, 5000, 600_000);
      c.(maxDelayMs := next, initialDelayMs := Min(c.initialDelayMs, next))
    case 3 => c.(stableSecs := Clamp(c.stableSecs + delta, 1, 120))
    case 4 =>
      var next := c.jitterRatio + delta as real * 0.05;
      c.(jitterRatio := if next < 0.0 then 0.0 else if next > 1.0 then 1.0 else next)
    case _ => c
  }

  const DEFAULTS := Settings(12, 1000, 60_000, 0.25, 5)

  function Reset(c: Settings, row: nat): Settings {
    match row
    case 0 => c.(maxAttempts := DEFAULTS.maxAttempts)
    case 1 => c.(initialDelayMs := DEFAULTS.initialDelayMs)
    case 2 => c.(maxDelayMs := DEFAULTS.maxDelayMs)
    case 3 => c.(stableSecs := DEFAULTS.stableSecs)
    case 4 => c.(jitterRatio := DEFAULTS.jitterRatio)
    case _ => c
  }

  class TunnelReconnectConfig {
    var maxAttempts: nat
    var initialDelayMs: nat
    var maxDelayMs: nat
    var jitterRatio: real
    var stableSecs: nat

    function Value(): Settings
      reads this
    {
      Settings(maxAttempts, initialDelayMs, maxDelayMs, jitterRatio, stableSecs)
    }

    method AdjustField(row: nat, delta: int)
      modifies this
      ensures Value() == Adjusted(old(Value()), row, delta)
    {
      match row {
        case 0 =>
          maxAttempts := Clamp(maxAttempts + delta, 0, 999);
        case 1 =>
          initialDelayMs := Clamp(initialDelayMs + delta * 1000, 1000, 300_000);
          if initialDelayMs > maxDelayMs {
            maxDelayMs := initialDelayMs;
          }
        case 2 =>
          maxDelayMs := Clamp(maxDelayMs + delta * 5000, 5000, 600_000);
          if maxDelayMs < initialDelayMs {
            initialDelayMs := maxDelayMs;
          }
        case 3 =>
          stableSecs := Clamp(stableSecs + delta, 1, 120);
        case 4 =>
          var next := jitterRatio + delta as real * 0.05;
          jitterRatio := if next < 0.0 then 0.0 else if next > 1.0 then 1.0 else next;
        case _ =>
      }
    }

    method ResetField(row: nat)
      modifies this
      ensures Value() == Reset(old(Value()), row)
    {
      match row {
        case 0 => maxAttempts := DEFAULTS.maxAttempts;
        case 1 => initialDelayMs := DEFAULTS.initialDelayMs;
        case 2 => maxDelayMs := DEFAULTS.maxDelayMs;
        case 3 => stableSecs := DEFAULTS.stableSecs;
        case 4 => jitterRatio := DEFAULTS.jitterRatio;
        case _ =>
      }
    }
  }

  /** One press of a row: a step of its size, until the end of the row. */
  lemma OnePress(c: Settings)
    requires InBounds(c)
    ensures Adjusted(c, 0, 1).maxAttempts == (if c.maxAttempts < 999 then c.maxAttempts + 1 else 999)
    ensures Adjusted(c, 0, -1).maxAttempts == (if c.maxAttempts > 0 then c.maxAttempts - 1 else 0)
    ensures Adjusted(c, 1, 1).initialDelayMs ==
        (if c.initialDelayMs <= 299_000 then c.initialDelayMs + 1000 else 300_000)
    ensures Adjusted(c, 1, -1).initialDelayMs == (if c.initialDelayMs >= 2000 then c.initialDelayMs - 1000 else 1000)
    ensures Adjusted(c, 2, 1).maxDelayMs == (if c.maxDelayMs <= 595_000 then c.maxDelayMs + 5000 else 600_000)
    ensures Adjusted(c, 2, -1).maxDelayMs == (if c.maxDelayMs >= 10_000 then c.maxDelayMs - 5000 else 5000)
    ensures Adjusted(c, 3, 1).stableSecs == (if c.stableSecs < 120 then c.stableSecs + 1 else 120)
    ensures Adjusted(c, 3, -1).stableSecs == (if c.stableSecs > 1 then c.stableSecs - 1 else 1)
    ensures Adjusted(c, 4, 1).jitterRatio == (if c.jitterRatio <= 0.95 then c.jitterRatio + 0.05 else 1.0)
    ensures Adjusted(c, 4, -1).jitterRatio == (if c.jitterRatio >= 0.05 then c.jitterRatio - 0.05 else 0.0)
  {
  }

  /** What a press leaves alone: every row but its own, except that a delay takes the
      other along when it would pass it. */
  lemma PressMovesOneRow(c: Settings, row: nat, delta: int)
    requires InBounds(c)
    ensures var d := Adjusted(c, row, delta);
            var pulledDown := row == 2 && d.maxDelayMs < c.initialDelayMs;
            var pulledUp := row == 1 && d.initialDelayMs > c.maxDelayMs;
            (row != 0 ==> d.maxAttempts == c.maxAttempts) && (row != 3 ==> d.stableSecs == c.stableSecs)
            && (row != 4 ==> d.jitterRatio == c.jitterRatio)
            && (row != 1 ==> d.initialDelayMs == if pulledDown then d.maxDelayMs else c.initialDelayMs)
            && (row != 2 ==> d.maxDelayMs == if pulledUp then d.initialDelayMs else c.maxDelayMs)
  {
  }

  /** Presses in one direction add up. */
  lemma PressesAdd(c: Settings, row: nat, a: int, b: int)
    requires InBounds(c) && ((0 <= a && 0 <= b) || (a <= 0 && b <= 0))
    ensures Adjusted(Adjusted(c, row, a), row, b) == Adjusted(c, row, a + b)
  {
    match row {
      case 0 => ClampsAdd(c.maxAttempts, 0, 999, a, b);
      case 1 => ClampsAdd(c.initialDelayMs, 1000, 300_000, a * 1000, b * 1000);
      case 2 => ClampsAdd(c.maxDelayMs, 5000, 600_000, a * 5000, b * 5000);
      case 3 => ClampsAdd(c.stableSecs, 1, 120, a, b);
      case 4 => RatiosAdd(c, a, b);
      case _ =>
    }
  }

  lemma RatiosAdd(c: Settings, a: int, b: int)
    requires InBounds(c) && ((0 <= a && 0 <= b) || (a <= 0 && b <= 0))
    ensures Adjusted(Adjusted(c, 4, a), 4, b) == Adjusted(c, 4, a + b)
  {
  }

  lemma ClampsAdd(x: int, low: int, high: int, a: int, b: int)
    requires low <= x <= high && ((0 <= a && 0 <= b) || (a <= 0 && b <= 0))
    ensures Clamp(Clamp(x + a, low, high) + b, low, high) == Clamp(x + a + b, low, high)
    ensures Clamp(x + a + b, low, high) <= Clamp(x + a, low, high) || b >= 0
    ensures Clamp(x + a + b, low, high) >= Clamp(x + a, low, high) || b <= 0
  {
  }

  predicate InBounds(c: Settings) {
    c.maxAttempts <= 999 && 1000 <= c.initialDelayMs <= 300_000 && 5000 <= c.maxDelayMs <= 600_000
    && 0.0 <= c.jitterRatio <= 1.0 && 1 <= c.stableSecs <= 120 && c.initialDelayMs <= c.maxDelayMs
  }

  function AdjustedBy(c: Settings, moves: seq<(nat, int)>): Settings {
    if moves == [] then c
    else Adjusted(AdjustedBy(c, moves[..|moves| - 1]), moves[|moves| - 1].0, moves[|moves| - 1].1)
  }

  /** Any series of adjustments keeps every bound and the order of the delays. */
  lemma {:induction false} AdjustmentsKeepBounds(c: Settings, moves: seq<(nat, int)>)
    requires InBounds(c)
    ensures InBounds(AdjustedBy(c, moves))
  {
    if moves != [] {
      AdjustmentsKeepBounds(c, moves[..|moves| - 1]);
    }
  }

  /** Both delays at five minutes, then a reset of the maximum. */
  lemma ResetCrosses()
    ensures var c := Settings(12, 300_000, 300_000, 0.25, 5);
            InBounds(c) && Reset(c, 2).initialDelayMs > Reset(c, 2).maxDelayMs
  {
  }

  /** A reset keeps them too, except that of the maximum under a longer initial
      delay, which it does not bring down. */
  lemma ResetKeepsBounds(c: Settings, row: nat)
    requires InBounds(c)
    ensures InBounds(Reset(c, row)) <==> !(row == 2 && c.initialDelayMs > 60_000)
  {
  }
}
