/**
 * The mining schedule: reward halving by the clock and 256-bit target adjustment by block count, with their closed
 * forms and bounds over whole runs of mined blocks.
 */
module Mining {
  import opened Common
  import opened Arithmetic

  const MICROS_PER_SECOND: nat := 1_000_000
  const ADJUSTMENT_BLOCKS: nat := 2160
  const TARGET_SECONDS: nat := 10800
  // 365 days in microseconds.
  const HALVING_CYCLE: nat := 31_536_000_000_000
  // 00000FFF...F: the top 20 bits clear.
  const INITIAL_TARGET: nat := 0xFFF_FFFF_FFFF_FFFF_FFFF_FFFF_FFFF_FFFF_FFFF_FFFF_FFFF_FFFF_FFFF_FFFF_FFFF
  const U16_RANGE: nat := 0x1_0000

  type Target = x: nat | x < U256_RANGE

  datatype Info = Info(
    target: Target,
    blockDuration: Timestamp,
    cumulativeBlocks: nat,
    lastTargetAdjustedAt: Timestamp,
    initialRewardAmount: Amount,
    rewardAmount: Amount,
    nextHalvingAt: Timestamp)

  /** 1.7 tokens a block for a supply of 21 million, in proportion. */
  function InitialReward(miningSupply: Amount): Amount {
    RewardFits(miningSupply);
    17 * (ONE_TOKEN / 10) * miningSupply / (21_000_000 * ONE_TOKEN)
  }

  lemma RewardFits(supply: Amount)
    ensures 17 * (ONE_TOKEN / 10) * supply / (21_000_000 * ONE_TOKEN) <= supply
  {
  }

  /** The first reward is 1.7 of 21 million parts of the supply, rounded down. */
  lemma InitialRewardExact(supply: Amount)
    ensures 210_000_000 * InitialReward(supply) <= 17 * supply < 210_000_000 * (InitialReward(supply) + 1)
  {
    RewardFits(supply);
  }

  function New(miningSupply: Amount, now: Timestamp): Info {
    Info(INITIAL_TARGET, TARGET_SECONDS * MICROS_PER_SECOND, 0, now, InitialReward(miningSupply),
         InitialReward(miningSupply), SaturatingAdd(now, HALVING_CYCLE))
  }

  function Halve(info: Info, now: Timestamp): Info {
    if now < info.nextHalvingAt then info else
    info.(rewardAmount := info.rewardAmount / 2, nextHalvingAt := SaturatingAdd(info.nextHalvingAt, HALVING_CYCLE))
  }

  function Elapsed(info: Info, now: Timestamp): Timestamp {
    if now < info.lastTargetAdjustedAt then 0 else now - info.lastTargetAdjustedAt
  }

  function Clamp(seconds: nat): (c: nat)
    ensures TARGET_SECONDS / 4 <= c <= TARGET_SECONDS * 4
    ensures TARGET_SECONDS / 4 <= seconds <= TARGET_SECONDS * 4 ==> c == seconds
  {
    Min(Max(seconds, TARGET_SECONDS / 4), TARGET_SECONDS * 4)
  }

  /** The next target after `seconds` of wall time; a product wider than 256 bits falls back to the initial target. */
  function Retarget(target: Target, seconds: nat): Target {
    var product := target * Clamp(seconds);
    if product < U256_RANGE then product / TARGET_SECONDS else INITIAL_TARGET
  }

  predicate Retargets(info: Info, now: Timestamp) {
    info.cumulativeBlocks >= ADJUSTMENT_BLOCKS && Elapsed(info, now) >= MICROS_PER_SECOND
  }

  function AdjustTarget(info: Info, now: Timestamp): Info {
    if !Retargets(info, now) then info else
    info.(target := Retarget(info.target, Elapsed(info, now) / MICROS_PER_SECOND), blockDuration := Elapsed(info, now),
          cumulativeBlocks := 0, lastTargetAdjustedAt := now)
  }

  function CountBlock(info: Info): Info {
    info.(cumulativeBlocks := (info.cumulativeBlocks + 1) % U16_RANGE)
  }

  /** The schedule's part of one mined block. */
  function Mine(info: Info, now: Timestamp): Info {
    AdjustTarget(CountBlock(Halve(info, now)), now)
  }

  // ---- The record whose fields the contract assigns ----

  class MiningInfo {
    var target: Target
    var blockDuration: Timestamp
    var cumulativeBlocks: nat
    var lastTargetAdjustedAt: Timestamp
    var initialRewardAmount: Amount
    var rewardAmount: Amount
    var nextHalvingAt: Timestamp

    function View(): Info
      reads this
    {
      Info(target, blockDuration, cumulativeBlocks, lastTargetAdjustedAt, initialRewardAmount, rewardAmount, nextHalvingAt)
    }

    constructor (info: Info)
      ensures View() == info
    {
      target, blockDuration, cumulativeBlocks := info.target, info.blockDuration, info.cumulativeBlocks;
      lastTargetAdjustedAt, initialRewardAmount := info.lastTargetAdjustedAt, info.initialRewardAmount;
      rewardAmount, nextHalvingAt := info.rewardAmount, info.nextHalvingAt;
    }

    method TryHalf(now: Timestamp)
      modifies this
      ensures View() == Halve(old(View()), now)
    {
      if now < nextHalvingAt {
        return;
      }
      rewardAmount := rewardAmount / 2;
      nextHalvingAt := SaturatingAdd(nextHalvingAt, HALVING_CYCLE);
    }

    method TryAdjustTarget(now: Timestamp)
      modifies this
      ensures View() == AdjustTarget(old(View()), now)
    {
      if cumulativeBlocks < ADJUSTMENT_BLOCKS {
        return;
      }
      var elapsed: Timestamp := Elapsed(View(), now);
      var elapsedSecs := elapsed / MICROS_PER_SECOND;
      if elapsedSecs == 0 {
        return;
      }
      var clamped := Min(Max(elapsedSecs, TARGET_SECONDS / 4), TARGET_SECONDS * 4);
      var product := target * clamped;
      if product < U256_RANGE {
        target := product / TARGET_SECONDS;
      } else {
        target := INITIAL_TARGET;
      }
      blockDuration := elapsed;
      cumulativeBlocks := 0;
      lastTargetAdjustedAt := now;
    }
  }

  // ---- Runs ----

  function Run(info: Info, clock: seq<Timestamp>): Info {
    if clock == [] then info else Mine(Run(info, clock[..|clock| - 1]), clock[|clock| - 1])
  }

  function Halvings(info: Info, clock: seq<Timestamp>): nat {
    if clock == [] then 0 else
    var front := clock[..|clock| - 1];
    Halvings(info, front) + if clock[|clock| - 1] < Run(info, front).nextHalvingAt then 0 else 1
  }

  function Adjustments(info: Info, clock: seq<Timestamp>): nat {
    if clock == [] then 0 else
    var front, now := clock[..|clock| - 1], clock[|clock| - 1];
    Adjustments(info, front) + if Retargets(CountBlock(Halve(Run(info, front), now)), now) then 1 else 0
  }

  /** The state of the reward after h halvings. */
  predicate Halved(info: Info, supply: Amount, start: Timestamp, h: nat) {
    PowPositive(2, h);
    && info.initialRewardAmount == InitialReward(supply)
    && info.rewardAmount == InitialReward(supply) / Pow(2, h)
    && info.nextHalvingAt == Min(start + (h + 1) * HALVING_CYCLE, U64_MAX)
  }

  lemma HalveOnce(info: Info, supply: Amount, start: Timestamp, h: nat, now: Timestamp)
    requires Halved(info, supply, start, h) && info.nextHalvingAt <= now
    ensures Halved(Halve(info, now), supply, start, h + 1)
  {
    PowPositive(2, h);
    QuotientOfQuotient(InitialReward(supply), Pow(2, h), 2);
  }

  /**
   * After h halvings the reward is the initial reward over 2^h, rounded down once, and the next halving is h + 1
   * cycles after the start, up to the end of time.
   */
  lemma {:induction false} HalvingClosedForm(supply: Amount, start: Timestamp, clock: seq<Timestamp>)
    ensures Halved(Run(New(supply, start), clock), supply, start, Halvings(New(supply, start), clock))
  {
    if clock != [] {
      var front, now := clock[..|clock| - 1], clock[|clock| - 1];
      var mid := Run(New(supply, start), front);
      HalvingClosedForm(supply, start, front);
      if mid.nextHalvingAt <= now {
        HalveOnce(mid, supply, start, Halvings(New(supply, start), front), now);
      }
    }
  }

  /**
   * Under a clock that does not run backwards, no more halvings happen than whole cycles have passed since the
   * start, unless the clock has reached its last instant; and one block halves at most once.
   */
  lemma {:induction false} HalvingsBounded(supply: Amount, start: Timestamp, clock: seq<Timestamp>)
    requires forall i, j :: 0 <= i < j < |clock| ==> clock[i] <= clock[j]
    requires forall i :: 0 <= i < |clock| ==> start <= clock[i]
    ensures Halvings(New(supply, start), clock) <= |clock|
    ensures clock != [] && clock[|clock| - 1] < U64_MAX ==>
      Halvings(New(supply, start), clock) <= (clock[|clock| - 1] - start) / HALVING_CYCLE
  {
    if clock != [] {
      var front, now := clock[..|clock| - 1], clock[|clock| - 1];
      HalvingsBounded(supply, start, front);
      HalvingClosedForm(supply, start, front);
      if front != [] {
        assert front[|front| - 1] <= now;
      }
    }
  }

  /** The reward is used up exactly when two to the number of halvings passes the initial reward. */
  lemma RewardGoneExactly(supply: Amount, start: Timestamp, clock: seq<Timestamp>)
    ensures Run(New(supply, start), clock).rewardAmount == 0 <==>
      InitialReward(supply) < Pow(2, Halvings(New(supply, start), clock))
  {
    var p := Pow(2, Halvings(New(supply, start), clock));
    HalvingClosedForm(supply, start, clock);
    PowPositive(2, Halvings(New(supply, start), clock));
    BelowDivisor(InitialReward(supply), p);
  }

  lemma BelowDivisor(n: nat, d: nat)
    requires d > 0
    ensures n / d == 0 <==> n < d
  {
    Quotient(n, d);
    if n < d { QuotientUnique(n, d, 0); }
  }

  /** One block at the end of each of the first n cycles. */
  function YearlyClock(start: Timestamp, n: nat): seq<Timestamp>
    requires start + n * HALVING_CYCLE <= U64_MAX
  {
    if n == 0 then [] else YearlyClock(start, n - 1) + [start + n * HALVING_CYCLE]
  }

  /** The clock runs forward. */
  lemma {:induction false} YearlyClockForward(start: Timestamp, n: nat)
    requires start + n * HALVING_CYCLE <= U64_MAX
    ensures |YearlyClock(start, n)| == n
    ensures forall i :: 0 <= i < n ==> start <= YearlyClock(start, n)[i] <= start + n * HALVING_CYCLE
    ensures forall i, j :: 0 <= i < j < n ==> YearlyClock(start, n)[i] <= YearlyClock(start, n)[j]
  {
    if n > 0 {
      YearlyClockForward(start, n - 1);
    }
  }

  lemma {:induction false} YearlyHalvings(supply: Amount, start: Timestamp, n: nat)
    requires start + n * HALVING_CYCLE <= U64_MAX
    ensures Halvings(New(supply, start), YearlyClock(start, n)) == n
  {
    if n > 0 {
      YearlyHalvings(supply, start, n - 1);
      var front := YearlyClock(start, n - 1);
      NextHalving(supply, start, front);
      HalvingsAppend(New(supply, start), front, start + n * HALVING_CYCLE);
    }
  }

  lemma NextHalving(supply: Amount, start: Timestamp, clock: seq<Timestamp>)
    ensures Run(New(supply, start), clock).nextHalvingAt <= start + (Halvings(New(supply, start), clock) + 1) * HALVING_CYCLE
  {
    HalvingClosedForm(supply, start, clock);
  }

  lemma HalvingsAppend(info: Info, clock: seq<Timestamp>, now: Timestamp)
    requires Run(info, clock).nextHalvingAt <= now
    ensures Halvings(info, clock + [now]) == Halvings(info, clock) + 1
  {
    assert (clock + [now])[..|clock|] == clock;
  }

  /** From every start that leaves room for 128 cycles, 128 blocks at a forward clock use up any reward. */
  lemma RewardCanRunOut(supply: Amount, start: Timestamp)
    requires start + 128 * HALVING_CYCLE <= U64_MAX
    ensures Run(New(supply, start), YearlyClock(start, 128)).rewardAmount == 0
  {
    YearlyHalvings(supply, start, 128);
    RewardGoneExactly(supply, start, YearlyClock(start, 128));
    RewardFits(supply);
    TwoTo128();
  }

  lemma TwoTo64()
    ensures Pow(2, 64) == U64_MAX + 1
  {
    assert Pow(2, 1) == 2 && Pow(2, 2) == 4;
    PowSum(2, 2, 2); PowSum(2, 4, 4); PowSum(2, 8, 8);
    PowSum(2, 16, 16); PowSum(2, 32, 32);
  }

  lemma TwoTo128()
    ensures Pow(2, 128) == U128_MAX + 1
  {
    TwoTo64();
    PowSum(2, 64, 64);
  }

  // ---- Difficulty ----

  /** A retarget moves the target by a factor of four at most, up or down, or resets it because the product overflowed. */
  lemma RetargetWindow(target: Target, seconds: nat)
    ensures var next := Retarget(target, seconds);
      if target * Clamp(seconds) < U256_RANGE then target / 4 <= next <= 4 * target else next == INITIAL_TARGET
    ensures Retarget(target, seconds) <= (U256_RANGE - 1) / TARGET_SECONDS
  {
    var c := Clamp(seconds);
    MulMonotone(target, target, 2700, c);
    MulMonotone(target, target, c, 43200);
  }

  /** What a retarget makes of a target after so many seconds; three hours are 10800. */
  predicate RetargetedTo(target: Target, seconds: nat, next: nat) {
    && (seconds <= 2700 ==> next == if target * 2700 < U256_RANGE then target / 4 else INITIAL_TARGET)
    && (2700 <= seconds <= 43200 ==>
          next == if target * seconds < U256_RANGE then target * seconds / 10800 else INITIAL_TARGET)
    && (43200 <= seconds ==> next == if target * 43200 < U256_RANGE then 4 * target else INITIAL_TARGET)
  }

  lemma RetargetExact(target: Target, seconds: nat)
    ensures RetargetedTo(target, seconds, Retarget(target, seconds))
  {
    if seconds <= 2700 {
      QuotientUnique(target * 2700, 10800, target / 4);
    } else if 43200 <= seconds {
      QuotientUnique(target * 43200, 10800, 4 * target);
    }
  }

  /**
   * The target is adjusted exactly when 2160 blocks are counted and a whole second has passed since the last
   * adjustment: fast blocks lower it, slow blocks raise it, and the counter and the clock of the period start again.
   */
  lemma AdjustTargetExact(info: Info, now: Timestamp)
    ensures var next := AdjustTarget(info, now);
      if info.cumulativeBlocks >= 2160 && now >= info.lastTargetAdjustedAt + 1_000_000 then
        && RetargetedTo(info.target, (now - info.lastTargetAdjustedAt) / 1_000_000, next.target)
        && next == info.(target := next.target, blockDuration := now - info.lastTargetAdjustedAt, cumulativeBlocks := 0,
                         lastTargetAdjustedAt := now)
      else next == info
  {
    RetargetExact(info.target, Elapsed(info, now) / MICROS_PER_SECOND);
  }

  /** A longer period never leads to a lower target, as long as the longer one's product fits. */
  lemma RetargetMonotone(target: Target, seconds: nat, longer: nat)
    requires seconds <= longer && target * Clamp(longer) < U256_RANGE
    ensures Retarget(target, seconds) <= Retarget(target, longer)
  {
    MulMonotone(target, target, Clamp(seconds), Clamp(longer));
    QuotientMonotone(target * Clamp(seconds), target * Clamp(longer), TARGET_SECONDS);
  }

  /** While less than a second has passed since the last adjustment, blocks only move the 16-bit counter, which wraps. */
  lemma {:induction false} StalledClock(info: Info, clock: seq<Timestamp>)
    requires info.cumulativeBlocks < 65536
    requires forall i :: 0 <= i < |clock| ==> clock[i] < info.lastTargetAdjustedAt + 1_000_000
    ensures var after := Run(info, clock);
      after.target == info.target && after.lastTargetAdjustedAt == info.lastTargetAdjustedAt &&
      after.cumulativeBlocks == (info.cumulativeBlocks + |clock|) % 65536
  {
    if clock != [] {
      StalledClock(info, clock[..|clock| - 1]);
    }
  }

  /** One retarget makes the target zero exactly when the target times the clamped seconds is below 10800. */
  lemma RetargetToZero(target: Target, seconds: nat)
    ensures Retarget(target, seconds) == 0 <==> target * Clamp(seconds) < TARGET_SECONDS
  {
    Quotient(target * Clamp(seconds), TARGET_SECONDS);
  }

  const TARGET_CEILING: nat := (U256_RANGE - 1) / TARGET_SECONDS

  /** The target never passes the largest 256-bit number over 10800, and loses at most a factor of four per retarget. */
  lemma {:induction false} TargetBounds(supply: Amount, start: Timestamp, clock: seq<Timestamp>)
    ensures var n := Adjustments(New(supply, start), clock);
      Pow(4, n) > 0 && INITIAL_TARGET / Pow(4, n) <= Run(New(supply, start), clock).target <= TARGET_CEILING
  {
    PowPositive(4, Adjustments(New(supply, start), clock));
    if clock != [] {
      var front, now := clock[..|clock| - 1], clock[|clock| - 1];
      TargetBounds(supply, start, front);
      var mid := Run(New(supply, start), front);
      var info := CountBlock(Halve(mid, now));
      if Retargets(info, now) {
        var p := Pow(4, Adjustments(New(supply, start), front));
        RetargetWindow(mid.target, Elapsed(info, now) / MICROS_PER_SECOND);
        PowPositive(4, Adjustments(New(supply, start), front));
        QuotientOfQuotient(INITIAL_TARGET, p, 4);
        QuotientShrinks(INITIAL_TARGET, p * 4);
      }
    }
  }

  /** The target stays positive through the first 117 retargets. */
  lemma TargetPositive(supply: Amount, start: Timestamp, clock: seq<Timestamp>)
    requires Adjustments(New(supply, start), clock) <= 117
    ensures Run(New(supply, start), clock).target > 0
  {
    var n := Adjustments(New(supply, start), clock);
    TargetBounds(supply, start, clock);
    PowMonotone(4, n, 117);
    Pow117();
    MulMonotone(1, 1, Pow(4, n), INITIAL_TARGET);
    QuotientMonotone(Pow(4, n), INITIAL_TARGET, Pow(4, n));
  }

  lemma Pow117()
    ensures Pow(4, 117) <= INITIAL_TARGET < Pow(4, 118)
  {
    PowSum(4, 2, 1); PowSum(4, 3, 4); PowSum(4, 7, 7); PowSum(4, 14, 15);
    PowSum(4, 14, 1); PowSum(4, 29, 29); PowSum(4, 58, 59); PowSum(4, 58, 1);
    assert Pow(4, 1) == 4 && Pow(4, 2) == 16 && Pow(4, 3) == 64 && Pow(4, 4) == 256;
    assert Pow(4, 14) == 0x1000_0000 && Pow(4, 15) == 0x4000_0000;
    assert Pow(4, 29) == 0x400_0000_0000_0000;
    assert Pow(4, 117) == Pow(4, 58) * Pow(4, 59) && Pow(4, 118) == 4 * Pow(4, 117);
  }

  // ---- The target can be lost ----

  /** A target of zero is never left again. */
  lemma {:induction false} ZeroTargetStays(info: Info, clock: seq<Timestamp>)
    requires info.target == 0
    ensures Run(info, clock).target == 0
  {
    if clock != [] {
      ZeroTargetStays(info, clock[..|clock| - 1]);
    }
  }

  lemma {:induction false} RunConcat(info: Info, a: seq<Timestamp>, b: seq<Timestamp>)
    ensures Run(info, a + b) == Run(Run(info, a), b)
    ensures Adjustments(info, a + b) == Adjustments(info, a) + Adjustments(Run(info, a), b)
  {
    if b == [] {
      assert a + b == a;
    } else {
      RunConcat(info, a, b[..|b| - 1]);
      assert (a + b)[..|a + b| - 1] == a + b[..|b| - 1];
    }
  }

  /** `n` blocks mined in the same instant. */
  function Burst(now: Timestamp, n: nat): seq<Timestamp> {
    seq(n, _ => now)
  }

  lemma QuietBlock(info: Info, now: Timestamp)
    requires info.cumulativeBlocks + 1 < ADJUSTMENT_BLOCKS
    ensures var after := Mine(info, now);
      after.target == info.target && after.cumulativeBlocks == info.cumulativeBlocks + 1 &&
      after.lastTargetAdjustedAt == info.lastTargetAdjustedAt && !Retargets(CountBlock(Halve(info, now)), now)
  {
  }

  lemma QuarteringBlock(info: Info, now: Timestamp)
    requires info.cumulativeBlocks + 1 == ADJUSTMENT_BLOCKS && info.target <= INITIAL_TARGET
    requires now == info.lastTargetAdjustedAt + MICROS_PER_SECOND
    ensures var after := Mine(info, now);
      after.target == info.target / 4 && after.cumulativeBlocks == 0 &&
      after.lastTargetAdjustedAt == now && Retargets(CountBlock(Halve(info, now)), now)
  {
  }

  /** A burst of 2160 blocks one second after the last adjustment divides the target by four. */
  lemma {:induction false} BurstQuarters(info: Info, now: Timestamp, n: nat)
    requires info.cumulativeBlocks == 0 && now == info.lastTargetAdjustedAt + MICROS_PER_SECOND && n <= ADJUSTMENT_BLOCKS
    requires info.target <= INITIAL_TARGET
    ensures var after := Run(info, Burst(now, n));
      if n < ADJUSTMENT_BLOCKS then
        after.target == info.target && after.cumulativeBlocks == n &&
        after.lastTargetAdjustedAt == info.lastTargetAdjustedAt && Adjustments(info, Burst(now, n)) == 0
      else
        after.target == info.target / 4 && after.cumulativeBlocks == 0 &&
        after.lastTargetAdjustedAt == now && Adjustments(info, Burst(now, n)) == 1
  {
    if n > 0 {
      BurstQuarters(info, now, n - 1);
      assert Burst(now, n)[..n - 1] == Burst(now, n - 1);
      if n < ADJUSTMENT_BLOCKS {
        QuietBlock(Run(info, Burst(now, n - 1)), now);
      } else {
        QuarteringBlock(Run(info, Burst(now, n - 1)), now);
      }
    }
  }

  /** 2160 blocks in each of the first n seconds after `start`. */
  function FastClock(start: Timestamp, n: nat): seq<Timestamp>
    requires start + n * MICROS_PER_SECOND <= U64_MAX
  {
    if n == 0 then [] else FastClock(start, n - 1) + Burst(start + n * MICROS_PER_SECOND, ADJUSTMENT_BLOCKS)
  }

  lemma FastSecond(info: Info, now: Timestamp, p: nat)
    requires p > 0 && info.target == INITIAL_TARGET / p && info.cumulativeBlocks == 0
    requires now == info.lastTargetAdjustedAt + MICROS_PER_SECOND
    ensures var after := Run(info, Burst(now, ADJUSTMENT_BLOCKS));
      after.target == INITIAL_TARGET / (4 * p) && after.cumulativeBlocks == 0 && after.lastTargetAdjustedAt == now
    ensures Adjustments(info, Burst(now, ADJUSTMENT_BLOCKS)) == 1
  {
    QuotientShrinks(INITIAL_TARGET, p);
    BurstQuarters(info, now, ADJUSTMENT_BLOCKS);
    QuotientOfQuotient(INITIAL_TARGET, p, 4);
  }

  lemma {:induction false} FastClockQuarters(supply: Amount, start: Timestamp, n: nat)
    requires start + n * MICROS_PER_SECOND <= U64_MAX
    ensures var info := Run(New(supply, start), FastClock(start, n));
      Pow(4, n) > 0 && info.target == INITIAL_TARGET / Pow(4, n) && info.cumulativeBlocks == 0 &&
      info.lastTargetAdjustedAt == start + n * MICROS_PER_SECOND
    ensures Adjustments(New(supply, start), FastClock(start, n)) == n
  {
    PowPositive(4, n);
    if n > 0 {
      FastClockQuarters(supply, start, n - 1);
      var mid := Run(New(supply, start), FastClock(start, n - 1));
      var now := start + n * MICROS_PER_SECOND;
      FastSecond(mid, now, Pow(4, n - 1));
      RunConcat(New(supply, start), FastClock(start, n - 1), Burst(now, ADJUSTMENT_BLOCKS));
    }
  }

  /**
   * The bound of 117 cannot be improved: from every start there is a clock on which the 118th retarget makes the
   * target zero, and by `ZeroTargetStays` no later block brings it back.
   */
  lemma TargetCanReachZero(supply: Amount, start: Timestamp)
    requires start + 118 * MICROS_PER_SECOND <= U64_MAX
    ensures exists clock ::
      Adjustments(New(supply, start), clock) == 118 && Run(New(supply, start), clock).target == 0
  {
    FastClockQuarters(supply, start, 118);
    Pow117();
    assert INITIAL_TARGET / Pow(4, 118) == 0;
    var clock := FastClock(start, 118);
    assert Adjustments(New(supply, start), clock) == 118 && Run(New(supply, start), clock).target == 0;
  }
}
