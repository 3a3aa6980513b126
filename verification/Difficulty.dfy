/** The Oak difficulty adjustment (modules/consensus/difficulty.go), standard network. */
module Difficulty {
  import opened Types
  import opened Targets

  const BLOCK_FREQUENCY: nat := 600
  const OAK_MAX_BLOCK_SHIFT: nat := 3
  const OAK_DECAY: real := 995.0 / 1000.0
  const OAK_MAX_RISE: real := 1004.0 / 1000.0
  const OAK_MAX_DROP: real := 1000.0 / 1004.0
  const LAUNCH_HEIGHT: nat := 7
  const LAUNCH_TARGET: nat := 40 * 0x1_00000000_00000000_00000000_00000000_00000000_00000000

  /** Signed 64-bit wrap-around. */
  function Int64(x: int): (r: int)
    ensures -0x8000_0000_0000_0000 <= r < 0x8000_0000_0000_0000
    ensures -0x8000_0000_0000_0000 <= x < 0x8000_0000_0000_0000 ==> r == x
  {
    (x + 0x8000_0000_0000_0000) % 0x1_0000_0000_0000_0000 - 0x8000_0000_0000_0000
  }

  /** Division that truncates toward zero. */
  function Quot(a: int, b: int): int
    requires b > 0
  {
    if a >= 0 then a / b else -(-a / b)
  }

  /** The block time aimed at: a third to three times the block frequency, for
      any height and timestamp, whatever wraps on the way. */
  function TargetBlockTime(parentHeight: nat, parentTimestamp: uint64): (time: int)
    ensures BLOCK_FREQUENCY / OAK_MAX_BLOCK_SHIFT <= time <= BLOCK_FREQUENCY * OAK_MAX_BLOCK_SHIFT
  {
    var expectedTime := Int64(Int64(BLOCK_FREQUENCY * parentHeight % 0x1_0000_0000_0000_0000)
      + Int64(GENESIS_TIMESTAMP));
    ShiftedTime(Int64(expectedTime - Int64(parentTimestamp)))
  }

  /** The target block time for a distance from the expected time. */
  function ShiftedTime(delta: int): (time: int)
    ensures BLOCK_FREQUENCY / OAK_MAX_BLOCK_SHIFT <= time <= BLOCK_FREQUENCY * OAK_MAX_BLOCK_SHIFT
  {
    var squared := Int64(delta * delta);
    var square := if delta < 0 then Int64(squared * -1) else squared;
    var shift := Quot(square, 10_000_000);
    var time := Int64(BLOCK_FREQUENCY + shift);
    var raised := if time < BLOCK_FREQUENCY / OAK_MAX_BLOCK_SHIFT then BLOCK_FREQUENCY / OAK_MAX_BLOCK_SHIFT else time;
    var lowered := if raised > BLOCK_FREQUENCY * OAK_MAX_BLOCK_SHIFT then BLOCK_FREQUENCY * OAK_MAX_BLOCK_SHIFT
      else raised;
    if lowered == 0 then 1 else lowered
  }

  /** Difficulty of a target. */
  function DifficultyOf(target: nat): nat {
    if target == 0 then ROOT_DEPTH else ROOT_DEPTH / target
  }

  /** Hashes per second, at least one. */
  function VisibleHashrate(parentTotalTime: int, parentTotalTarget: nat): (rate: nat)
    ensures rate > 0
  {
    var seconds := if parentTotalTime < 1 then 1 else parentTotalTime;
    var rate := DifficultyOf(parentTotalTarget) / seconds;
    if rate == 0 then 1 else rate
  }

  /** childTargetOak. The source panics on a zero current target. */
  function ChildTargetOak(parentTotalTime: int, parentTotalTarget: nat, currentTarget: nat, parentHeight: nat,
                          parentTimestamp: uint64): nat
    requires currentTarget > 0
  {
    if parentHeight == LAUNCH_HEIGHT then LAUNCH_TARGET
    else
      var rate, time := VisibleHashrate(parentTotalTime, parentTotalTarget),
        TargetBlockTime(parentHeight, parentTimestamp);
      Clamped(currentTarget, RatToTarget(ROOT_DEPTH as real / (rate * time) as real))
  }

  /** A new target, kept within 0.4% of the current one. */
  function Clamped(currentTarget: nat, newTarget: nat): nat
    requires currentTarget > 0
  {
    var maxNewTarget := MulDifficulty(currentTarget, OAK_MAX_RISE);
    var minNewTarget := MulDifficulty(currentTarget, OAK_MAX_DROP);
    var risen := if newTarget < maxNewTarget then maxNewTarget else newTarget;
    if risen > minNewTarget then minNewTarget else risen
  }

  /** storeBlockTotals. */
  function NewTotalTime(prevTotalTime: int, parentTimestamp: uint64, timestamp: uint64): int {
    Int64(Quot(Int64(prevTotalTime * 995), 1000) + Int64(Int64(timestamp) - Int64(parentTimestamp)))
  }

  function NewTotalTarget(prevTotalTarget: nat, target: nat): nat
    requires prevTotalTarget > 0 && target > 0
  {
    var decayed := MulDifficulty(prevTotalTarget, OAK_DECAY);
    MulDifficultyIs(prevTotalTarget, OAK_DECAY);
    AddDifficulties(decayed, target)
  }

  // ---------------------------------------------------------------- one block

  lemma {:induction false} MulWithinRange(t: nat, y: real)
    requires 0 < t <= ROOT_DEPTH && y >= 1.0
    ensures t as real / y - 1.0 < MulDifficulty(t, y) as real <= t as real / y
  {
    MulDifficultyIs(t, y);
    var v := t as real;
    assert v / y <= v by { assert v / y * y == v; }
    assert 0.0 <= v / y;
  }

  /** The target of a child is within 0.4% of its parent's, up to one unit. */
  lemma {:induction false} ClampedWithin(t: nat, newTarget: nat)
    requires 0 < t <= ROOT_DEPTH
    ensures Clamped(t, newTarget) as real <= t as real * OAK_MAX_RISE
    ensures Clamped(t, newTarget) as real > t as real * OAK_MAX_DROP - 1.0
  {
    MulWithinRange(t, OAK_MAX_RISE);
    MulDifficultyIs(t, OAK_MAX_DROP);
    MulDifficultyIs(t, OAK_MAX_RISE);
    var v := t as real;
    assert v / OAK_MAX_DROP == v * OAK_MAX_RISE;
    assert v / OAK_MAX_RISE == v * OAK_MAX_DROP;
    assert v * OAK_MAX_DROP <= v * OAK_MAX_RISE;
    FloorsInOrder(v * OAK_MAX_DROP, v * OAK_MAX_RISE);
  }

  lemma FloorsInOrder(a: real, b: real)
    requires 0.0 <= a <= b
    ensures RatToTarget(a) <= RatToTarget(b)
  {
  }

  // ---------------------------------------------------------------- many blocks

  function Power(base: real, n: nat): real {
    if n == 0 then 1.0 else base * Power(base, n - 1)
  }

  /** One more step keeps the bounds of the run before it. */
  lemma {:induction false} BoundsCompose(start: real, t: real, t': real, n: nat)
    requires start >= 0.0 && t >= 0.0
    requires t <= start * Power(OAK_MAX_RISE, n)
    requires t > start * Power(OAK_MAX_DROP, n) - 251.0
    requires t' <= t * OAK_MAX_RISE && t' > t * OAK_MAX_DROP - 1.0
    ensures t' <= start * Power(OAK_MAX_RISE, n + 1)
    ensures t' > start * Power(OAK_MAX_DROP, n + 1) - 251.0
  {
    var p, q := Power(OAK_MAX_RISE, n), Power(OAK_MAX_DROP, n);
    assert start * (OAK_MAX_RISE * p) == start * p * OAK_MAX_RISE;
    assert start * (OAK_MAX_DROP * q) == start * q * OAK_MAX_DROP;
    ProductGrowsWeakly(t, start * p, OAK_MAX_RISE);
    ProductGrows(start * q - 251.0, t, OAK_MAX_DROP);
    assert 251.0 * OAK_MAX_DROP == 250.0;
  }
}
