/** What the difficulty adjustment does (modules/consensus/difficulty.go): its
    values in whole numbers, and which way it moves. */
module Adjustment {
  import opened Types
  import opened Hashing
  import opened Numerals
  import opened Targets
  import opened Difficulty
  import opened Freshness
  import opened Chain
  import opened Weights

  const INT64_LIMIT: int := 0x8000_0000_0000_0000

  // ---------------------------------------------------------------- the block time aimed at

  /** When the block at a height is due. */
  function DueTime(height: nat): nat { GENESIS_TIMESTAMP + 600 * height }

  function Square(x: int): (r: nat)
    ensures r == x * x
  {
    x * x
  }

  /** Ten minutes, longer when the chain is early and shorter when it is late,
      by the square of the distance, within a third and three times. */
  function WantedTime(due: int, timestamp: int): int {
    var shift := Square(due - timestamp) / 10_000_000;
    if timestamp <= due then (if shift > 1_200 then 1_800 else 600 + shift)
    else if shift > 400 then 200 else 600 - shift
  }

  /** Whether what is left of the square of a distance after the wrap to 64 bits
      still hits the right cap. */
  predicate WrapHitsCap(d: int) {
    var w := Int64(d * d);
    if d >= 0 then w >= 12_000_000_000 else w >= 4_000_000_000 || w == -INT64_LIMIT
  }

  /** The same on a square that is given. */
  function CappedTime(square: int): int {
    var time := BLOCK_FREQUENCY + Quot(square, 10_000_000);
    if time < 200 then 200 else if time > 1_800 then 1_800 else time
  }

  lemma {:induction false} CappedTimeIs(delta: int)
    ensures var w := Int64(delta * delta);
            ShiftedTime(delta) == CappedTime(if delta >= 0 then w else if w == -INT64_LIMIT then w else -w)
  {
    hide Int64;
    var w := Int64(delta * delta);
    Negated(w);
    var square := if delta < 0 then Int64(w * -1) else w;
    SmallShift(square);
  }

  lemma SmallShift(square: int)
    requires -INT64_LIMIT <= square < INT64_LIMIT
    ensures Int64(BLOCK_FREQUENCY + Quot(square, 10_000_000)) == BLOCK_FREQUENCY + Quot(square, 10_000_000)
  {
  }

  lemma {:induction false} CapsAgree(early: bool, sq: nat, w: int)
    requires -INT64_LIMIT <= w < INT64_LIMIT && (sq < INT64_LIMIT ==> w == sq)
    ensures var shift := sq / 10_000_000;
            CappedTime(if early then w else if w == -INT64_LIMIT then w else -w)
            == (if early then (if shift > 1_200 then 1_800 else 600 + shift)
                else if shift > 400 then 200 else 600 - shift)
            <==> (|| sq < INT64_LIMIT
                  || if early then w >= 12_000_000_000 else w >= 4_000_000_000 || w == -INT64_LIMIT)
  {
  }

  lemma {:induction false} ShiftedTimeIs(due: int, timestamp: int)
    ensures var d := due - timestamp;
            ShiftedTime(d) == WantedTime(due, timestamp) <==> Square(d) < INT64_LIMIT || WrapHitsCap(d)
  {
    hide Int64, ShiftedTime, CappedTime;
    var d := due - timestamp;
    CappedTimeIs(d);
    CapsAgree(d >= 0, Square(d), Int64(d * d));
  }

  lemma Negated(w: int)
    requires -INT64_LIMIT <= w < INT64_LIMIT
    ensures Int64(w * -1) == if w == -INT64_LIMIT then w else -w
  {
  }

  /** A 64-bit number differs from what it wraps by multiples of 2^64. */
  lemma {:induction false} Int64Of(x: int) returns (k: int)
    ensures Int64(x) == x + k * 0x1_0000_0000_0000_0000
  {
    k := -((x + INT64_LIMIT) / 0x1_0000_0000_0000_0000);
  }

  lemma {:induction false} Int64Same(x: int, k: int)
    ensures Int64(x + k * 0x1_0000_0000_0000_0000) == Int64(x)
  {
    var y := x + INT64_LIMIT;
    var q, r := y / 0x1_0000_0000_0000_0000, y % 0x1_0000_0000_0000_0000;
    assert y + k * 0x1_0000_0000_0000_0000 == (q + k) * 0x1_0000_0000_0000_0000 + r;
  }

  /** Wrapping the parts of a difference does not matter. */
  lemma {:induction false} Int64Difference(x: int, y: int)
    ensures Int64(Int64(x) - Int64(y)) == Int64(x - y)
  {
    hide Int64;
    var k := Int64Of(x);
    var l := Int64Of(y);
    Int64Same(x - y, k - l);
  }

  lemma {:induction false} DistanceIs(height: nat, timestamp: uint64)
    ensures TargetBlockTime(height, timestamp) == ShiftedTime(Int64(DueTime(height) - timestamp))
  {
    hide Int64, ShiftedTime;
    var q, r := 600 * height / 0x1_0000_0000_0000_0000, 600 * height % 0x1_0000_0000_0000_0000;
    var k := Int64Of(r);
    Int64Same(DueTime(height), k - q);
    Int64Difference(DueTime(height), timestamp);
    Int64Again(DueTime(height));
  }

  lemma {:induction false} Int64Again(x: int)
    ensures Int64(Int64(x)) == Int64(x)
  {
    hide Int64;
  }

  /** The code measures the distance from the due time in 64 bits, which is
      exact for every distance below 2^63, and aims at the wanted time for it
      whenever its square is a 64-bit number. When it is not, it does if and only
      if the wrapped square hits the right cap. */
  lemma {:induction false} TimeIs(height: nat, timestamp: uint64)
    ensures var d := Int64(DueTime(height) - timestamp);
            TargetBlockTime(height, timestamp) == WantedTime(d, 0) <==> Square(d) < INT64_LIMIT || WrapHitsCap(d)
    ensures -INT64_LIMIT <= DueTime(height) - timestamp < INT64_LIMIT ==>
              WantedTime(Int64(DueTime(height) - timestamp), 0) == WantedTime(DueTime(height), timestamp)
  {
    hide Int64, Square, ShiftedTime, WrapHitsCap, TargetBlockTime;
    DistanceIs(height, timestamp);
    ShiftedTimeIs(Int64(DueTime(height) - timestamp), 0);
  }

  /** Four billion seconds late, the square wraps to zero and the chain counts as on time. */
  lemma {:induction false} WrapMissesCap(height: nat, timestamp: uint64)
    requires timestamp == DueTime(height) + 0x1_0000_0000 && timestamp < INT64_LIMIT
    ensures TargetBlockTime(height, timestamp) == 600 && WantedTime(DueTime(height), timestamp) == 200
  {
    hide Int64;
    assert BLOCK_FREQUENCY * height % 0x1_0000_0000_0000_0000 == 600 * height;
    assert Int64(0x1_0000_0000_0000_0000) == 0 by { Wraps(); }
    assert (-0x1_0000_0000) * (-0x1_0000_0000) == 0x1_0000_0000_0000_0000;
  }

  lemma Wraps()
    ensures Int64(0x1_0000_0000_0000_0000) == 0
  {
  }

  lemma SquareGrows(x: int, y: int)
    requires 0 <= x <= y
    ensures Square(x) <= Square(y)
  {
    assert x * x <= x * y <= y * y;
  }

  /** An early chain is slowed down, a late one sped up, and the more so the
      farther it is off. */
  lemma {:induction false} TimeIsAntitone(due: int, early: int, late: int)
    requires early <= late
    ensures WantedTime(due, early) >= WantedTime(due, late)
    ensures WantedTime(due, due) == 600
    ensures early <= due ==> WantedTime(due, early) >= 600
    ensures late >= due ==> WantedTime(due, late) <= 600
  {
    hide Square;
    assert Square(0) == 0;
    if late <= due {
      SquareGrows(due - late, due - early);
    } else if due <= early {
      SquareGrows(early - due, late - due);
      assert Square(due - late) == Square(late - due) && Square(due - early) == Square(early - due) by {
        SquareOfOpposite(due - late);
        SquareOfOpposite(due - early);
      }
    }
  }

  lemma SquareOfOpposite(x: int)
    ensures Square(x) == Square(-x)
  {
  }

  // ---------------------------------------------------------------- in whole numbers

  lemma {:induction false} FloorOfQuotient(a: nat, b: nat)
    requires b > 0
    ensures (a as real / b as real).Floor == a / b
  {
    var q, x, y := a / b, a as real, b as real;
    QuotientBounds(a, b);
    ProductCast(q, b);
    ProductCast(q + 1, b);
    RealQuotient(x, y, q as real, (q + 1) as real);
    FloorIs(x / y, q);
  }

  lemma RealQuotient(x: real, y: real, low: real, high: real)
    requires y > 0.0 && low * y <= x < high * y
    ensures low <= x / y < high
  {
    var v := x / y;
    assert v * y == x;
    if v < low {
      ProductGrows(v, low, y);
    } else if v >= high {
      ProductGrowsWeakly(high, v, y);
    }
  }

  lemma FloorIs(v: real, q: int)
    requires q as real <= v < (q + 1) as real
    ensures v.Floor == q
  {
  }

  lemma ProductCast(a: nat, b: nat)
    ensures (a * b) as real == a as real * b as real
  {
  }

  lemma {:induction false} InverseOfSum(x: real, y: real)
    requires x > 0.0 && y > 0.0
    ensures 1.0 / (1.0 / x + 1.0 / y) == x * y / (x + y)
  {
    var p, q := 1.0 / x, 1.0 / y;
    assert p * x == 1.0 && q * y == 1.0;
    assert (p + q) * (x * y) == p * x * y + q * y * x == x + y;
    InverseSum(x, y);
    var m := x + y;
    assert (p + q) * (x * y / m) == (p + q) * (x * y) / m == 1.0;
    Reciprocal(p + q, x * y / m);
  }

  /** The sum of two difficulties, as targets: the floor of xy/(x+y). */
  lemma {:induction false} AddInWhole(x: nat, y: nat)
    requires 0 < x <= ROOT_DEPTH && 0 < y
    ensures AddDifficulties(x, y) == x * y / (x + y)
  {
    AddDifficultiesBelow(x, y);
    var v, w := x as real, y as real;
    InverseOfSum(v, w);
    assert v * w == (x * y) as real && v + w == (x + y) as real;
    FloorOfQuotient(x * y, x + y);
  }

  /** A target times a ratio n/d of difficulties: the floor of xd/n, at most the largest target. */
  lemma {:induction false} MulInWhole(x: nat, y: real, n: nat, d: nat)
    requires x > 0 && n > 0 && d > 0 && y > 0.0 && y * d as real == n as real
    ensures MulDifficulty(x, y) == AtMost(x * d / n, ROOT_DEPTH)
  {
    hide MulDifficulty, RatToTarget;
    MulIsQuotient(x, y);
    SameRatio(x, y, n, d);
    WholeRatio(x * d, n);
  }

  lemma {:induction false} MulIsQuotient(x: nat, y: real)
    requires x > 0 && y > 0.0
    ensures MulDifficulty(x, y) == RatToTarget(x as real / y)
  {
    hide MulDifficulty, RatToTarget;
    MulDifficultyIs(x, y);
  }

  lemma {:induction false} SameRatio(x: nat, y: real, n: nat, d: nat)
    requires n > 0 && d > 0 && y > 0.0 && y * d as real == n as real
    ensures x as real / y == (x * d) as real / n as real
  {
    DivideByRatio(x as real, y, n as real, d as real);
    ProductCast(x, d);
  }

  lemma {:induction false} WholeRatio(a: nat, n: nat)
    requires n > 0
    ensures RatToTarget(a as real / n as real) == AtMost(a / n, ROOT_DEPTH)
  {
    FloorOfQuotient(a, n);
    var v := a as real / n as real;
    assert v.Floor == a / n >= 0;
  }

  lemma DivideByRatio(x: real, y: real, n: real, d: real)
    requires n > 0.0 && d > 0.0 && y > 0.0 && y * d == n
    ensures x / y == x * d / n
  {
    var v := x / y;
    assert v * y == x;
    assert v * n == v * y * d == x * d;
  }

  /** Hashes per second: the floor of all hashes over the total time, at least one. */
  lemma {:induction false} HashrateIs(totalTime: int, totalTarget: nat)
    requires totalTarget > 0
    ensures var seconds := if totalTime < 1 then 1 else totalTime;
            var rate := ROOT_DEPTH / (totalTarget * seconds);
            VisibleHashrate(totalTime, totalTarget) == if rate == 0 then 1 else rate
  {
    NestedFloors(ROOT_DEPTH, totalTarget, if totalTime < 1 then 1 else totalTime);
  }

  /** A number moved into an interval. */
  function Within(x: nat, low: nat, high: nat): nat {
    if x < low then low else if x > high then high else x
  }

  /** The target that takes a time to meet at a hashrate. */
  function TargetFor(rate: nat, time: int): nat
    requires rate > 0 && time > 0
  {
    Scales(1, rate, time);
    ROOT_DEPTH / (rate * time)
  }

  function AtMost(x: nat, high: nat): nat { if x > high then high else x }

  /** The new target: what one block in the wanted time asks for at the visible
      hashrate, when that is within 0.4% of the current target, and the nearer
      end otherwise. */
  lemma {:induction false} OakIs(totalTime: int, totalTarget: nat, current: nat, height: nat, timestamp: uint64)
    requires 0 < current <= ROOT_DEPTH && height != LAUNCH_HEIGHT
    ensures var rate, time := VisibleHashrate(totalTime, totalTarget), TargetBlockTime(height, timestamp);
            ChildTargetOak(totalTime, totalTarget, current, height, timestamp)
            == Within(TargetFor(rate, time), current * 1000 / 1004, AtMost(current * 1004 / 1000, ROOT_DEPTH))
  {
    hide VisibleHashrate, TargetBlockTime, MulDifficulty;
    var rate, time := VisibleHashrate(totalTime, totalTarget), TargetBlockTime(height, timestamp);
    MulInWhole(current, OAK_MAX_RISE, 1004, 1000);
    MulInWhole(current, OAK_MAX_DROP, 1000, 1004);
    assert rate * time > 0;
    FloorOfQuotient(ROOT_DEPTH, rate * time);
    assert ROOT_DEPTH / (rate * time) <= ROOT_DEPTH;
  }

  // ---------------------------------------------------------------- which way it moves

  /** More hashes a second, or a longer time for each block, make a harder target. */
  lemma {:induction false} OakFalls(totalTime: int, totalTarget: nat, totalTime': int, totalTarget': nat, current: nat,
                                    height: nat, timestamp: uint64, timestamp': uint64)
    requires 0 < current <= ROOT_DEPTH
    requires VisibleHashrate(totalTime, totalTarget) >= VisibleHashrate(totalTime', totalTarget')
    requires TargetBlockTime(height, timestamp) >= TargetBlockTime(height, timestamp')
    ensures ChildTargetOak(totalTime, totalTarget, current, height, timestamp)
         <= ChildTargetOak(totalTime', totalTarget', current, height, timestamp')
  {
    hide VisibleHashrate, TargetBlockTime;
    if height != LAUNCH_HEIGHT {
      OakIs(totalTime, totalTarget, current, height, timestamp);
      OakIs(totalTime', totalTarget', current, height, timestamp');
      var rate, time := VisibleHashrate(totalTime, totalTarget), TargetBlockTime(height, timestamp);
      var rate', time' := VisibleHashrate(totalTime', totalTarget'), TargetBlockTime(height, timestamp');
      Scales(rate', rate, time');
      Scales(time', time, rate);
      QuotientFalls(ROOT_DEPTH, rate' * time', rate * time);
    }
  }

  /** The same blocks in more time, or easier blocks in the same time, are fewer hashes a second. */
  lemma {:induction false} HashrateFalls(totalTime: int, totalTarget: nat, totalTime': int, totalTarget': nat)
    requires 0 < totalTarget <= totalTarget' && totalTime <= totalTime'
    ensures VisibleHashrate(totalTime, totalTarget) >= VisibleHashrate(totalTime', totalTarget')
  {
    hide VisibleHashrate;
    HashrateIs(totalTime, totalTarget);
    HashrateIs(totalTime', totalTarget');
    var seconds, seconds' := if totalTime < 1 then 1 else totalTime, if totalTime' < 1 then 1 else totalTime';
    Scales(seconds, seconds', totalTarget);
    Scales(totalTarget, totalTarget', seconds');
    Scales(1, totalTarget, seconds);
    QuotientFalls(ROOT_DEPTH, totalTarget * seconds, totalTarget' * seconds');
  }

  /** So a later parent never makes the next block harder. */
  lemma {:induction false} LateIsEasier(totalTime: int, totalTarget: nat, current: nat, height: nat, timestamp: uint64,
                                        timestamp': uint64)
    requires 0 < current <= ROOT_DEPTH && timestamp <= timestamp'
    requires Square(DueTime(height) - timestamp) < INT64_LIMIT && Square(DueTime(height) - timestamp') < INT64_LIMIT
    ensures ChildTargetOak(totalTime, totalTarget, current, height, timestamp)
         <= ChildTargetOak(totalTime, totalTarget, current, height, timestamp')
  {
    hide VisibleHashrate, TargetBlockTime, ChildTargetOak, WantedTime, Square, WrapHitsCap;
    SmallRoot(DueTime(height) - timestamp);
    SmallRoot(DueTime(height) - timestamp');
    TimeIs(height, timestamp);
    TimeIs(height, timestamp');
    TimeIsAntitone(DueTime(height), timestamp, timestamp');
    OakFalls(totalTime, totalTarget, totalTime, totalTarget, current, height, timestamp, timestamp');
  }

  lemma {:induction false} SmallRoot(x: int)
    requires Square(x) < INT64_LIMIT
    ensures -INT64_LIMIT < x < INT64_LIMIT
  {
    if x >= INT64_LIMIT {
      SquareGrows(INT64_LIMIT, x);
    }
    if x <= -INT64_LIMIT {
      SquareOfOpposite(x);
      SquareGrows(INT64_LIMIT, -x);
    }
  }

  // ---------------------------------------------------------------- the totals

  /** Half a percent less, rounded toward zero. */
  function Decayed(total: int): int {
    if total >= 0 then total * 995 / 1000 else -(-total * 995 / 1000)
  }

  /** The total time decays and gains the time the block took, so that a late
      child raises it second by second, if and only if the sum is a 64-bit
      number; the decay is exact whenever 995 times the total is one. */
  lemma {:induction false} TotalTimeIs(total: int, parentTimestamp: uint64, timestamp: uint64)
    ensures var sum := Quot(Int64(total * 995), 1000) + timestamp - parentTimestamp;
            NewTotalTime(total, parentTimestamp, timestamp) == sum <==> -INT64_LIMIT <= sum < INT64_LIMIT
    ensures -INT64_LIMIT <= total * 995 < INT64_LIMIT ==> Quot(Int64(total * 995), 1000) == Decayed(total)
  {
    hide Int64;
    var kept := Quot(Int64(total * 995), 1000);
    Int64Difference(timestamp, parentTimestamp);
    var k := Int64Of(timestamp - parentTimestamp);
    Int64Same(kept + (timestamp - parentTimestamp), k);
  }

  /** The difficulty behind the total target loses half a percent and gains that of the block. */
  lemma {:induction false} TotalTargetIs(total: nat, target: nat)
    requires 0 < total <= ROOT_DEPTH && 0 < target
    ensures var kept := AtMost(total * 1000 / 995, ROOT_DEPTH);
            kept > 0 && NewTotalTarget(total, target) == kept * target / (kept + target)
  {
    hide MulDifficulty, AddDifficulties;
    MulInWhole(total, OAK_DECAY, 995, 1000);
    MulDifficultyIs(total, OAK_DECAY);
    AddInWhole(MulDifficulty(total, OAK_DECAY), target);
  }

  /** What it takes to replace a tip: a depth below that of the tip with a fifth
      of a block more on top. */
  lemma {:induction false} HeavierIs(depth: nat, tipDepth: nat, tipTarget: nat)
    requires 0 < tipDepth <= ROOT_DEPTH && tipTarget > 0
    ensures var fifth := AtMost(tipTarget * 5, ROOT_DEPTH);
            HeavierThan(depth, tipDepth, tipTarget) <==> depth < tipDepth * fifth / (tipDepth + fifth)
  {
    hide MulDifficulty, AddDifficulties;
    MulInWhole(tipTarget, SURPASS_THRESHOLD, 1, 5);
    MulDifficultyIs(tipTarget, SURPASS_THRESHOLD);
    AddInWhole(tipDepth, MulDifficulty(tipTarget, SURPASS_THRESHOLD));
  }

  // ---------------------------------------------------------------- on every chain

  /** The weight of a child, in whole numbers, from that of its parent. */
  predicate WeighsOn(w: Weight, v: Weight, parentHeight: nat, parentTimestamp: uint64, timestamp: uint64) {
    && w.depth > 0 && w.childTarget > 0 && w.totalTarget > 0
    && v.depth == w.depth * w.childTarget / (w.depth + w.childTarget)
    && var rate, time := VisibleHashrate(w.totalTime, w.totalTarget), TargetBlockTime(parentHeight, parentTimestamp);
    && v.childTarget == (if parentHeight == 7 then LAUNCH_TARGET
                         else Within(TargetFor(rate, time), w.childTarget * 1000 / 1004,
                                     AtMost(w.childTarget * 1004 / 1000, ROOT_DEPTH)))
    && v.totalTime == NewTotalTime(w.totalTime, parentTimestamp, timestamp)
    && var kept := AtMost(w.totalTarget * 1000 / 995, ROOT_DEPTH);
       v.totalTarget == kept * w.childTarget / (kept + w.childTarget)
  }

  lemma {:induction false} ChildWeighs(id: Hash)
    requires id != GenesisID() && WeightAt(id).Some?
    ensures id.BlockID? && id.block.parentID.BlockID? && WeightAt(id.block.parentID).Some?
    ensures WeighsOn(WeightAt(id.block.parentID).value, WeightAt(id).value, Height(id.block.parentID),
                     id.block.parentID.block.timestamp, id.block.timestamp)
  {
    hide AddDifficulties, ChildTargetOak, NewTotalTarget, NewTotalTime, VisibleHashrate, TargetBlockTime, GenesisID,
         WeightOfRoot, Within, AtMost;
    var p := id.block.parentID;
    var w := WeightAt(p).value;
    EveryWeightInRange(p);
    AddInWhole(w.depth, w.childTarget);
    TotalTargetIs(w.totalTarget, w.childTarget);
    if Height(p) == 7 {
      AtLaunch(w, p.block.timestamp);
    } else {
      OakIs(w.totalTime, w.totalTarget, w.childTarget, Height(p), p.block.timestamp);
    }
  }

  lemma AtLaunch(w: Weight, timestamp: uint64)
    requires w.childTarget > 0
    ensures ChildTargetOak(w.totalTime, w.totalTarget, w.childTarget, 7, timestamp) == LAUNCH_TARGET
  {
  }
}
