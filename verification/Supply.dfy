/** The coin supply: coinbase schedule, its closed form, and the payouts a
    block must make (types/block.go, modules/consensus/block_validation.go).
    Constants are those of the standard network. */
module Supply {
  import opened Types

  const SIACOIN_PRECISION: nat := 1_000_000_000_000_000_000_000_000
  const FIRST_COINBASE: nat := 2_400_000_000
  const SECOND_COINBASE: nat := 600_000_000
  const INITIAL_COINBASE: nat := 60_000
  const MINIMUM_COINBASE: nat := 6_000
  const DEV_FUND_DENOM: nat := 10

  const AIRDROP_VALUE: nat := 35_373_763_032 * SIACOIN_PRECISION / 10
  const SINGLE_DEVELOPER_AIRDROP_VALUE: nat := 54_000_000 * SIACOIN_PRECISION
  const NUM_DEVELOPERS: nat := 10
  const SINGLE_CONTRIBUTOR_AIRDROP_VALUE: nat := 10_000_000 * SIACOIN_PRECISION
  const NUM_CONTRIBUTORS: nat := 6
  const SINGLE_POOL_AIRDROP_VALUE: nat := 2 * INITIAL_COINBASE * SIACOIN_PRECISION
  const NUM_POOLS: nat := 7

  /** CalculateCoinbase. The product (height-3)*2 is a uint64 product. */
  function CalculateCoinbase(height: nat): nat {
    if height == 0 then 0
    else if height == 1 then FIRST_COINBASE * SIACOIN_PRECISION
    else if height == 2 then SECOND_COINBASE * SIACOIN_PRECISION
    else
      var base := INITIAL_COINBASE * SIACOIN_PRECISION;
      var deducted := ((height - 3) * 2 % WORD) * SIACOIN_PRECISION / 10;
      var minimum := MINIMUM_COINBASE * SIACOIN_PRECISION;
      if base <= deducted then minimum
      else if base - deducted <= minimum then minimum
      else base - deducted
  }

  function GenesisAllocationValue(): nat {
    AIRDROP_VALUE + SINGLE_DEVELOPER_AIRDROP_VALUE * NUM_DEVELOPERS
    + SINGLE_CONTRIBUTOR_AIRDROP_VALUE * NUM_CONTRIBUTORS + SINGLE_POOL_AIRDROP_VALUE * NUM_POOLS
  }

  /** CalculateNumSiacoins, the closed form. */
  function CalculateNumSiacoins(height: nat): int {
    var initial := GenesisAllocationValue();
    if height == 0 then initial
    else if height == 1 then initial + FIRST_COINBASE * SIACOIN_PRECISION
    else if height == 2 then initial + (FIRST_COINBASE + SECOND_COINBASE) * SIACOIN_PRECISION
    else
      var founderSiacoins := (FIRST_COINBASE + SECOND_COINBASE) * SIACOIN_PRECISION;
      var deflationBlocks := (INITIAL_COINBASE - MINIMUM_COINBASE) * 5;
      var avgDeflationSiacoins := (CalculateCoinbase(3) + CalculateCoinbase(height)) / 2;
      if height - 3 <= deflationBlocks then
        initial + founderSiacoins + avgDeflationSiacoins * (height - 3 + 1)
      else
        initial + founderSiacoins + avgDeflationSiacoins * (deflationBlocks + 1)
        + (height - 3 - deflationBlocks) * CalculateCoinbase(height)
  }

  /** f(1) + ... + f(n). */
  function SumTo(f: nat -> nat, n: nat): nat {
    if n == 0 then 0 else SumTo(f, n - 1) + f(n)
  }

  /** What the chain has really issued: the genesis allocation and one coinbase per block. */
  function Issued(height: nat): nat {
    GenesisAllocationValue() + SumTo(CalculateCoinbase, height)
  }

  // ---------------------------------------------------------------- the closed form is right below the wrap

  /** First height at which (height-3)*2 no longer fits in a uint64. */
  const WRAP_HEIGHT: nat := 0x8000_0000_0000_0000 + 3

  const TENTH: nat := SIACOIN_PRECISION / 10
  const DEFLATION: nat := 270_000

  /** The coinbase after n steps of deflation, in tenths of a coin. */
  function Step(n: nat): nat {
    if n <= DEFLATION then 600_000 - 2 * n else 60_000
  }

  /** The sum of the first n + 1 steps, in tenths of a coin. */
  function Steps(n: nat): int {
    if n <= DEFLATION then (600_000 - n) * (n + 1)
    else 330_000 * (DEFLATION + 1) + (n - DEFLATION) * 60_000
  }

  lemma StepsAdd(n: nat)
    ensures Steps(0) == Step(0)
    ensures n > 0 ==> Steps(n) == Steps(n - 1) + Step(n)
  {
    if 0 < n <= DEFLATION {
      calc {
        (600_000 - n) * (n + 1) - (600_000 - (n - 1)) * n;
        600_000 * n + 600_000 - n * n - n - (600_000 * n - n * n + n);
        600_000 - 2 * n;
      }
    }
  }

  lemma StepsAddUp(n: nat)
    ensures Steps(0) == Step(0)
    ensures forall k: nat :: 0 < k <= n ==> Steps(k) == Steps(k - 1) + Step(k)
  {
    forall k: nat | 0 < k <= n
      ensures Steps(k) == Steps(k - 1) + Step(k)
    {
      StepsAdd(k);
    }
  }

  /** The uint64 product of CalculateCoinbase. */
  lemma DoubledHeight(height: nat)
    requires 3 <= height < WORD
    ensures (height - 3) * 2 % WORD == 2 * if height < WRAP_HEIGHT then height - 3 else height - WRAP_HEIGHT
  {
    if height >= WRAP_HEIGHT {
      assert (height - 3) * 2 == (height - WRAP_HEIGHT) * 2 + WORD;
    }
  }

  lemma CoinbaseInSteps(height: nat)
    requires 3 <= height < WORD
    ensures CalculateCoinbase(height) == Step(if height < WRAP_HEIGHT then height - 3 else height - WRAP_HEIGHT) * TENTH
  {
    DoubledHeight(height);
    var x := (height - 3) * 2 % WORD;
    assert x * SIACOIN_PRECISION / 10 == x * TENTH;
  }

  function Founders(): nat {
    GenesisAllocationValue() + (FIRST_COINBASE + SECOND_COINBASE) * SIACOIN_PRECISION
  }

  lemma IssuedAtStart(height: nat)
    requires height <= 2
    ensures Issued(height) == CalculateNumSiacoins(height)
    ensures height == 2 ==> Issued(height) == Founders()
  {
    assert SumTo(CalculateCoinbase, 0) == 0;
    if height > 0 {
      IssuedAtStart(height - 1);
    }
  }

  lemma AddMul(a: int, b: int, u: int)
    ensures (a + b) * u == a * u + b * u
  {
  }

  /** A schedule in units of u that starts after base adds up as its partial sums say. */
  lemma {:induction false} SumOfSteps(f: nat -> nat, step: nat -> nat, sums: nat -> int, u: nat, base: nat, n: nat)
    requires sums(0) == step(0)
    requires forall k :: 0 < k <= n ==> sums(k) == sums(k - 1) + step(k)
    requires forall k :: base < k <= base + 1 + n ==> f(k) == step(k - base - 1) * u
    ensures SumTo(f, base + 1 + n) == SumTo(f, base) + sums(n) * u
  {
    assert f(base + 1 + n) == step(n) * u;
    if n > 0 {
      SumOfSteps(f, step, sums, u, base, n - 1);
      AddMul(sums(n - 1), step(n), u);
    }
  }

  lemma IssuedInSteps(height: nat)
    requires 3 <= height < WRAP_HEIGHT
    ensures Issued(height) == Founders() + Steps(height - 3) * TENTH
  {
    forall k | 2 < k <= height
      ensures CalculateCoinbase(k) == Step(k - 3) * TENTH
    {
      CoinbaseInSteps(k);
    }
    StepsAddUp(height - 3);
    SumOfSteps(CalculateCoinbase, Step, Steps, TENTH, 2, height - 3);
    IssuedAtStart(2);
  }

  lemma IssuedAfterWrap(last: nat, height: nat)
    requires last + 1 == WRAP_HEIGHT && WRAP_HEIGHT <= height < WORD
    ensures Issued(height) == Issued(last) + Steps(height - WRAP_HEIGHT) * TENTH
  {
    forall k | last < k <= height
      ensures CalculateCoinbase(k) == Step(k - last - 1) * TENTH
    {
      CoinbaseInSteps(k);
    }
    StepsAddUp(height - WRAP_HEIGHT);
    SumOfSteps(CalculateCoinbase, Step, Steps, TENTH, last, height - WRAP_HEIGHT);
  }

  /** The average step of the closed form, exactly halved. */
  lemma AverageInSteps(height: nat, c: nat)
    requires height >= 3 && CalculateCoinbase(height) == c * TENTH && c % 2 == 0
    ensures (CalculateCoinbase(3) + CalculateCoinbase(height)) / 2 == (600_000 + c) / 2 * TENTH
  {
    CoinbaseInSteps(3);
    assert 600_000 * TENTH + c * TENTH == 2 * ((600_000 + c) / 2 * TENTH);
  }

  lemma NumSiacoinsInSteps(height: nat, c: nat)
    requires height >= 3 && CalculateCoinbase(height) == c * TENTH && c % 2 == 0
    ensures CalculateNumSiacoins(height) == Founders() +
              if height - 3 <= DEFLATION then (600_000 + c) / 2 * (height - 3 + 1) * TENTH
              else ((600_000 + c) / 2 * (DEFLATION + 1) + (height - 3 - DEFLATION) * c) * TENTH
  {
    AverageInSteps(height, c);
    var avg := (600_000 + c) / 2;
    if height - 3 <= DEFLATION {
      assert avg * TENTH * (height - 3 + 1) == avg * (height - 3 + 1) * TENTH;
    } else {
      assert avg * TENTH * (DEFLATION + 1) == avg * (DEFLATION + 1) * TENTH;
      assert (height - 3 - DEFLATION) * (c * TENTH) == (height - 3 - DEFLATION) * c * TENTH;
    }
  }

  lemma HalfStep(n: nat)
    ensures Step(n) % 2 == 0
    ensures n <= DEFLATION ==> (600_000 + Step(n)) / 2 == 600_000 - n
    ensures n > DEFLATION ==> (600_000 + Step(n)) / 2 == 330_000
  {
  }

  lemma ClosedFormBelowWrap(height: nat)
    requires height < WRAP_HEIGHT
    ensures CalculateNumSiacoins(height) == Issued(height)
  {
    if height < 3 {
      IssuedAtStart(height);
    } else {
      CoinbaseInSteps(height);
      IssuedInSteps(height);
      HalfStep(height - 3);
      NumSiacoinsInSteps(height, Step(height - 3));
    }
  }

  lemma ProductAtLeast(a: nat, c: nat, low: nat)
    requires low <= c
    ensures a * low <= a * c
  {
  }

  /** In tenths of a coin: what the closed form claims w steps after the wrap,
      with m whole steps before it, and what has been issued by then. */
  lemma ClaimDiffersAfterWrap(m: nat, w: nat)
    requires m >= 0x7FFF_FFFF_FFFF_FFFF
    ensures (600_000 + Step(w)) / 2 * (DEFLATION + 1) + (m + 1 + w - DEFLATION) * Step(w) != Steps(m) + Steps(w)
  {
    HalfStep(w);
    if w < DEFLATION {
      ProductAtLeast(m + 1 + w - DEFLATION, Step(w), 60_002);
      ProductAtLeast(w + 1, 600_000, 600_000 - w);
    }
  }

  lemma DistinctMultiples(a: int, b: int, u: int)
    requires a != b && u > 0
    ensures a * u != b * u
  {
  }

  /** Both sides after the wrap, as multiples of a tenth of a coin. */
  lemma BothSidesAfterWrap(height: nat) returns (closed: int, issued: int)
    requires WRAP_HEIGHT <= height < WORD
    ensures CalculateNumSiacoins(height) == Founders() + closed * TENTH
    ensures Issued(height) == Founders() + issued * TENTH
    ensures closed != issued
  {
    hide CalculateCoinbase, CalculateNumSiacoins, Issued, Founders, Step, Steps;
    var w := height - WRAP_HEIGHT;
    var c := Step(w);
    var last: nat := height - w - 1;
    CoinbaseInSteps(height);
    HalfStep(w);
    IssuedAfterWrap(last, height);
    IssuedInSteps(last);
    NumSiacoinsInSteps(height, c);
    closed := (600_000 + c) / 2 * (DEFLATION + 1) + (height - 3 - DEFLATION) * c;
    issued := Steps(last - 3) + Steps(w);
    AddMul(Steps(last - 3), Steps(w), TENTH);
    assert last - 3 + 1 + w == height - 3;
    ClaimDiffersAfterWrap(last - 3, w);
  }

  lemma ClosedFormFailsAfterWrap(height: nat)
    requires WRAP_HEIGHT <= height < WORD
    ensures CalculateNumSiacoins(height) != Issued(height)
  {
    var closed, issued := BothSidesAfterWrap(height);
    DistinctMultiples(closed, issued, TENTH);
  }

  /** CalculateNumSiacoins counts the issued coins at exactly the heights below the uint64 wrap. */
  lemma ClosedFormIffBelowWrap(height: nat)
    requires height < WORD
    ensures CalculateNumSiacoins(height) == Issued(height) <==> height < WRAP_HEIGHT
  {
    if height < WRAP_HEIGHT {
      ClosedFormBelowWrap(height);
    } else {
      ClosedFormFailsAfterWrap(height);
    }
  }

  // ---------------------------------------------------------------- miner payouts

  function FeesOf<H>(ts: seq<Transaction<H>>): nat {
    if ts == [] then 0 else FeesOf(ts[..|ts| - 1]) + CurrencySum(ts[|ts| - 1].minerFees)
  }

  /** CalculateMinerFees. */
  method CalculateMinerFees<H>(b: Block<H>) returns (fees: nat)
    ensures fees == FeesOf(b.transactions)
  {
    fees := 0;
    for i := 0 to |b.transactions|
      invariant fees == FeesOf(b.transactions[..i])
    {
      var txnFees := b.transactions[i].minerFees;
      ghost var before := fees;
      for j := 0 to |txnFees|
        invariant fees == before + CurrencySum(txnFees[..j])
      {
        assert txnFees[..j + 1][..j] == txnFees[..j];
        fees := fees + txnFees[j];
      }
      assert txnFees[..|txnFees|] == txnFees;
      assert b.transactions[..i + 1][..i] == b.transactions[..i];
    }
    assert b.transactions[..|b.transactions|] == b.transactions;
  }

  /** What a block at a height must pay out: coinbase and fees, except that
      blocks 1 and 2 leave the fees out and genesis pays nothing. */
  function Due<H>(b: Block<H>, height: nat): nat {
    if height < 3 then CalculateCoinbase(height) else CalculateCoinbase(height) + FeesOf(b.transactions)
  }

  /** Fees that a block at a height takes out of circulation. */
  function Burned<H>(b: Block<H>, height: nat): nat {
    if height < 3 then FeesOf(b.transactions) else 0
  }

  /** The rule checkMinerPayouts enforces. */
  ghost predicate PayoutsOk<H>(b: Block<H>, height: nat, devFund: H) {
    var ps := b.minerPayouts;
    if height == 1 || height == 2 then
      |ps| == 1 && ps[0].value == CalculateCoinbase(height)
    else
      && |ps| >= 2
      && (forall i :: 0 <= i < |ps| - 1 ==> ps[i].value > 0)
      && ps[|ps| - 1].unlockHash == devFund
      && ps[|ps| - 1].value == CalculateCoinbase(height) / DEV_FUND_DENOM
      && ValueSum(ps) == Due(b, height)
  }

  /** CalculateSubsidies. */
  method CalculateSubsidies<H>(b: Block<H>, height: nat) returns (minerSubsidy: nat, devSubsidy: nat)
    ensures minerSubsidy + devSubsidy == Due(b, height)
    ensures devSubsidy == if height < 3 then 0 else CalculateCoinbase(height) / DEV_FUND_DENOM
  {
    if height == 0 {
      return 0, 0;
    }
    if height == 1 {
      return FIRST_COINBASE * SIACOIN_PRECISION, 0;
    }
    if height == 2 {
      return SECOND_COINBASE * SIACOIN_PRECISION, 0;
    }
    var coinbase := CalculateCoinbase(height);
    devSubsidy := coinbase / DEV_FUND_DENOM;
    minerSubsidy := coinbase - devSubsidy;
    var fees := CalculateMinerFees(b);
    minerSubsidy := minerSubsidy + fees;
  }

  /** checkMinerPayouts. */
  method CheckMinerPayouts<H(==)>(b: Block<H>, height: nat, devFund: H) returns (ok: bool)
    ensures ok <==> PayoutsOk(b, height, devFund)
  {
    var ps := b.minerPayouts;
    if height == 1 {
      if |ps| != 1 {
        return false;
      }
      return ps[0].value == FIRST_COINBASE * SIACOIN_PRECISION;
    }
    if height == 2 {
      if |ps| != 1 {
        return false;
      }
      return ps[0].value == SECOND_COINBASE * SIACOIN_PRECISION;
    }
    if |ps| < 2 {
      return false;
    }
    var minerPayoutSum := 0;
    for i := 0 to |ps| - 1
      invariant minerPayoutSum == ValueSum(ps[..i])
      invariant forall j :: 0 <= j < i ==> ps[j].value > 0
    {
      if ps[i].value == 0 {
        return false;
      }
      assert ps[..i + 1][..i] == ps[..i];
      minerPayoutSum := minerPayoutSum + ps[i].value;
    }
    var devSubsidyPayout := ps[|ps| - 1];
    var minerBlockSubsidy, devBlockSubsidy := CalculateSubsidies(b, height);
    assert CalculateCoinbase(0) == 0;
    if devSubsidyPayout.value != devBlockSubsidy {
      return false;
    }
    if devSubsidyPayout.unlockHash != devFund {
      return false;
    }
    return minerBlockSubsidy == minerPayoutSum;
  }

  /** Accepted payouts hand out what the block is due, and at least its coinbase. */
  lemma PayoutsHandOutWhatIsDue<H>(b: Block<H>, height: nat, devFund: H)
    requires PayoutsOk(b, height, devFund)
    ensures ValueSum(b.minerPayouts) == Due(b, height)
    ensures ValueSum(b.minerPayouts) + Burned(b, height) == CalculateCoinbase(height) + FeesOf(b.transactions)
    ensures ValueSum(b.minerPayouts) >= CalculateCoinbase(height)
  {
    var ps := b.minerPayouts;
    if height == 1 || height == 2 {
      assert ps[..0] == [];
      assert ValueSum(ps) == ValueSum(ps[..0]) + ps[0].value;
    }
  }
}
