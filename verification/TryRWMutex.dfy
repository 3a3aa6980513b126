/** TryRWMutex (sync/tryrwmutex.go): any number of goroutines over one packed
    atomic word and one inner read-write mutex, as a state machine.

    A step is one atomic operation on the word or one operation on the inner
    mutex. `pc` says how far a goroutine is in its current call. */
module TryRWMutex {

  const READ: nat := 1
  const WRITE: nat := 0x10_0000             // 1 << 20
  const TRY: nat := 0x100_0000_0000         // 1 << 40

  datatype Pc =
    | Idle
    | LockSpin | LockWait | Writing | UnlockSub            // Lock and Unlock
    | RLockSpin | RLockWait | Reading | RUnlockSub         // RLock and RUnlock
    | TryLockWait | TryLockHeld                            // TryLock after a successful swap
    | TryRLockWait | TryRLockHeld | TryRLockBack           // TryRLock, the last one on its way to failure

  datatype Mutex = Mutex(word: nat, threads: seq<Pc>)

  // ---------------------------------------------------------------- what a goroutine has added to the word

  function Reads(pc: Pc): nat {
    if pc.RLockSpin? || pc.RLockWait? || pc.Reading? || pc.RUnlockSub? || pc.TryRLockWait? || pc.TryRLockHeld?
      || pc.TryRLockBack?
    then 1 else 0
  }

  function Writes(pc: Pc): nat {
    if pc.LockSpin? || pc.LockWait? || pc.Writing? || pc.UnlockSub? || pc.TryLockWait? || pc.TryLockHeld? then 1 else 0
  }

  function Tries(pc: Pc): nat {
    if pc.TryLockWait? || pc.TryLockHeld? || pc.TryRLockWait? || pc.TryRLockHeld? || pc.TryRLockBack? then 1 else 0
  }

  function Active(pc: Pc): nat { if pc.Idle? then 0 else 1 }

  function Sum(threads: seq<Pc>, f: Pc -> nat): nat {
    if threads == [] then 0 else Sum(threads[..|threads| - 1], f) + f(threads[|threads| - 1])
  }

  // ---------------------------------------------------------------- the inner mutex

  predicate HoldsWrite(pc: Pc) { pc.Writing? || pc.TryLockHeld? }
  predicate HoldsRead(pc: Pc) { pc.Reading? || pc.TryRLockHeld? }
  predicate WaitsWrite(pc: Pc) { pc.LockWait? || pc.TryLockWait? }
  predicate WaitsRead(pc: Pc) { pc.RLockWait? || pc.TryRLockWait? }

  /** Nobody but i holds the inner mutex. */
  predicate NoOtherHolder(threads: seq<Pc>, i: nat) {
    forall j :: 0 <= j < |threads| && j != i ==> !HoldsWrite(threads[j]) && !HoldsRead(threads[j])
  }

  predicate NoOtherWriter(threads: seq<Pc>, i: nat) {
    forall j :: 0 <= j < |threads| && j != i ==> !HoldsWrite(threads[j])
  }

  // ---------------------------------------------------------------- steps

  /** What a step does to the pc of a goroutine and to the word. */
  predicate Local(pc: Pc, word: nat, pc': Pc, word': int) {
    match pc
    case Idle =>
      || (word' == word + WRITE && pc' == if word' > TRY then LockSpin else LockWait)  // Lock
      || (word' == word + READ && pc' == if word' > TRY then RLockSpin else RLockWait)  // RLock
      || (word == 0 && word' == WRITE + TRY && pc' == TryLockWait)  // TryLock
      || (word != 0 && word' == word && pc' == Idle)  // TryLock fails
      || (word' == word + READ + TRY && pc' == if word' % TRY > WRITE then TryRLockBack else TryRLockWait)  // TryRLock
    case LockSpin => word' == word && pc' == if word > TRY then LockSpin else LockWait
    case LockWait => word' == word && pc' == Writing
    case Writing => word' == word && pc' == UnlockSub
    case UnlockSub => word' == word - WRITE && pc' == Idle
    case RLockSpin => word' == word && pc' == if word > TRY then RLockSpin else RLockWait
    case RLockWait => word' == word && pc' == Reading
    case Reading => word' == word && pc' == RUnlockSub
    case RUnlockSub => word' == word - READ && pc' == Idle
    case TryLockWait => word' == word && pc' == TryLockHeld
    case TryLockHeld => word' == word - TRY && pc' == Writing
    case TryRLockWait => word' == word && pc' == TryRLockHeld
    case TryRLockHeld => word' == word - TRY && pc' == Reading
    case TryRLockBack => word' == word - READ - TRY && pc' == Idle
  }

  /** A step of goroutine i. The inner mutex lets a writer in when nobody holds
      it, and a reader when no writer does. */
  predicate Step(m: Mutex, i: nat, pc': Pc, word': int) {
    && i < |m.threads|
    && Local(m.threads[i], m.word, pc', word')
    && (WaitsWrite(m.threads[i]) ==> NoOtherHolder(m.threads, i))
    && (WaitsRead(m.threads[i]) ==> NoOtherWriter(m.threads, i))
  }

  /** Some goroutine makes a step, and fewer than 2^20 operations are active after it. */
  ghost predicate Next(m: Mutex, m': Mutex) {
    exists i: nat, pc' :: Step(m, i, pc', m'.word) && m'.threads == m.threads[i := pc']
      && Sum(m'.threads, Active) < WRITE
  }

  ghost predicate Run(trace: seq<Mutex>) {
    && trace != [] && trace[0].word == 0 && (forall j :: 0 <= j < |trace[0].threads| ==> trace[0].threads[j] == Idle)
    && forall k :: 0 <= k < |trace| - 1 ==> Next(trace[k], trace[k + 1])
  }

  // ---------------------------------------------------------------- the invariant

  /** Which pcs two goroutines may have at the same time. */
  predicate Compatible(p: Pc, q: Pc) {
    && (p.TryLockWait? || p.TryLockHeld? ==> q.Idle? || q.LockSpin? || q.RLockSpin? || q.TryRLockBack?)
    && (p.TryRLockWait? || p.TryRLockHeld? ==> Writes(q) == 0 || q.LockSpin?)
    && (HoldsWrite(p) ==> !HoldsWrite(q) && !HoldsRead(q))
  }

  predicate Pairwise(threads: seq<Pc>) {
    forall i, j :: 0 <= i < |threads| && 0 <= j < |threads| && i != j ==> Compatible(threads[i], threads[j])
  }

  /** The word is readers + 2^20 * writers + 2^40 * tries. */
  predicate Tally(m: Mutex) {
    m.word == READ * Sum(m.threads, Reads) + WRITE * Sum(m.threads, Writes) + TRY * Sum(m.threads, Tries)
  }

  predicate Inv(m: Mutex) {
    Tally(m) && Pairwise(m.threads) && Sum(m.threads, Active) < WRITE
  }

  // ---------------------------------------------------------------- counting

  lemma {:induction false} SumUpdate(threads: seq<Pc>, f: Pc -> nat, i: nat, pc: Pc)
    requires i < |threads|
    ensures Sum(threads[i := pc], f) + f(threads[i]) == Sum(threads, f) + f(pc)
  {
    var n := |threads| - 1;
    var updated := threads[i := pc];
    if i == n {
      assert updated[..n] == threads[..n];
    } else {
      SumUpdate(threads[..n], f, i, pc);
      assert updated[..n] == threads[..n][i := pc];
    }
  }

  lemma {:induction false} SumAtLeast(threads: seq<Pc>, f: Pc -> nat, i: nat)
    requires i < |threads|
    ensures f(threads[i]) <= Sum(threads, f)
  {
    if i < |threads| - 1 {
      SumAtLeast(threads[..|threads| - 1], f, i);
    }
  }

  lemma {:induction false} SumsOfActive(threads: seq<Pc>)
    ensures Sum(threads, Reads) + Sum(threads, Writes) == Sum(threads, Active)
    ensures Sum(threads, Tries) <= Sum(threads, Active)
  {
    if threads != [] {
      SumsOfActive(threads[..|threads| - 1]);
    }
  }

  lemma {:induction false} AllIdle(threads: seq<Pc>, f: Pc -> nat)
    requires f(Idle) == 0 && forall j :: 0 <= j < |threads| ==> threads[j] == Idle
    ensures Sum(threads, f) == 0
  {
    if threads != [] {
      AllIdle(threads[..|threads| - 1], f);
    }
  }

  /** The three counters can be read off the word. */
  lemma {:induction false} ReadOff(word: nat, r: nat, w: nat, t: nat)
    requires word == READ * r + WRITE * w + TRY * t && r + w < WRITE
    ensures word % TRY > WRITE <==> w > 0 && (r > 0 || w > 1)
    ensures word > TRY <==> t > 1 || (t == 1 && r + w > 0)
    ensures word == 0 <==> r == 0 && w == 0 && t == 0
  {
    var low := READ * r + WRITE * w;
    assert low < TRY;
    assert word == low + TRY * t;
    assert word % TRY == low;
  }

  // ---------------------------------------------------------------- every step keeps it

  /** A step adds to the word what it adds to the counters. */
  lemma {:induction false} LocalTally(pc: Pc, word: nat, pc': Pc, word': int)
    requires Local(pc, word, pc', word')
    ensures word' - word == READ * (Reads(pc') - Reads(pc)) + WRITE * (Writes(pc') - Writes(pc))
            + TRY * (Tries(pc') - Tries(pc))
  {
  }

  lemma {:induction false} TallyKept(m: Mutex, m': Mutex, i: nat, pc': Pc)
    requires Tally(m) && Step(m, i, pc', m'.word) && m'.threads == m.threads[i := pc']
    ensures Tally(m')
  {
    hide Local;
    SumUpdate(m.threads, Reads, i, pc');
    SumUpdate(m.threads, Writes, i, pc');
    SumUpdate(m.threads, Tries, i, pc');
    LocalTally(m.threads[i], m.word, pc', m'.word);
  }

  /** What the word says about goroutine j, if it is the tally of the threads. */
  lemma {:induction false} WordSays(m: Mutex, i: nat, j: nat)
    requires Tally(m) && Sum(m.threads, Active) < WRITE && i < |m.threads| && j < |m.threads| && i != j
    ensures m.word == 0 ==> m.threads[j].Idle?
    ensures m.word <= TRY && !m.threads[i].Idle? ==> Tries(m.threads[j]) == 0
    ensures m.word % TRY <= WRITE && Reads(m.threads[i]) == 1 ==> Writes(m.threads[j]) == 0
  {
    SumAtLeast(m.threads, Active, i);
    SumAtLeast(m.threads, Active, j);
    SumAtLeast(m.threads, Reads, i);
    SumAtLeast(m.threads, Writes, j);
    SumAtLeast(m.threads, Tries, j);
    SumsOfActive(m.threads);
    ReadOff(m.word, Sum(m.threads, Reads), Sum(m.threads, Writes), Sum(m.threads, Tries));
  }

  /** When a new pc of one goroutine goes with the pc of another. */
  lemma {:induction false} PcFits(p: Pc, word: nat, p': Pc, word': int, q: Pc)
    requires Local(p, word, p', word') && Compatible(p, q) && Compatible(q, p)
    requires word == 0 ==> q.Idle?
    requires word' <= TRY && !p'.Idle? ==> Tries(q) == 0
    requires word' % TRY <= WRITE && Reads(p') == 1 ==> Writes(q) == 0
    requires WaitsWrite(p) ==> !HoldsWrite(q) && !HoldsRead(q)
    requires WaitsRead(p) ==> !HoldsWrite(q)
    ensures Compatible(p', q) && Compatible(q, p')
  {
  }

  lemma {:induction false} NewPcFits(m: Mutex, m': Mutex, i: nat, pc': Pc, j: nat)
    requires Inv(m) && Tally(m') && Step(m, i, pc', m'.word) && m'.threads == m.threads[i := pc']
    requires Sum(m'.threads, Active) < WRITE
    requires j < |m.threads| && j != i
    ensures Compatible(pc', m.threads[j]) && Compatible(m.threads[j], pc')
  {
    hide Local, Tally, Sum;
    WordSays(m, i, j);
    WordSays(m', i, j);
    assert Compatible(m.threads[i], m.threads[j]) && Compatible(m.threads[j], m.threads[i]);
    PcFits(m.threads[i], m.word, pc', m'.word, m.threads[j]);
  }

  lemma {:induction false} NextKeeps(m: Mutex, m': Mutex)
    requires Inv(m) && Next(m, m')
    ensures Inv(m')
  {
    var i: nat, pc' :| Step(m, i, pc', m'.word) && m'.threads == m.threads[i := pc'] && Sum(m'.threads, Active) < WRITE;
    TallyKept(m, m', i, pc');
    forall j, k | 0 <= j < |m'.threads| && 0 <= k < |m'.threads| && j != k
      ensures Compatible(m'.threads[j], m'.threads[k])
    {
      if j == i {
        NewPcFits(m, m', i, pc', k);
      } else if k == i {
        NewPcFits(m, m', i, pc', j);
      }
    }
  }

  /** In every interleaving with fewer than 2^20 active operations the word is
      the tally of what is going on. A goroutine past the swap of TryLock finds
      nobody holding or waiting for the inner mutex, and one past the check of
      TryRLock finds no writer there, so neither of them waits. */
  lemma {:induction false} TryNeverWaits(trace: seq<Mutex>, k: nat, i: nat)
    requires Run(trace) && k < |trace| && i < |trace[k].threads|
    ensures Inv(trace[k])
    ensures trace[k].threads[i].TryLockWait? ==>
              forall j :: 0 <= j < |trace[k].threads| && j != i ==>
                var q := trace[k].threads[j]; !HoldsWrite(q) && !HoldsRead(q) && !WaitsWrite(q) && !WaitsRead(q)
    ensures trace[k].threads[i].TryRLockWait? ==>
              forall j :: 0 <= j < |trace[k].threads| && j != i ==>
                var q := trace[k].threads[j]; !HoldsWrite(q) && !WaitsWrite(q)
  {
    EveryState(trace, k);
    forall j | 0 <= j < |trace[k].threads| && j != i
      ensures Compatible(trace[k].threads[i], trace[k].threads[j])
    {
    }
  }

  lemma {:induction false} EveryState(trace: seq<Mutex>, k: nat)
    requires Run(trace) && k < |trace|
    ensures Inv(trace[k])
  {
    if k == 0 {
      AllIdle(trace[0].threads, Reads);
      AllIdle(trace[0].threads, Writes);
      AllIdle(trace[0].threads, Tries);
      AllIdle(trace[0].threads, Active);
    } else {
      EveryState(trace, k - 1);
      assert Next(trace[k - 1], trace[k]);
      NextKeeps(trace[k - 1], trace[k]);
    }
  }

  /** TryRLock backs off exactly when a writer is registered, TryLock when anyone is. */
  lemma {:induction false} TryOutcomes(m: Mutex, i: nat)
    requires Inv(m) && i < |m.threads| && m.threads[i].Idle? && Sum(m.threads, Active) + 1 < WRITE
    ensures (m.word + READ + TRY) % TRY > WRITE <==> Sum(m.threads, Writes) > 0
    ensures m.word == 0 <==> Sum(m.threads, Active) == 0
  {
    SumsOfActive(m.threads);
    var r, w, t := Sum(m.threads, Reads), Sum(m.threads, Writes), Sum(m.threads, Tries);
    ReadOff(m.word + READ + TRY, r + 1, w, t + 1);
    ReadOff(m.word, r, w, t);
  }

  /** The word never overflows its 64 bits. */
  lemma {:induction false} WordFits(m: Mutex)
    requires Inv(m)
    ensures m.word < 0x1000_0000_0000_0000 + TRY
  {
    SumsOfActive(m.threads);
  }

  /** A writer excludes everybody else, a reader every writer. */
  lemma {:induction false} MutualExclusion(trace: seq<Mutex>, k: nat, i: nat, j: nat)
    requires Run(trace) && k < |trace| && i < |trace[k].threads| && j < |trace[k].threads| && i != j
    requires HoldsWrite(trace[k].threads[i])
    ensures !HoldsWrite(trace[k].threads[j]) && !HoldsRead(trace[k].threads[j])
  {
    EveryState(trace, k);
    assert Compatible(trace[k].threads[i], trace[k].threads[j]);
  }

  // ---------------------------------------------------------------- nobody is stuck

  /** How many steps a goroutine has left in its call. */
  function Rank(pc: Pc): nat {
    match pc
    case Idle => 0
    case UnlockSub => 1 case RUnlockSub => 1 case TryRLockBack => 1
    case Writing => 2 case Reading => 2
    case TryLockHeld => 3 case TryRLockHeld => 3
    case LockWait => 4 case RLockWait => 4 case TryLockWait => 4 case TryRLockWait => 4
    case LockSpin => 5 case RLockSpin => 5
  }

  /** What the next step of a goroutine within a call does. */
  function Moved(pc: Pc, word: nat): (Pc, int)
    requires !pc.Idle?
  {
    match pc
    case LockSpin => (if word > TRY then LockSpin else LockWait, word)
    case LockWait => (Writing, word)
    case Writing => (UnlockSub, word)
    case UnlockSub => (Idle, word - WRITE)
    case RLockSpin => (if word > TRY then RLockSpin else RLockWait, word)
    case RLockWait => (Reading, word)
    case Reading => (RUnlockSub, word)
    case RUnlockSub => (Idle, word - READ)
    case TryLockWait => (TryLockHeld, word)
    case TryLockHeld => (Writing, word - TRY)
    case TryRLockWait => (TryRLockHeld, word)
    case TryRLockHeld => (Reading, word - TRY)
    case TryRLockBack => (Idle, word - READ - TRY)
  }

  /** Goroutine i can go on with its call. Unlike a step of it, this keeps a
      reader out also while a writer waits, as the inner mutex may. */
  predicate Ready(m: Mutex, i: nat) {
    && i < |m.threads| && !m.threads[i].Idle?
    && (WaitsWrite(m.threads[i]) ==> NoOtherHolder(m.threads, i))
    && (WaitsRead(m.threads[i]) ==>
          forall j :: 0 <= j < |m.threads| && j != i ==> !HoldsWrite(m.threads[j]) && !WaitsWrite(m.threads[j]))
    && (m.threads[i].LockSpin? || m.threads[i].RLockSpin? ==> m.word <= TRY)
  }

  /** Some goroutine goes on with its call. */
  ghost predicate GoesOn(m: Mutex, m': Mutex) {
    exists i: nat :: Ready(m, i) && var (pc', word') := Moved(m.threads[i], m.word);
      m'.word == word' && m'.threads == m.threads[i := pc']
  }

  /** In every reachable state with a call under way, some call can go on: who
      holds the inner mutex or a counter only, else who waits for it, else who spins. */
  lemma {:induction false} SomeoneIsReady(m: Mutex, k: nat) returns (i: nat)
    requires Inv(m) && k < |m.threads| && !m.threads[k].Idle?
    ensures Ready(m, i)
  {
    if j: nat :| j < |m.threads| && 0 < Rank(m.threads[j]) < 4 {
      i := j;
    } else if j: nat :| j < |m.threads| && WaitsWrite(m.threads[j]) {
      i := j;
    } else if j: nat :| j < |m.threads| && WaitsRead(m.threads[j]) {
      i := j;
    } else {
      i := k;
      NoTries(m.threads);
      SumsOfActive(m.threads);
      ReadOff(m.word, Sum(m.threads, Reads), Sum(m.threads, Writes), 0);
    }
  }

  lemma {:induction false} NoTries(threads: seq<Pc>)
    requires forall j :: 0 <= j < |threads| ==> threads[j].Idle? || Rank(threads[j]) == 5
    ensures Sum(threads, Tries) == 0
  {
    if threads != [] {
      NoTries(threads[..|threads| - 1]);
    }
  }

  lemma {:induction false} GoOn(m: Mutex, i: nat) returns (m': Mutex)
    requires Inv(m) && Ready(m, i)
    ensures GoesOn(m, m') && Next(m, m') && Inv(m') && Sum(m'.threads, Rank) < Sum(m.threads, Rank)
  {
    hide Local, Moved, Pairwise, Tally;
    var pc := m.threads[i];
    var (pc', word') := Moved(pc, m.word);
    MovedIsLocal(pc, m.word);
    SumUpdate(m.threads, Active, i, pc');
    SumUpdate(m.threads, Rank, i, pc');
    WordStays(m, i, pc', word');
    m' := Mutex(word', m.threads[i := pc']);
    assert Step(m, i, pc', m'.word);
    NextKeeps(m, m');
  }

  lemma {:induction false} MovedIsLocal(pc: Pc, word: nat)
    requires !pc.Idle? && (pc.LockSpin? || pc.RLockSpin? ==> word <= TRY)
    ensures var (pc', word') := Moved(pc, word); Local(pc, word, pc', word') && Rank(pc') < Rank(pc)
  {
  }

  lemma {:induction false} WordStays(m: Mutex, i: nat, pc': Pc, word': int)
    requires Inv(m) && i < |m.threads| && Local(m.threads[i], m.word, pc', word')
    ensures word' >= 0
  {
    hide Local;
    SumUpdate(m.threads, Reads, i, pc');
    SumUpdate(m.threads, Writes, i, pc');
    SumUpdate(m.threads, Tries, i, pc');
    LocalTally(m.threads[i], m.word, pc', word');
  }

  /** Nobody is stuck: from every reachable state the calls under way can go on,
      without new ones and in at most five steps each, until all have returned
      and the word is zero again. */
  lemma {:induction false} Drains(m: Mutex) returns (trace: seq<Mutex>)
    requires Inv(m)
    ensures trace != [] && trace[0] == m
    ensures forall k :: 0 <= k < |trace| - 1 ==> GoesOn(trace[k], trace[k + 1]) && Next(trace[k], trace[k + 1])
    ensures var end := trace[|trace| - 1]; end.word == 0 && forall j :: 0 <= j < |end.threads| ==> end.threads[j].Idle?
    ensures |trace| <= 1 + Sum(m.threads, Rank) <= 1 + 5 * Sum(m.threads, Active)
    decreases Sum(m.threads, Rank)
  {
    hide Inv, Next, GoesOn, Ready;
    RanksBelow(m.threads);
    if k: nat :| k < |m.threads| && !m.threads[k].Idle? {
      var i := SomeoneIsReady(m, k);
      var m' := GoOn(m, i);
      var rest := Drains(m');
      trace := [m] + rest;
    } else {
      trace := [m];
      Quiet(m);
    }
  }

  lemma {:induction false} Quiet(m: Mutex)
    requires Inv(m) && forall j :: 0 <= j < |m.threads| ==> m.threads[j].Idle?
    ensures m.word == 0
  {
    AllIdle(m.threads, Reads);
    AllIdle(m.threads, Writes);
    AllIdle(m.threads, Tries);
  }

  lemma {:induction false} RanksBelow(threads: seq<Pc>)
    ensures Sum(threads, Rank) <= 5 * Sum(threads, Active)
  {
    if threads != [] {
      RanksBelow(threads[..|threads| - 1]);
    }
  }
}
