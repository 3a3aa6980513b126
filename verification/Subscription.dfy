/** ConsensusSetSubscribe against managedAcceptBlocks (modules/consensus/subscribe.go,
    modules/consensus/accept.go), as a state machine.

    Each step is one section of the source that runs under the lock of the
    consensus set: looking up the start id, one batch of changes, the final
    comparison with registration, and the acceptance of blocks with delivery to
    the registered subscribers. Any of them may be interleaved. */
module Subscription {
  import opened Types
  import opened Hashing
  import opened ChangeLog

  /** ConsensusChangeRecent. */
  const RECENT := Opaque(1)

  datatype Phase =
    | Starting(start: Hash)             // about to look up the start id
    | Sending(entry: ChangeEntry)       // before a batch that begins with this entry
    | Checking(start: Hash)             // about to compare with the tail and register
    | Registered
    | Refused                           // the start id is not in the log
    | Stopped                           // cancelled

  /** `origin` is the id the subscriber asked for. `first` is the position of the
      first change it is owed, once that is known. */
  datatype System = System(log: seq<ChangeEntry>, phase: Phase, received: seq<ChangeEntry>, origin: Hash,
    first: Option<nat>)

  predicate Init(s: System) {
    s.log != [] && s.phase == Starting(s.origin) && s.received == [] && s.first == None && NoRepeats(s.log)
  }

  // ---------------------------------------------------------------- steps

  /** managedAcceptBlocks: the log grows, and registered subscribers get the changes. */
  predicate Accept(s: System, s': System, changes: seq<ChangeEntry>) {
    && NoRepeats(s.log + changes)
    && s' == s.(log := s.log + changes, received := if s.phase.Registered? then s.received + changes else s.received)
  }

  predicate KnowsAlready(s: System, k: nat, s': System) {
    s'.first == if s.first == None then Some(k) else s.first
  }

  /** The look-up at the beginning of managedInitializeSubscribe. */
  predicate LookUp(s: System, s': System, k: nat) {
    && s.phase.Starting? && s.log != []
    && s'.log == s.log && s'.received == s.received && s'.origin == s.origin
    && var start := s.phase.start;
       if start == RECENT then
         KnowsAlready(s, |s.log|, s') && s'.phase == Checking(s.log[|s.log| - 1].ID())
       else if k <= |s.log| && StartsAt(s.log, start, k) then
         && KnowsAlready(s, k, s')
         && s'.phase == if k < |s.log| then Sending(s.log[k]) else Checking(start)
       else
         s'.first == s.first && s'.phase == Refused && !exists j :: 0 <= j <= |s.log| && StartsAt(s.log, start, j)
  }

  /** One batch, from the position of the next entry. */
  predicate Batch(s: System, s': System, at: nat) {
    && s.phase.Sending? && at < |s.log| && s.phase.entry == s.log[at]
    && s'.log == s.log && s'.origin == s.origin && s'.first == s.first
    && var next := at + BatchLength(s.log, at);
    && s'.received == s.received + s.log[at..next]
    && s'.phase == if next < |s.log| then Sending(s.log[next]) else Checking(s.log[next - 1].ID())
  }

  /** A batch cut short by the cancel channel, possibly before its first change. */
  predicate Cancel(s: System, s': System, at: nat, n: nat) {
    && s.phase.Sending? && at < |s.log| && s.phase.entry == s.log[at] && n < BatchLength(s.log, at)
    && s' == s.(phase := Stopped, received := s.received + s.log[at..at + n])
  }

  /** The comparison with the tail; registration happens under the same lock. */
  predicate Check(s: System, s': System) {
    && s.phase.Checking? && s.log != []
    && s' == s.(phase := if s.phase.start == s.log[|s.log| - 1].ID() then Registered else Starting(s.phase.start))
  }

  predicate Stop(s: System, s': System) {
    s.phase.Starting? && s' == s.(phase := Stopped)
  }

  ghost predicate Next(s: System, s': System) {
    || (exists changes :: Accept(s, s', changes))
    || (exists k :: LookUp(s, s', k))
    || (exists at :: Batch(s, s', at))
    || (exists at, n :: Cancel(s, s', at, n))
    || Check(s, s')
    || Stop(s, s')
  }

  ghost predicate Run(trace: seq<System>) {
    && trace != [] && Init(trace[0])
    && forall i :: 0 <= i < |trace| - 1 ==> Next(trace[i], trace[i + 1])
  }

  // ---------------------------------------------------------------- what every run keeps

  /** What has been received is the log from the first change owed on. */
  predicate InStep(s: System) {
    && s.first.Some?
    && s.first.value + |s.received| <= |s.log|
    && s.received == s.log[s.first.value..s.first.value + |s.received|]
  }

  function Position(s: System): nat {
    if s.first.Some? then s.first.value + |s.received| else 0
  }

  predicate EndsWith(s: System, id: Hash) {
    InStep(s) && Position(s) > 0 && s.log[Position(s) - 1].ID() == id
  }

  predicate Inv(s: System) {
    && s.log != [] && NoRepeats(s.log)
    && (s.first == None ==> s.received == [])
    && (s.first.Some? && s.origin != RECENT ==> StartsAt(s.log, s.origin, s.first.value))
    && match s.phase
       case Starting(start) => if s.first == None then start == s.origin else EndsWith(s, start)
       case Sending(entry) => InStep(s) && Position(s) < |s.log| && s.log[Position(s)] == entry
       case Checking(start) => EndsWith(s, start)
       case Registered => InStep(s) && Position(s) == |s.log|
       case Refused => s.received == [] && s.first == None
       case Stopped => s.first == None || InStep(s)
  }

  /** Growth of the log leaves those in step that are not registered. */
  lemma {:induction false} Longer(s: System, changes: seq<ChangeEntry>)
    requires InStep(s)
    ensures var s' := s.(log := s.log + changes); InStep(s') && Position(s') == Position(s)
    ensures forall i :: 0 <= i < |s.log| ==> (s.log + changes)[i] == s.log[i]
  {
    var k := s.first.value;
    assert (s.log + changes)[k..k + |s.received|] == s.log[k..k + |s.received|];
  }

  /** Those that are registered get the growth itself. */
  lemma {:induction false} Delivered(s: System, changes: seq<ChangeEntry>)
    requires InStep(s) && Position(s) == |s.log|
    ensures var s' := s.(log := s.log + changes, received := s.received + changes);
            InStep(s') && Position(s') == |s'.log|
  {
    var k := s.first.value;
    assert (s.log + changes)[k..|s.log + changes|] == s.log[k..] + changes;
  }

  lemma {:induction false} AcceptKeeps(s: System, s': System, changes: seq<ChangeEntry>)
    requires Inv(s) && Accept(s, s', changes)
    ensures Inv(s')
  {
    hide NoRepeats, InStep, Position;
    if s.phase.Registered? {
      Delivered(s, changes);
    } else if InStep(s) {
      Longer(s, changes);
      PositionInside(s);
    }
    if s.first.Some? && s.origin != RECENT {
      StartsLater(s.log, changes, s.origin, s.first.value);
    }
  }

  lemma {:induction false} PositionInside(s: System)
    requires InStep(s)
    ensures Position(s) <= |s.log|
  {
  }

  lemma {:induction false} StartsLater(log: seq<ChangeEntry>, changes: seq<ChangeEntry>, start: Hash, k: nat)
    requires StartsAt(log, start, k)
    ensures StartsAt(log + changes, start, k)
  {
  }

  /** An id occurs once in the log. */
  lemma {:induction false} OnePlace(log: seq<ChangeEntry>, i: nat, j: nat)
    requires NoRepeats(log) && i < |log| && j < |log| && log[i].ID() == log[j].ID()
    ensures i == j
  {
    assert log[i] == log[j];
  }

  lemma {:induction false} LookUpKeeps(s: System, s': System, k: nat)
    requires Inv(s) && LookUp(s, s', k)
    ensures Inv(s')
  {
    var start := s.phase.start;
    if start == RECENT {
      assert s.first == None;
    } else if k <= |s.log| && StartsAt(s.log, start, k) {
      if s.first.Some? {
        OnePlace(s.log, k - 1, Position(s) - 1);
      }
    } else if s.first.Some? {
      assert StartsAt(s.log, start, Position(s));
      assert false;
    }
  }

  /** Sending the next stretch of the log keeps in step. */
  lemma {:induction false} SendMore(s: System, next: nat)
    requires InStep(s) && Position(s) <= next <= |s.log|
    ensures s.received + s.log[Position(s)..next] == s.log[s.first.value..next]
  {
  }

  lemma {:induction false} BatchKeeps(s: System, s': System, at: nat)
    requires Inv(s) && Batch(s, s', at)
    ensures Inv(s')
  {
    hide StartsAt, BatchLength;
    OnePlace(s.log, at, Position(s));
    SendMore(s, at + BatchLength(s.log, at));
  }

  lemma {:induction false} CancelKeeps(s: System, s': System, at: nat, n: nat)
    requires Inv(s) && Cancel(s, s', at, n)
    ensures Inv(s')
  {
    hide StartsAt, BatchLength;
    OnePlace(s.log, at, Position(s));
    SendMore(s, at + n);
  }

  lemma {:induction false} NextKeeps(s: System, s': System)
    requires Inv(s) && Next(s, s')
    ensures Inv(s')
  {
    hide Accept, LookUp, Batch, Cancel, StartsAt;
    if changes :| Accept(s, s', changes) {
      AcceptKeeps(s, s', changes);
    } else if k :| LookUp(s, s', k) {
      LookUpKeeps(s, s', k);
    } else if at :| Batch(s, s', at) {
      BatchKeeps(s, s', at);
    } else if at, n :| Cancel(s, s', at, n) {
      CancelKeeps(s, s', at, n);
    } else if Check(s, s') {
      if s'.phase.Registered? {
        OnePlace(s.log, Position(s) - 1, |s.log| - 1);
      }
    }
  }

  /** Exactly once: at every moment of every run the subscriber has received,
      each once and in order, the changes from the first one it is owed; and
      while it is registered, all of them up to the end of the log. */
  lemma {:induction false} ExactlyOnce(trace: seq<System>, i: nat)
    requires Run(trace) && i < |trace|
    ensures Inv(trace[i])
    ensures trace[i].first.Some? ==> trace[i].received <= trace[i].log[trace[i].first.value..]
    ensures trace[i].phase.Registered? ==>
              trace[i].first.Some? && trace[i].received == trace[i].log[trace[i].first.value..]
  {
    if i > 0 {
      ExactlyOnce(trace, i - 1);
      assert Next(trace[i - 1], trace[i]);
      NextKeeps(trace[i - 1], trace[i]);
    }
  }

  // ---------------------------------------------------------------- it gets there

  /** Steps between which no blocks are accepted. */
  ghost predicate Undisturbed(trace: seq<System>) {
    && trace != []
    && forall i :: 0 <= i < |trace| - 1 ==> Next(trace[i], trace[i + 1]) && trace[i + 1].log == trace[i].log
  }

  /** The subscriber has not been registered, refused or cancelled yet. */
  predicate Underway(s: System) { s.phase.Starting? || s.phase.Sending? || s.phase.Checking? }

  /** It asks for changes after one that the log does not have. */
  ghost predicate AsksInVain(s: System) {
    s.phase.Starting? && s.phase.start != RECENT && !exists k :: 0 <= k <= |s.log| && StartsAt(s.log, s.phase.start, k)
  }

  /** What is left to send, and which phase is next: the final comparison comes
      last, one that fails first. */
  function Left(s: System): int { |s.log| - Position(s) }

  function Rank(s: System): nat {
    match s.phase
    case Checking(start) => if s.log != [] && start == s.log[|s.log| - 1].ID() then 0 else 3
    case Sending(_) => 1
    case _ => 2
  }

  /** A step towards registration. */
  lemma {:induction false} StepOn(s: System) returns (s': System)
    requires Inv(s) && Underway(s)
    ensures Next(s, s') && s'.log == s.log
    ensures s'.phase.Refused? <==> AsksInVain(s)
    ensures s'.phase.Registered? || s'.phase.Refused? || (Underway(s') && !AsksInVain(s'))
    ensures Underway(s') ==> 0 <= Left(s') <= Left(s) && (Left(s') < Left(s) || Rank(s') < Rank(s))
  {
    hide NoRepeats, BatchLength;
    match s.phase
    case Starting(start) =>
      s' := LookedUp(s);
    case Sending(_) =>
      s' := Sent(s);
    case Checking(start) =>
      s' := s.(phase := if start == s.log[|s.log| - 1].ID() then Registered else Starting(start));
      assert Check(s, s');
      assert StartsAt(s.log, start, Position(s));
  }

  lemma {:induction false} LookedUp(s: System) returns (s': System)
    requires Inv(s) && s.phase.Starting?
    ensures Next(s, s') && s'.log == s.log
    ensures s'.phase.Refused? <==> AsksInVain(s)
    ensures !s'.phase.Refused? ==> (s'.phase.Checking? || s'.phase.Sending?)
    ensures !s'.phase.Refused? ==> 0 <= Left(s') <= Left(s) && Rank(s') < Rank(s)
  {
    var start, n := s.phase.start, |s.log|;
    if start == RECENT {
      s' := s.(phase := Checking(s.log[n - 1].ID()), first := Some(n));
      assert s.first == None && LookUp(s, s', 0);
    } else if k :| 0 <= k <= n && StartsAt(s.log, start, k) {
      s' := s.(phase := if k < n then Sending(s.log[k]) else Checking(start),
               first := if s.first == None then Some(k) else s.first);
      assert LookUp(s, s', k);
      if s.first.Some? {
        OnePlace(s.log, k - 1, Position(s) - 1);
      }
    } else {
      s' := s.(phase := Refused);
      assert LookUp(s, s', 0);
    }
  }

  lemma {:induction false} Sent(s: System) returns (s': System)
    requires Inv(s) && s.phase.Sending?
    ensures Next(s, s') && s'.log == s.log && (s'.phase.Checking? || s'.phase.Sending?)
    ensures 0 <= Left(s') < Left(s)
  {
    var at := Position(s);
    var next := at + BatchLength(s.log, at);
    s' := s.(received := s.received + s.log[at..next],
             phase := if next < |s.log| then Sending(s.log[next]) else Checking(s.log[next - 1].ID()));
    assert Batch(s, s', at);
  }

  /** From every reachable state in which a subscription is under way, steps
      without new blocks lead to registration; unless it asks for changes after
      one that the log does not have, and then it is refused. */
  lemma {:induction false} GetsThere(s: System) returns (trace: seq<System>)
    requires Inv(s) && Underway(s)
    ensures Undisturbed(trace) && trace[0] == s
    ensures trace[|trace| - 1].phase == if AsksInVain(s) then Refused else Registered
    decreases Left(s), Rank(s)
  {
    hide Inv, Next, AsksInVain, Left, Rank;
    var s' := StepOn(s);
    NextKeeps(s, s');
    if Underway(s') {
      var rest := GetsThere(s');
      trace := [s] + rest;
    } else {
      trace := [s, s'];
    }
  }
}
