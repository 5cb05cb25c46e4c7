/** The global usage counters of the request-body cache: any number of goroutines create and close body storages, one
    atomic counter access per step. */
module CacheCounters {

  /** The life of one body storage.  `asked` is the size that was checked against the limit and `size` what was
      stored. */
  datatype Phase =
    | Arrived(asked: nat)
    | Admitted(asked: nat)                  // IsDiskCacheAvailable said yes, the file is being written
    | FileCounted(asked: nat, size: nat)    // ActiveDiskFiles incremented
    | OnDisk(size: nat)                     // CurrentDiskUsageBytes incremented: open
    | FileClosing(size: nat)                // Close won its compare-and-swap
    | FileUncounted(size: nat)              // ActiveDiskFiles decremented
    | BufferCounted(size: nat)              // ActiveMemoryBuffers incremented
    | InMemory(size: nat)                   // CurrentMemoryUsageBytes incremented: open
    | BufferClosing(size: nat)
    | BufferUncounted(size: nat)
    | Gone                                  // closed, or never created

  /** `clamped` records that DecrementDiskFiles had to store a zero. */
  datatype State = State(
    storages: seq<Phase>, diskFiles: int, diskBytes: int, memoryBuffers: int, memoryBytes: int, clamped: bool)

  /** The configured limit, the number of creators that may be between check and count, and the largest body. */
  datatype Limits = Limits(maxBytes: nat, creators: nat, bodyBytes: nat)

  datatype Step =
    | Arrive(asked: nat)
    | Check(i: nat)                         // the disk check
    | UseMemory(i: nat, size: nat)          // not checked, refused, or the disk failed
    | Fail(i: nat)                          // an oversized body, or a failure after the body was consumed
    | Count(i: nat, size: nat)
    | Proceed(i: nat)                       // the storage's next counter access
    | Close(i: nat)
    | CloseAgain(i: nat)

  const EMPTY := State([], 0, 0, 0, 0, false)

  // ---------------------------------------------------------------- steps

  ghost predicate Enabled(lim: Limits, s: State, step: Step) {
    match step
    case Arrive(asked) => asked <= lim.bodyBytes
    case Check(i) =>
      && i < |s.storages| && s.storages[i].Arrived? && InFlight(s.storages) < lim.creators
      && s.diskBytes + s.storages[i].asked <= lim.maxBytes
    case UseMemory(i, _) => i < |s.storages| && (s.storages[i].Arrived? || s.storages[i].Admitted?)
    case Fail(i) => i < |s.storages| && (s.storages[i].Arrived? || s.storages[i].Admitted?)
    // what is written is at most what was checked
    case Count(i, size) => i < |s.storages| && s.storages[i].Admitted? && size <= s.storages[i].asked
    case Proceed(i) =>
      i < |s.storages| &&
      (s.storages[i].FileCounted? || s.storages[i].FileClosing? || s.storages[i].FileUncounted? ||
       s.storages[i].BufferCounted? || s.storages[i].BufferClosing? || s.storages[i].BufferUncounted?)
    case Close(i) => i < |s.storages| && (s.storages[i].OnDisk? || s.storages[i].InMemory?)
    case CloseAgain(i) =>
      i < |s.storages| && (s.storages[i].FileClosing? || s.storages[i].FileUncounted? || s.storages[i].BufferClosing? ||
                           s.storages[i].BufferUncounted? || s.storages[i].Gone?)
  }

  function Put(s: State, i: nat, phase: Phase): State
    requires i < |s.storages|
  {
    s.(storages := s.storages[i := phase])
  }

  ghost function Apply(lim: Limits, s: State, step: Step): State
    requires Enabled(lim, s, step)
  {
    match step
    case Arrive(asked) => s.(storages := s.storages + [Arrived(asked)])
    case Check(i) => Put(s, i, Admitted(s.storages[i].asked))
    case UseMemory(i, size) => Put(s, i, BufferCounted(size)).(memoryBuffers := s.memoryBuffers + 1)
    case Fail(i) => Put(s, i, Gone)
    case Count(i, size) => Put(s, i, FileCounted(s.storages[i].asked, size)).(diskFiles := s.diskFiles + 1)
    case Proceed(i) => ProceedWith(s, i)
    case Close(i) =>
      Put(s, i, if s.storages[i].OnDisk? then FileClosing(s.storages[i].size) else BufferClosing(s.storages[i].size))
    case CloseAgain(_) => s
  }

  /** DecrementDiskFiles stores a zero when a counter would become negative. */
  function ProceedWith(s: State, i: nat): State
    requires i < |s.storages|
  {
    match s.storages[i]
    case FileCounted(_, size) => Put(s, i, OnDisk(size)).(diskBytes := s.diskBytes + size)
    case FileClosing(size) =>
      var n := s.diskFiles - 1;
      Put(s, i, FileUncounted(size)).(diskFiles := if n < 0 then 0 else n, clamped := s.clamped || n < 0)
    case FileUncounted(size) =>
      var n := s.diskBytes - size;
      Put(s, i, Gone).(diskBytes := if n < 0 then 0 else n, clamped := s.clamped || n < 0)
    case BufferCounted(size) => Put(s, i, InMemory(size)).(memoryBytes := s.memoryBytes + size)
    case BufferClosing(size) => Put(s, i, BufferUncounted(size)).(memoryBuffers := s.memoryBuffers - 1)
    case BufferUncounted(size) => Put(s, i, Gone).(memoryBytes := s.memoryBytes - size)
    case _ => s
  }

  // ---------------------------------------------------------------- what the counters stand for

  ghost function Sum(storages: seq<Phase>, weight: Phase -> nat): nat {
    if storages == [] then 0 else Sum(storages[..|storages| - 1], weight) + weight(storages[|storages| - 1])
  }

  function FileWeight(p: Phase): nat { if p.FileCounted? || p.OnDisk? || p.FileClosing? then 1 else 0 }

  function DiskWeight(p: Phase): nat { if p.OnDisk? || p.FileClosing? || p.FileUncounted? then p.size else 0 }

  function BufferWeight(p: Phase): nat { if p.BufferCounted? || p.InMemory? || p.BufferClosing? then 1 else 0 }

  function MemoryWeight(p: Phase): nat { if p.InMemory? || p.BufferClosing? || p.BufferUncounted? then p.size else 0 }

  /** A creator between its check and the count of its bytes. */
  function FlightWeight(p: Phase): nat { if p.Admitted? || p.FileCounted? then 1 else 0 }

  function FlightBytes(p: Phase): nat { if p.Admitted? || p.FileCounted? then p.asked else 0 }

  ghost function InFlight(storages: seq<Phase>): nat { Sum(storages, FlightWeight) }

  lemma {:induction false} SumUpdate(storages: seq<Phase>, weight: Phase -> nat, i: nat, p: Phase)
    requires i < |storages|
    ensures Sum(storages[i := p], weight) == Sum(storages, weight) - weight(storages[i]) + weight(p)
    ensures Sum(storages, weight) >= weight(storages[i])
  {
    var n := |storages| - 1;
    if i < n {
      SumUpdate(storages[..n], weight, i, p);
      assert storages[i := p][..n] == storages[..n][i := p];
    } else {
      assert storages[i := p][..n] == storages[..n];
    }
  }

  lemma SumAppend(storages: seq<Phase>, weight: Phase -> nat, p: Phase)
    ensures Sum(storages + [p], weight) == Sum(storages, weight) + weight(p)
  {
    assert (storages + [p])[..|storages|] == storages;
  }

  lemma {:induction false} FlightBound(storages: seq<Phase>, bodyBytes: nat)
    requires forall i | 0 <= i < |storages| :: FlightBytes(storages[i]) <= bodyBytes
    ensures Sum(storages, FlightBytes) <= InFlight(storages) * bodyBytes
  {
    if storages != [] {
      var init := storages[..|storages| - 1];
      FlightBound(init, bodyBytes);
      assert (InFlight(init) + 1) * bodyBytes == InFlight(init) * bodyBytes + bodyBytes;
    }
  }

  /** The counters are exact at every moment, and the clamp has never been taken. */
  ghost predicate Exact(s: State) {
    DiskExact(s) && MemoryExact(s)
  }

  ghost predicate DiskExact(s: State) {
    s.diskFiles == Sum(s.storages, FileWeight) && s.diskBytes == Sum(s.storages, DiskWeight) && !s.clamped
  }

  ghost predicate MemoryExact(s: State) {
    s.memoryBuffers == Sum(s.storages, BufferWeight) && s.memoryBytes == Sum(s.storages, MemoryWeight)
  }

  /** A storage has a size that was allowed, and stores no more than was checked. */
  ghost predicate Modest(lim: Limits, p: Phase) {
    && (p.Arrived? || p.Admitted? || p.FileCounted? ==> p.asked <= lim.bodyBytes)
    && (p.FileCounted? ==> p.size <= p.asked)
  }

  /** Usage plus the bytes in flight stay within the limit plus one body for every creator but one. */
  ghost predicate Bounded(lim: Limits, s: State) {
    && (forall i | 0 <= i < |s.storages| :: Modest(lim, s.storages[i]))
    && s.diskBytes + Sum(s.storages, FlightBytes) <= lim.maxBytes + (lim.creators - 1) * lim.bodyBytes
  }

  /** One storage moves on, and the counters with it. */
  lemma DiskMoved(s: State, s': State, i: nat)
    requires DiskExact(s) && i < |s.storages| == |s'.storages| && s'.storages == s.storages[i := s'.storages[i]]
    requires s'.diskFiles == s.diskFiles - FileWeight(s.storages[i]) + FileWeight(s'.storages[i])
    requires s'.diskBytes == s.diskBytes - DiskWeight(s.storages[i]) + DiskWeight(s'.storages[i]) && !s'.clamped
    ensures DiskExact(s')
  {
    SumUpdate(s.storages, FileWeight, i, s'.storages[i]);
    SumUpdate(s.storages, DiskWeight, i, s'.storages[i]);
  }

  lemma MemoryMoved(s: State, s': State, i: nat)
    requires MemoryExact(s) && i < |s.storages| == |s'.storages| && s'.storages == s.storages[i := s'.storages[i]]
    requires s'.memoryBuffers == s.memoryBuffers - BufferWeight(s.storages[i]) + BufferWeight(s'.storages[i])
    requires s'.memoryBytes == s.memoryBytes - MemoryWeight(s.storages[i]) + MemoryWeight(s'.storages[i])
    ensures MemoryExact(s')
  {
    SumUpdate(s.storages, BufferWeight, i, s'.storages[i]);
    SumUpdate(s.storages, MemoryWeight, i, s'.storages[i]);
  }

  /** The clamp is not taken: a counter holds at least the share of each storage. */
  lemma DiskShare(s: State, i: nat)
    requires DiskExact(s) && i < |s.storages|
    ensures s.diskFiles >= FileWeight(s.storages[i]) && s.diskBytes >= DiskWeight(s.storages[i])
  {
    SumUpdate(s.storages, FileWeight, i, s.storages[i]);
    SumUpdate(s.storages, DiskWeight, i, s.storages[i]);
  }

  lemma ArrivalExact(s: State, asked: nat)
    ensures var s' := s.(storages := s.storages + [Arrived(asked)]);
      (DiskExact(s) ==> DiskExact(s')) && (MemoryExact(s) ==> MemoryExact(s'))
  {
    SumAppend(s.storages, FileWeight, Arrived(asked));
    SumAppend(s.storages, DiskWeight, Arrived(asked));
    SumAppend(s.storages, BufferWeight, Arrived(asked));
    SumAppend(s.storages, MemoryWeight, Arrived(asked));
  }

  lemma DiskExactKept(lim: Limits, s: State, step: Step)
    requires DiskExact(s) && Enabled(lim, s, step)
    ensures DiskExact(Apply(lim, s, step))
  {
    if step.Arrive? {
      ArrivalExact(s, step.asked);
    } else if !step.CloseAgain? {
      DiskShare(s, step.i);
      DiskMoved(s, Apply(lim, s, step), step.i);
    }
  }

  lemma MemoryExactKept(lim: Limits, s: State, step: Step)
    requires MemoryExact(s) && Enabled(lim, s, step)
    ensures MemoryExact(Apply(lim, s, step))
  {
    if step.Arrive? {
      ArrivalExact(s, step.asked);
    } else if !step.CloseAgain? {
      MemoryMoved(s, Apply(lim, s, step), step.i);
    }
  }

  lemma BoundedKept(lim: Limits, s: State, step: Step)
    requires DiskExact(s) && Bounded(lim, s) && Enabled(lim, s, step) && lim.creators >= 1
    ensures Bounded(lim, Apply(lim, s, step))
  {
    if step.Arrive? {
      SumAppend(s.storages, FlightBytes, Arrived(step.asked));
    } else if step.Check? {
      CheckBounded(lim, s, step.i);
    } else if !step.CloseAgain? {
      DiskShare(s, step.i);
      StepShrinks(lim, s, step);
      BoundedMoved(lim, s, Apply(lim, s, step), step.i);
    }
  }

  /** Past the check, what a storage has counted and what it has in flight never grow together. */
  lemma StepShrinks(lim: Limits, s: State, step: Step)
    requires Enabled(lim, s, step) && !step.Arrive? && !step.Check? && !step.CloseAgain?
    requires Modest(lim, s.storages[step.i]) && s.diskBytes >= DiskWeight(s.storages[step.i])
    ensures var s' := Apply(lim, s, step);
      && |s'.storages| == |s.storages| && s'.storages == s.storages[step.i := s'.storages[step.i]]
      && Modest(lim, s'.storages[step.i])
      && s'.diskBytes + FlightBytes(s'.storages[step.i]) <= s.diskBytes + FlightBytes(s.storages[step.i])
  {
  }

  lemma BoundedMoved(lim: Limits, s: State, s': State, i: nat)
    requires Bounded(lim, s) && i < |s.storages| == |s'.storages| && s'.storages == s.storages[i := s'.storages[i]]
    requires Modest(lim, s'.storages[i])
    requires s'.diskBytes + FlightBytes(s'.storages[i]) <= s.diskBytes + FlightBytes(s.storages[i])
    ensures Bounded(lim, s')
  {
    SumUpdate(s.storages, FlightBytes, i, s'.storages[i]);
  }

  /** The check itself: whatever is in flight besides the new creator is at most creators - 1 bodies. */
  lemma CheckBounded(lim: Limits, s: State, i: nat)
    requires Bounded(lim, s) && Enabled(lim, s, Check(i)) && lim.creators >= 1
    ensures Bounded(lim, Apply(lim, s, Check(i)))
  {
    assert forall j | 0 <= j < |s.storages| :: Modest(lim, s.storages[j]);
    FlightBound(s.storages, lim.bodyBytes);
    TimesMonotone(InFlight(s.storages), lim.creators - 1, lim.bodyBytes);
    SumUpdate(s.storages, FlightBytes, i, Admitted(s.storages[i].asked));
  }

  lemma TimesMonotone(a: nat, b: nat, c: nat)
    requires a <= b
    ensures a * c <= b * c
  {
  }

  ghost function ApplyAll(lim: Limits, s: State, steps: seq<Step>): State
    requires AllEnabled(lim, s, steps)
    decreases |steps|
  {
    if steps == [] then s else ApplyAll(lim, Apply(lim, s, steps[0]), steps[1..])
  }

  ghost predicate AllEnabled(lim: Limits, s: State, steps: seq<Step>)
    decreases |steps|
  {
    steps == [] || (Enabled(lim, s, steps[0]) && AllEnabled(lim, Apply(lim, s, steps[0]), steps[1..]))
  }

  lemma ApplyTwo(lim: Limits, s: State, a: Step, b: Step)
    requires Enabled(lim, s, a) && Enabled(lim, Apply(lim, s, a), b)
    ensures AllEnabled(lim, s, [a, b]) && ApplyAll(lim, s, [a, b]) == Apply(lim, Apply(lim, s, a), b)
  {
    var s1 := Apply(lim, s, a);
    assert [a, b][1..] == [b] && [b][1..] == [];
    assert ApplyAll(lim, s1, [b]) == ApplyAll(lim, Apply(lim, s1, b), []) == Apply(lim, s1, b);
  }

  lemma ApplyThree(lim: Limits, s: State, a: Step, b: Step, c: Step)
    requires Enabled(lim, s, a) && AllEnabled(lim, Apply(lim, s, a), [b, c])
    ensures AllEnabled(lim, s, [a, b, c]) && ApplyAll(lim, s, [a, b, c]) == ApplyAll(lim, Apply(lim, s, a), [b, c])
  {
    assert [a, b, c][1..] == [b, c];
  }

  /** A body that is kept in memory is open and counted with its size after two steps. */
  lemma OpensInMemory(lim: Limits, s: State, i: nat, size: nat)
    requires Enabled(lim, s, UseMemory(i, size))
    ensures var steps := [UseMemory(i, size), Proceed(i)];
      && AllEnabled(lim, s, steps)
      && ApplyAll(lim, s, steps) == s.(storages := s.storages[i := InMemory(size)],
                                       memoryBuffers := s.memoryBuffers + 1, memoryBytes := s.memoryBytes + size)
  {
    ApplyTwo(lim, s, UseMemory(i, size), Proceed(i));
  }

  /** A body that passed the check is open on disk and counted with its size after two steps. */
  lemma OpensOnDisk(lim: Limits, s: State, i: nat, size: nat)
    requires Enabled(lim, s, Count(i, size))
    ensures var steps := [Count(i, size), Proceed(i)];
      && AllEnabled(lim, s, steps)
      && ApplyAll(lim, s, steps) == s.(storages := s.storages[i := OnDisk(size)],
                                       diskFiles := s.diskFiles + 1, diskBytes := s.diskBytes + size)
  {
    ApplyTwo(lim, s, Count(i, size), Proceed(i));
  }

  /** The check admits a body, and a creation that fails leaves nothing, without counting anything. */
  lemma ChecksAndFails(lim: Limits, s: State, i: nat)
    ensures Enabled(lim, s, Check(i)) ==>
      Apply(lim, s, Check(i)) == s.(storages := s.storages[i := Admitted(s.storages[i].asked)])
    ensures Enabled(lim, s, Fail(i)) ==> Apply(lim, s, Fail(i)) == s.(storages := s.storages[i := Gone])
    ensures Enabled(lim, s, CloseAgain(i)) ==> Apply(lim, s, CloseAgain(i)) == s
  {
  }

  /** Closing an open storage takes three steps and takes its share out of the counters. */
  lemma Closes(lim: Limits, s: State, i: nat)
    requires DiskExact(s) && Enabled(lim, s, Close(i))
    ensures var steps, p := [Close(i), Proceed(i), Proceed(i)], s.storages[i];
      && AllEnabled(lim, s, steps)
      && ApplyAll(lim, s, steps) ==
           if p.OnDisk? then
             s.(storages := s.storages[i := Gone], diskFiles := s.diskFiles - 1, diskBytes := s.diskBytes - p.size)
           else
             s.(storages := s.storages[i := Gone], memoryBuffers := s.memoryBuffers - 1,
                memoryBytes := s.memoryBytes - p.size)
  {
    DiskShare(s, i);
    var s1 := Apply(lim, s, Close(i));
    ApplyTwo(lim, s1, Proceed(i), Proceed(i));
    ApplyThree(lim, s, Close(i), Proceed(i), Proceed(i));
  }

  // ---------------------------------------------------------------- runs

  ghost predicate Run(lim: Limits, states: seq<State>, steps: seq<Step>) {
    && |states| == |steps| + 1 && states[0] == EMPTY
    && forall k {:trigger steps[k]} | 0 <= k < |steps| ::
         Enabled(lim, states[k], steps[k]) && states[k + 1] == Apply(lim, states[k], steps[k])
  }

  /** In every interleaving the counters are exact and the clamp is not taken. */
  lemma {:induction false} CountersExact(lim: Limits, states: seq<State>, steps: seq<Step>, n: nat)
    requires Run(lim, states, steps) && n < |states|
    ensures Exact(states[n])
  {
    if n > 0 {
      CountersExact(lim, states, steps, n - 1);
      DiskExactKept(lim, states[n - 1], steps[n - 1]);
      MemoryExactKept(lim, states[n - 1], steps[n - 1]);
    }
  }

  /** Every creation and every close has finished. */
  ghost predicate Quiescent(s: State) {
    forall i | 0 <= i < |s.storages| ::
      s.storages[i].Arrived? || s.storages[i].OnDisk? || s.storages[i].InMemory? || s.storages[i].Gone?
  }

  function OpenFile(p: Phase): nat { if p.OnDisk? then 1 else 0 }
  function OpenFileBytes(p: Phase): nat { if p.OnDisk? then p.size else 0 }
  function OpenBuffer(p: Phase): nat { if p.InMemory? then 1 else 0 }
  function OpenBufferBytes(p: Phase): nat { if p.InMemory? then p.size else 0 }

  lemma {:induction false} SumSame(storages: seq<Phase>, f: Phase -> nat, g: Phase -> nat)
    requires forall i | 0 <= i < |storages| :: f(storages[i]) == g(storages[i])
    ensures Sum(storages, f) == Sum(storages, g)
  {
    if storages != [] { SumSame(storages[..|storages| - 1], f, g); }
  }

  /** At quiescent points the counters are the number and the total size of the open storages. */
  lemma CountersConserved(lim: Limits, states: seq<State>, steps: seq<Step>, n: nat)
    requires Run(lim, states, steps) && n < |states| && Quiescent(states[n])
    ensures states[n].diskFiles == Sum(states[n].storages, OpenFile)
    ensures states[n].diskBytes == Sum(states[n].storages, OpenFileBytes)
    ensures states[n].memoryBuffers == Sum(states[n].storages, OpenBuffer)
    ensures states[n].memoryBytes == Sum(states[n].storages, OpenBufferBytes)
  {
    CountersExact(lim, states, steps, n);
    SumSame(states[n].storages, FileWeight, OpenFile);
    SumSame(states[n].storages, DiskWeight, OpenFileBytes);
    SumSame(states[n].storages, BufferWeight, OpenBuffer);
    SumSame(states[n].storages, MemoryWeight, OpenBufferBytes);
  }

  lemma {:induction false} RunBounded(lim: Limits, states: seq<State>, steps: seq<Step>, n: nat)
    requires Run(lim, states, steps) && n < |states| && lim.creators >= 1
    ensures Bounded(lim, states[n])
  {
    if n > 0 {
      RunBounded(lim, states, steps, n - 1);
      CountersExact(lim, states, steps, n - 1);
      BoundedKept(lim, states[n - 1], steps[n - 1]);
    } else {
      TimesMonotone(0, lim.creators - 1, lim.bodyBytes);
    }
  }

  /** With at most `creators` creations between check and count, disk usage never exceeds the limit by more than
      creators - 1 bodies; with one at a time it never exceeds the limit. */
  lemma DiskUsageBounded(lim: Limits, states: seq<State>, steps: seq<Step>, n: nat)
    requires Run(lim, states, steps) && n < |states| && lim.creators >= 1
    ensures states[n].diskBytes + Sum(states[n].storages, FlightBytes) <=
      lim.maxBytes + (lim.creators - 1) * lim.bodyBytes
    ensures lim.creators == 1 ==> states[n].diskBytes <= lim.maxBytes
  {
    RunBounded(lim, states, steps, n);
  }

  ghost predicate Reachable(lim: Limits, s: State) {
    exists states, steps :: Run(lim, states, steps) && states[|steps|] == s
  }

  lemma ReachableStep(lim: Limits, s: State, step: Step)
    requires Reachable(lim, s) && Enabled(lim, s, step)
    ensures Reachable(lim, Apply(lim, s, step))
  {
    var states, steps :| Run(lim, states, steps) && states[|steps|] == s;
    assert Run(lim, states + [Apply(lim, s, step)], steps + [step]);
  }

  /** The bound is attained: n creators that each bring a body as large as the whole cache all pass the check. */
  lemma {:induction false} BoundAttained(max: nat, creators: nat, n: nat) returns (s: State)
    requires n <= creators
    ensures Reachable(Limits(max, creators, max), s)
    ensures s.diskBytes == 0 && InFlight(s.storages) == n && Sum(s.storages, FlightBytes) == n * max
  {
    if n == 0 {
      s := EMPTY;
      assert Run(Limits(max, creators, max), [EMPTY], []);
    } else {
      s := BoundAttained(max, creators, n - 1);
      s := OneMoreCreator(max, creators, s);
      assert (n - 1) * max + max == n * max;
    }
  }

  lemma OneMoreCreator(max: nat, creators: nat, s: State) returns (s': State)
    requires Reachable(Limits(max, creators, max), s) && s.diskBytes == 0 && InFlight(s.storages) < creators
    ensures Reachable(Limits(max, creators, max), s') && s'.diskBytes == 0
    ensures InFlight(s'.storages) == InFlight(s.storages) + 1
    ensures Sum(s'.storages, FlightBytes) == Sum(s.storages, FlightBytes) + max
  {
    var lim, i := Limits(max, creators, max), |s.storages|;
    ReachableStep(lim, s, Arrive(max));
    var s1 := Apply(lim, s, Arrive(max));
    SumAppend(s.storages, FlightWeight, Arrived(max));
    SumAppend(s.storages, FlightBytes, Arrived(max));
    ReachableStep(lim, s1, Check(i));
    s' := Apply(lim, s1, Check(i));
    SumUpdate(s1.storages, FlightWeight, i, Admitted(max));
    SumUpdate(s1.storages, FlightBytes, i, Admitted(max));
  }
}
