/** The reference-counted per-order lock (LockOrder, UnlockOrder) as a transition system: any number of
    goroutines of one process, one shared access per step. */
module OrderLock {
  import opened Basics

  type Tid = nat
  type MutexId = nat

  /** A refCountedMutex; `holder` is the goroutine that has locked `mu`. */
  datatype Mutex = Mutex(refCount: int, holder: Option<Tid>)

  /** Where a goroutine stands.  `m` is the mutex its local variable rcm points to. */
  datatype Pc =
    | WantCreate                    // LockOrder: at createLock.Lock
    | Loading                       //   createLock held, at Load / Store
    | Counting(m: MutexId)          //   createLock held, at refCount++
    | Counted(m: MutexId)           //   createLock held, at createLock.Unlock
    | Waiting(m: MutexId)           //   at rcm.mu.Lock
    | Critical(m: MutexId)          // between LockOrder and UnlockOrder
    | Unlocking(m: MutexId)         // UnlockOrder: Load done, at rcm.mu.Unlock
    | WantDecrement(m: MutexId)     //   at createLock.Lock
    | Decrementing(m: MutexId)      //   createLock held, at refCount--
    | Checking(m: MutexId)          //   createLock held, at the test and Delete
    | Leaving                       //   createLock held, at createLock.Unlock

  datatype Thread = Thread(order: TradeNo, pc: Pc)

  /** `threads` holds the goroutines between their call of LockOrder and the return of UnlockOrder.
      `missed` records that UnlockOrder found no mutex, `crashed` that it unlocked an unlocked mutex. */
  datatype Lock = Lock(
    threads: map<Tid, Thread>, createLock: Option<Tid>, orderLocks: map<TradeNo, MutexId>,
    heap: map<MutexId, Mutex>, nextMutex: nat, missed: bool, crashed: bool)

  const UNLOCKED := Lock(map[], None, map[], map[], 0, false, false)

  // ---------------------------------------------------------------- steps

  function Enter(l: Lock, t: Tid, o: TradeNo): Lock {
    l.(threads := l.threads[t := Thread(o, WantCreate)])
  }

  predicate InLockOrder(pc: Pc) {
    pc.WantCreate? || pc.Loading? || pc.Counting? || pc.Counted? || pc.Waiting?
  }

  predicate CanAdvance(l: Lock, t: Tid) {
    t in l.threads &&
    match l.threads[t].pc
    case WantCreate => l.createLock.None?
    case WantDecrement(_) => l.createLock.None?
    case Waiting(m) => m in l.heap && l.heap[m].holder.None?
    case Counting(m) => m in l.heap
    case Unlocking(m) => m in l.heap
    case Decrementing(m) => m in l.heap
    case Checking(m) => m in l.heap
    case _ => true
  }

  function Goto(l: Lock, t: Tid, pc: Pc): Lock
    requires t in l.threads
  {
    l.(threads := l.threads[t := l.threads[t].(pc := pc)])
  }

  /** The next access of LockOrder. */
  function LockStep(l: Lock, t: Tid): Lock
    requires CanAdvance(l, t) && InLockOrder(l.threads[t].pc)
  {
    var o := l.threads[t].order;
    match l.threads[t].pc
    case WantCreate => Goto(l, t, Loading).(createLock := Some(t))
    case Loading =>
      if o in l.orderLocks then Goto(l, t, Counting(l.orderLocks[o]))
      else Goto(l, t, Counting(l.nextMutex)).(
           orderLocks := l.orderLocks[o := l.nextMutex],
           heap := l.heap[l.nextMutex := Mutex(0, None)], nextMutex := l.nextMutex + 1)
    case Counting(m) => Goto(l, t, Counted(m)).(heap := l.heap[m := l.heap[m].(refCount := l.heap[m].refCount + 1)])
    case Counted(m) => Goto(l, t, Waiting(m)).(createLock := None)
    case Waiting(m) => Goto(l, t, Critical(m)).(heap := l.heap[m := l.heap[m].(holder := Some(t))])
  }

  /** The next access of UnlockOrder, which is called from the critical section. */
  function UnlockStep(l: Lock, t: Tid): Lock
    requires CanAdvance(l, t) && !InLockOrder(l.threads[t].pc)
  {
    var o := l.threads[t].order;
    match l.threads[t].pc
    case Critical(_) =>
      if o in l.orderLocks then Goto(l, t, Unlocking(l.orderLocks[o]))
      else l.(threads := l.threads - {t}, missed := true)
    case Unlocking(m) =>
      Goto(l, t, WantDecrement(m)).(
        heap := l.heap[m := l.heap[m].(holder := None)], crashed := l.crashed || l.heap[m].holder.None?)
    case WantDecrement(m) => Goto(l, t, Decrementing(m)).(createLock := Some(t))
    case Decrementing(m) =>
      Goto(l, t, Checking(m)).(heap := l.heap[m := l.heap[m].(refCount := l.heap[m].refCount - 1)])
    case Checking(m) =>
      Goto(l, t, Leaving).(orderLocks := if l.heap[m].refCount == 0 then l.orderLocks - {o} else l.orderLocks)
    case Leaving => l.(threads := l.threads - {t}, createLock := None)
  }

  function Advance(l: Lock, t: Tid): Lock
    requires CanAdvance(l, t)
  {
    if InLockOrder(l.threads[t].pc) then LockStep(l, t) else UnlockStep(l, t)
  }

  // ---------------------------------------------------------------- the invariant

  predicate HasMutex(pc: Pc) { !pc.WantCreate? && !pc.Loading? && !pc.Leaving? }

  /** The goroutine has counted itself in `m` and not yet out. */
  predicate Refs(pc: Pc, m: MutexId) { HasMutex(pc) && !pc.Counting? && !pc.Checking? && pc.m == m }

  predicate HoldsCreate(pc: Pc) {
    pc.Loading? || pc.Counting? || pc.Counted? || pc.Decrementing? || pc.Checking? || pc.Leaving?
  }

  predicate Holds(pc: Pc, m: MutexId) { (pc.Critical? || pc.Unlocking?) && pc.m == m }

  ghost function RefSet(threads: map<Tid, Thread>, m: MutexId): set<Tid> {
    set t | t in threads && Refs(threads[t].pc, m)
  }

  /** Every goroutine's mutex is the one the map holds for its order; distinct orders have distinct mutexes. */
  ghost predicate MapInv(l: Lock) {
    && (forall t | t in l.threads && HasMutex(l.threads[t].pc) ::
          l.threads[t].order in l.orderLocks && l.orderLocks[l.threads[t].order] == l.threads[t].pc.m)
    && (forall o | o in l.orderLocks :: l.orderLocks[o] in l.heap)
    && (forall o, o' | o in l.orderLocks && o' in l.orderLocks && l.orderLocks[o] == l.orderLocks[o'] :: o == o')
    && (forall m | m in l.heap :: m < l.nextMutex)
  }

  ghost predicate CreateInv(l: Lock) {
    && (forall t | t in l.threads :: HoldsCreate(l.threads[t].pc) <==> l.createLock == Some(t))
    && (l.createLock.Some? ==> l.createLock.value in l.threads)
  }

  ghost predicate CountInv(l: Lock) {
    forall m | m in l.heap :: l.heap[m].refCount == |RefSet(l.threads, m)|
  }

  ghost predicate HolderInv(l: Lock) {
    forall m | m in l.heap && l.heap[m].holder.Some? ::
      l.heap[m].holder.value in l.threads && Holds(l.threads[l.heap[m].holder.value].pc, m)
  }

  ghost predicate OwnerInv(l: Lock) {
    forall t | t in l.threads && (l.threads[t].pc.Critical? || l.threads[t].pc.Unlocking?) ::
      l.threads[t].pc.m in l.heap && l.heap[l.threads[t].pc.m].holder == Some(t)
  }

  /** A mutex in the map is unreferenced only while the goroutine that is storing or deleting it holds createLock. */
  ghost predicate LiveInv(l: Lock) {
    forall o | o in l.orderLocks && l.orderLocks[o] in l.heap && l.heap[l.orderLocks[o]].refCount == 0 ::
      && l.createLock.Some? && l.createLock.value in l.threads && l.threads[l.createLock.value].order == o
      && (l.threads[l.createLock.value].pc.Counting? || l.threads[l.createLock.value].pc.Checking?)
  }

  ghost predicate LockInv(l: Lock) {
    MapInv(l) && CreateInv(l) && CountInv(l) && HolderInv(l) && OwnerInv(l) && LiveInv(l) && !l.missed && !l.crashed
  }

  // ---------------------------------------------------------------- the invariant is kept

  lemma CardinalityOfChange(a: set<Tid>, b: set<Tid>, t: Tid)
    requires a - {t} == b - {t}
    ensures |b| == |a| + (if t in b then 1 else 0) - (if t in a then 1 else 0)
  {
    assert |a - {t}| == |a| - if t in a then 1 else 0;
    assert |b - {t}| == |b| - if t in b then 1 else 0;
  }

  lemma RefSetUpdate(threads: map<Tid, Thread>, t: Tid, th: Thread, m: MutexId)
    ensures |RefSet(threads[t := th], m)| == |RefSet(threads, m)|
      + (if Refs(th.pc, m) then 1 else 0) - (if t in threads && Refs(threads[t].pc, m) then 1 else 0)
  {
    var a, b := RefSet(threads, m), RefSet(threads[t := th], m);
    assert a - {t} == b - {t} by {
      forall x ensures x in a - {t} <==> x in b - {t} {}
    }
    CardinalityOfChange(a, b, t);
  }

  lemma RefSetRemove(threads: map<Tid, Thread>, t: Tid, m: MutexId)
    requires t in threads && !Refs(threads[t].pc, m)
    ensures RefSet(threads - {t}, m) == RefSet(threads, m)
  {
  }

  lemma RefSetMember(threads: map<Tid, Thread>, t: Tid, m: MutexId)
    requires t in threads && Refs(threads[t].pc, m)
    ensures |RefSet(threads, m)| >= 1
  {
    assert t in RefSet(threads, m);
  }

  lemma FreshUnreferenced(l: Lock, m: MutexId)
    requires MapInv(l) && m !in l.heap
    ensures RefSet(l.threads, m) == {}
  {
  }

  lemma EnterKept(l: Lock, t: Tid, o: TradeNo)
    requires LockInv(l) && t !in l.threads
    ensures LockInv(Enter(l, t, o))
  {
    EnterCount(l, t, o);
    EnterRest(l, t, o);
  }

  lemma EnterCount(l: Lock, t: Tid, o: TradeNo)
    requires CountInv(l) && t !in l.threads
    ensures CountInv(Enter(l, t, o))
  {
    forall m | m in l.heap ensures |RefSet(Enter(l, t, o).threads, m)| == |RefSet(l.threads, m)| {
      RefSetUpdate(l.threads, t, Thread(o, WantCreate), m);
    }
  }

  lemma EnterRest(l: Lock, t: Tid, o: TradeNo)
    requires MapInv(l) && CreateInv(l) && HolderInv(l) && OwnerInv(l) && LiveInv(l) && t !in l.threads
    ensures var l' := Enter(l, t, o); MapInv(l') && CreateInv(l') && HolderInv(l') && OwnerInv(l') && LiveInv(l')
  {
  }

  /** A goroutine moves on and the counts follow it. */
  lemma CountFollows(l: Lock, l': Lock, t: Tid, m: MutexId)
    requires CountInv(l) && t in l.threads && t in l'.threads && l'.threads == l.threads[t := l'.threads[t]]
    requires m in l.heap && m in l'.heap
    requires l'.heap[m].refCount == l.heap[m].refCount
      + (if Refs(l'.threads[t].pc, m) then 1 else 0) - (if Refs(l.threads[t].pc, m) then 1 else 0)
    ensures l'.heap[m].refCount == |RefSet(l'.threads, m)|
  {
    RefSetUpdate(l.threads, t, l'.threads[t], m);
  }

  lemma LockStepCount(l: Lock, t: Tid)
    requires MapInv(l) && CountInv(l) && CanAdvance(l, t) && InLockOrder(l.threads[t].pc)
    ensures CountInv(LockStep(l, t))
  {
    var l' := LockStep(l, t);
    forall m | m in l'.heap ensures l'.heap[m].refCount == |RefSet(l'.threads, m)| {
      if m in l.heap { CountFollows(l, l', t, m); } else { NewMutexCount(l, t, m); }
    }
  }

  lemma NewMutexCount(l: Lock, t: Tid, m: MutexId)
    requires MapInv(l) && CanAdvance(l, t) && InLockOrder(l.threads[t].pc) && m !in l.heap && m in LockStep(l, t).heap
    ensures LockStep(l, t).heap[m].refCount == |RefSet(LockStep(l, t).threads, m)|
  {
    RefSetUpdate(l.threads, t, LockStep(l, t).threads[t], m);
    FreshUnreferenced(l, m);
  }

  lemma UnlockStepCount(l: Lock, t: Tid)
    requires MapInv(l) && CountInv(l) && CanAdvance(l, t) && !InLockOrder(l.threads[t].pc)
    ensures CountInv(UnlockStep(l, t))
  {
    if l.threads[t].pc.Leaving? { LeavingCount(l, t); } else { StayingCount(l, t); }
  }

  lemma LeavingCount(l: Lock, t: Tid)
    requires CountInv(l) && CanAdvance(l, t) && l.threads[t].pc.Leaving?
    ensures CountInv(UnlockStep(l, t))
  {
    forall m | m in l.heap ensures RefSet(l.threads - {t}, m) == RefSet(l.threads, m) { RefSetRemove(l.threads, t, m); }
  }

  lemma StayingCount(l: Lock, t: Tid)
    requires MapInv(l) && CountInv(l) && CanAdvance(l, t) && !InLockOrder(l.threads[t].pc) && !l.threads[t].pc.Leaving?
    ensures CountInv(UnlockStep(l, t))
  {
    var l' := UnlockStep(l, t);
    StayingRefs(l, t);
    forall m | m in l'.heap ensures l'.heap[m].refCount == |RefSet(l'.threads, m)| { CountFollows(l, l', t, m); }
  }

  /** A goroutine counts itself out where it stops to refer to its mutex. */
  lemma StayingRefs(l: Lock, t: Tid)
    requires MapInv(l) && CanAdvance(l, t) && !InLockOrder(l.threads[t].pc) && !l.threads[t].pc.Leaving?
    ensures var l' := UnlockStep(l, t);
      && t in l'.threads && l'.threads == l.threads[t := l'.threads[t]] && l'.heap.Keys == l.heap.Keys
      && forall m | m in l.heap ::
           l'.heap[m].refCount == l.heap[m].refCount
             + (if Refs(l'.threads[t].pc, m) then 1 else 0) - (if Refs(l.threads[t].pc, m) then 1 else 0)
  {
  }

  /** A goroutine that is about to delete a mutex is the last one to have it. */
  lemma LastUser(l: Lock, t: Tid, x: Tid)
    requires CreateInv(l) && CountInv(l) && CanAdvance(l, t)
    requires l.threads[t].pc.Checking? && l.heap[l.threads[t].pc.m].refCount == 0
    requires x in l.threads && x != t && HasMutex(l.threads[x].pc)
    ensures l.threads[x].pc.m != l.threads[t].pc.m
  {
    if l.threads[x].pc.m == l.threads[t].pc.m {
      RefSetMember(l.threads, x, l.threads[t].pc.m);
      assert false;
    }
  }

  lemma LockStepMap(l: Lock, t: Tid)
    requires MapInv(l) && CanAdvance(l, t) && InLockOrder(l.threads[t].pc)
    ensures MapInv(LockStep(l, t))
  {
    if l.threads[t].pc.Loading? { LoadingMap(l, t); } else { OtherLockMap(l, t); }
  }

  lemma LoadingMap(l: Lock, t: Tid)
    requires MapInv(l) && CanAdvance(l, t) && l.threads[t].pc.Loading?
    ensures MapInv(LockStep(l, t))
  {
  }

  lemma OtherLockMap(l: Lock, t: Tid)
    requires MapInv(l) && CanAdvance(l, t) && InLockOrder(l.threads[t].pc) && !l.threads[t].pc.Loading?
    ensures MapInv(LockStep(l, t))
  {
  }

  lemma UnlockStepMap(l: Lock, t: Tid)
    requires MapInv(l) && CreateInv(l) && CountInv(l) && CanAdvance(l, t) && !InLockOrder(l.threads[t].pc)
    ensures MapInv(UnlockStep(l, t))
  {
    if l.threads[t].pc.Checking? { DeleteMap(l, t); } else { OtherUnlockMap(l, t); }
  }

  lemma DeleteMap(l: Lock, t: Tid)
    requires MapInv(l) && CreateInv(l) && CountInv(l) && CanAdvance(l, t) && l.threads[t].pc.Checking?
    ensures MapInv(UnlockStep(l, t))
  {
    if l.heap[l.threads[t].pc.m].refCount == 0 {
      forall x | x in l.threads && x != t && HasMutex(l.threads[x].pc)
        ensures l.threads[x].pc.m != l.threads[t].pc.m
      {
        LastUser(l, t, x);
      }
    }
  }

  lemma OtherUnlockMap(l: Lock, t: Tid)
    requires MapInv(l) && CanAdvance(l, t) && !InLockOrder(l.threads[t].pc) && !l.threads[t].pc.Checking?
    ensures MapInv(UnlockStep(l, t))
  {
  }

  lemma LockStepCreate(l: Lock, t: Tid)
    requires CreateInv(l) && CanAdvance(l, t) && InLockOrder(l.threads[t].pc)
    ensures CreateInv(LockStep(l, t))
  {
  }

  lemma UnlockStepCreate(l: Lock, t: Tid)
    requires MapInv(l) && CreateInv(l) && CanAdvance(l, t) && !InLockOrder(l.threads[t].pc)
    ensures CreateInv(UnlockStep(l, t))
  {
  }

  lemma LockStepHolder(l: Lock, t: Tid)
    requires HolderInv(l) && CanAdvance(l, t) && InLockOrder(l.threads[t].pc)
    ensures HolderInv(LockStep(l, t))
  {
  }

  lemma UnlockStepHolder(l: Lock, t: Tid)
    requires MapInv(l) && HolderInv(l) && OwnerInv(l) && CanAdvance(l, t) && !InLockOrder(l.threads[t].pc)
    ensures HolderInv(UnlockStep(l, t))
  {
  }

  lemma LockStepOwner(l: Lock, t: Tid)
    requires MapInv(l) && OwnerInv(l) && CanAdvance(l, t) && InLockOrder(l.threads[t].pc)
    ensures OwnerInv(LockStep(l, t))
  {
  }

  /** UnlockOrder finds the mutex its goroutine locked, and that mutex is locked. */
  lemma UnlockStepOwner(l: Lock, t: Tid)
    requires MapInv(l) && OwnerInv(l) && CanAdvance(l, t) && !InLockOrder(l.threads[t].pc)
    ensures OwnerInv(UnlockStep(l, t))
    ensures UnlockStep(l, t).missed == l.missed && UnlockStep(l, t).crashed == l.crashed
  {
    UnlockFinds(l, t);
    if l.threads[t].pc.Critical? || l.threads[t].pc.Unlocking? { ReleasingOwner(l, t); } else { DoneOwner(l, t); }
  }

  lemma UnlockFinds(l: Lock, t: Tid)
    requires MapInv(l) && OwnerInv(l) && CanAdvance(l, t) && !InLockOrder(l.threads[t].pc)
    ensures UnlockStep(l, t).missed == l.missed && UnlockStep(l, t).crashed == l.crashed
  {
    if l.threads[t].pc.Critical? || l.threads[t].pc.Unlocking? { assert l.threads[t].order in l.orderLocks; }
  }

  lemma ReleasingOwner(l: Lock, t: Tid)
    requires MapInv(l) && OwnerInv(l) && CanAdvance(l, t) && (l.threads[t].pc.Critical? || l.threads[t].pc.Unlocking?)
    ensures OwnerInv(UnlockStep(l, t))
  {
  }

  lemma DoneOwner(l: Lock, t: Tid)
    requires OwnerInv(l) && CanAdvance(l, t) && !InLockOrder(l.threads[t].pc)
    requires !l.threads[t].pc.Critical? && !l.threads[t].pc.Unlocking?
    ensures OwnerInv(UnlockStep(l, t))
  {
  }

  lemma LockStepLive(l: Lock, t: Tid)
    requires MapInv(l) && CreateInv(l) && LiveInv(l) && CountInv(l) && CanAdvance(l, t) && InLockOrder(l.threads[t].pc)
    ensures LiveInv(LockStep(l, t))
  {
    if l.threads[t].pc.Loading? || l.threads[t].pc.Counting? { CreatingLive(l, t); } else { RestLive(l, t); }
  }

  lemma CreatingLive(l: Lock, t: Tid)
    requires MapInv(l) && CreateInv(l) && LiveInv(l) && CanAdvance(l, t)
    requires l.threads[t].pc.Loading? || l.threads[t].pc.Counting?
    requires l.threads[t].pc.Counting? ==> l.heap[l.threads[t].pc.m].refCount >= 0
    ensures LiveInv(LockStep(l, t))
  {
  }

  lemma RestLive(l: Lock, t: Tid)
    requires CreateInv(l) && LiveInv(l) && CountInv(l) && CanAdvance(l, t)
    requires l.threads[t].pc.WantCreate? || l.threads[t].pc.Counted? || l.threads[t].pc.Waiting?
    ensures LiveInv(LockStep(l, t))
  {
    var pc := l.threads[t].pc;
    if pc.Counted? { RefSetMember(l.threads, t, pc.m); }
  }

  lemma UnlockStepLive(l: Lock, t: Tid)
    requires MapInv(l) && CreateInv(l) && LiveInv(l) && CanAdvance(l, t) && !InLockOrder(l.threads[t].pc)
    ensures LiveInv(UnlockStep(l, t))
  {
    if l.threads[t].pc.Decrementing? || l.threads[t].pc.Checking? {
      DeletingLive(l, t);
    } else {
      OtherUnlockLive(l, t);
    }
  }

  lemma DeletingLive(l: Lock, t: Tid)
    requires MapInv(l) && CreateInv(l) && LiveInv(l) && CanAdvance(l, t)
    requires l.threads[t].pc.Decrementing? || l.threads[t].pc.Checking?
    ensures LiveInv(UnlockStep(l, t))
  {
  }

  lemma OtherUnlockLive(l: Lock, t: Tid)
    requires MapInv(l) && CreateInv(l) && LiveInv(l) && CanAdvance(l, t) && !InLockOrder(l.threads[t].pc)
    requires !l.threads[t].pc.Decrementing? && !l.threads[t].pc.Checking?
    ensures LiveInv(UnlockStep(l, t))
  {
  }

  lemma AdvanceKept(l: Lock, t: Tid)
    requires LockInv(l) && CanAdvance(l, t)
    ensures LockInv(Advance(l, t))
  {
    if InLockOrder(l.threads[t].pc) {
      LockStepCount(l, t);
      LockStepMap(l, t);
      LockStepCreate(l, t);
      LockStepHolder(l, t);
      LockStepOwner(l, t);
      LockStepLive(l, t);
    } else {
      UnlockStepCount(l, t);
      UnlockStepMap(l, t);
      UnlockStepCreate(l, t);
      UnlockStepHolder(l, t);
      UnlockStepOwner(l, t);
      UnlockStepLive(l, t);
    }
  }

  /** A step of one goroutine leaves the others where they are, and only its LockOrder makes it critical. */
  lemma OthersStay(l: Lock, t: Tid)
    requires CanAdvance(l, t)
    ensures forall x | x in Advance(l, t).threads ::
      && x in l.threads && Advance(l, t).threads[x].order == l.threads[x].order
      && (x != t ==> Advance(l, t).threads[x] == l.threads[x])
    ensures forall x | x in l.threads && x != t :: x in Advance(l, t).threads
    ensures l.threads[t].pc.Critical? && t in Advance(l, t).threads ==> !Advance(l, t).threads[t].pc.Critical?
  {
  }

  lemma OtherStays(l: Lock, t: Tid, x: Tid)
    requires CanAdvance(l, t) && x != t
    ensures x in Advance(l, t).threads <==> x in l.threads
    ensures x in l.threads ==> Advance(l, t).threads[x] == l.threads[x]
  {
    OthersStay(l, t);
  }

  /** The shared accesses that a goroutine still makes, up to the end of UnlockOrder. */
  function StepsLeft(pc: Pc): nat {
    match pc
    case WantCreate => 11
    case Loading => 10
    case Counting(_) => 9
    case Counted(_) => 8
    case Waiting(_) => 7
    case Critical(_) => 6
    case Unlocking(_) => 5
    case WantDecrement(_) => 4
    case Decrementing(_) => 3
    case Checking(_) => 2
    case Leaving => 1
  }

  /** Every access brings its goroutine one further: LockOrder takes five of them, UnlockOrder six, and then the
      goroutine is gone. */
  lemma AdvanceProgresses(l: Lock, t: Tid)
    requires LockInv(l) && CanAdvance(l, t)
    ensures t in Advance(l, t).threads <==> StepsLeft(l.threads[t].pc) > 1
    ensures t in Advance(l, t).threads ==> StepsLeft(Advance(l, t).threads[t].pc) == StepsLeft(l.threads[t].pc) - 1
  {
    if InLockOrder(l.threads[t].pc) { LockProgresses(l, t); } else { UnlockProgresses(l, t); }
  }

  lemma LockProgresses(l: Lock, t: Tid)
    requires CanAdvance(l, t) && InLockOrder(l.threads[t].pc)
    ensures t in LockStep(l, t).threads && StepsLeft(LockStep(l, t).threads[t].pc) == StepsLeft(l.threads[t].pc) - 1 > 0
  {
  }

  lemma UnlockProgresses(l: Lock, t: Tid)
    requires MapInv(l) && CanAdvance(l, t) && !InLockOrder(l.threads[t].pc)
    ensures t in UnlockStep(l, t).threads <==> StepsLeft(l.threads[t].pc) > 1
    ensures t in UnlockStep(l, t).threads ==>
      StepsLeft(UnlockStep(l, t).threads[t].pc) == StepsLeft(l.threads[t].pc) - 1
  {
  }

  // ---------------------------------------------------------------- what the invariant means

  /** Two goroutines are never in the critical section of one order. */
  lemma MutualExclusion(l: Lock, t: Tid, t': Tid)
    requires LockInv(l) && t in l.threads && t' in l.threads
    requires l.threads[t].pc.Critical? && l.threads[t'].pc.Critical? && l.threads[t].order == l.threads[t'].order
    ensures t == t'
  {
    assert l.threads[t].pc.m == l.threads[t'].pc.m;
  }

  /** Between calls of createLock's sections, the map holds a mutex for exactly the orders that some goroutine
      has counted itself in for, and its reference count is the number of those goroutines. */
  lemma MapIsExact(l: Lock, o: TradeNo)
    requires LockInv(l) && l.createLock.None?
    ensures o in l.orderLocks <==> exists t :: t in l.threads && l.threads[t].order == o && !l.threads[t].pc.WantCreate?
    ensures o in l.orderLocks ==>
      l.heap[l.orderLocks[o]].refCount ==
        |set t | t in l.threads && l.threads[t].order == o && !l.threads[t].pc.WantCreate?|
  {
    if o in l.orderLocks {
      var m := l.orderLocks[o];
      var users := set t | t in l.threads && l.threads[t].order == o && !l.threads[t].pc.WantCreate?;
      assert RefSet(l.threads, m) == users by {
        forall t ensures t in RefSet(l.threads, m) <==> t in users {}
      }
      assert users != {};
      var t :| t in users;
    }
  }

  /** When every goroutine is done the map is empty: no mutex leaks. */
  lemma QuiescentMapIsEmpty(l: Lock)
    requires LockInv(l) && l.threads == map[]
    ensures l.orderLocks == map[]
  {
    if o :| o in l.orderLocks { MapIsExact(l, o); }
  }

  /** Some goroutine can always take its next step. */
  lemma NoDeadlock(l: Lock)
    requires LockInv(l) && l.threads != map[]
    ensures exists t :: CanAdvance(l, t)
  {
    if l.createLock.Some? {
      assert CanAdvance(l, l.createLock.value);
    } else {
      var t :| t in l.threads;
      var pc := l.threads[t].pc;
      if pc.Waiting? && l.heap[pc.m].holder.Some? {
        assert CanAdvance(l, l.heap[pc.m].holder.value);
      } else {
        assert CanAdvance(l, t);
      }
    }
  }
}
