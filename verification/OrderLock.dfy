/**
  The per-order lock of the payment webhooks: a table of reference-counted
  mutexes whose entries are created and deleted on demand under a second,
  global mutex (`createLock`).

  Every atomic access of `LockOrder` and `UnlockOrder` is one step, and any
  number of threads interleave their steps in any order. A Go mutex has no
  owner: a step tests only whether it is locked and may unlock it from any
  thread. The locking thread is recorded so that the invariant can name it.
*/
module OrderLock {
  import opened Common

  type ThreadId = nat
  type TradeNo = string
  type MutexId = nat

  /** `owner` is set by the thread that locks; no step reads more of it than whether it is there. */
  datatype Mutex = Mutex(owner: Option<ThreadId>, refCount: int)

  datatype PC =
    | LockWant      // createLock.Lock()
    | LockLookup    // orderLocks.Load
    | LockStore     // orderLocks.Store of a fresh mutex
    | LockCount     // rcm.refCount++
    | LockLeave     // createLock.Unlock()
    | LockAcquire   // rcm.mu.Lock()
    | Critical      // between LockOrder and UnlockOrder
    | UnlockLoad    // orderLocks.Load, without createLock
    | UnlockRelease // rcm.mu.Unlock()
    | UnlockWant    // createLock.Lock()
    | UnlockCount   // rcm.refCount--
    | UnlockDelete  // delete the entry when the count is zero
    | UnlockLeave   // createLock.Unlock()
    | Leaked        // UnlockOrder found no entry and returned without unlocking
    | Crashed       // unlock of an unlocked mutex, a fatal error in Go

  /** `held` is the mutex LockOrder chose, `found` the one UnlockOrder loaded. */
  datatype Thread = Thread(pc: PC, trade: TradeNo, held: MutexId, found: MutexId)

  /** A thread outside both functions is absent from `threads`. */
  datatype LockState = LockState(
    creator: Option<ThreadId>,
    table: map<TradeNo, MutexId>,
    mutexes: seq<Mutex>,
    threads: map<ThreadId, Thread>)

  const START := LockState(None, map[], [], map[])

  datatype Action =
    | CallLock(t: ThreadId, trade: TradeNo)
    | CallUnlock(t: ThreadId)
    | Run(t: ThreadId)

  /** Whether thread `t` can take its next atomic step. */
  predicate CanRun(s: LockState, t: ThreadId) {
    t in s.threads &&
    var th := s.threads[t];
    match th.pc
    case LockWant => s.creator.None?
    case UnlockWant => s.creator.None?
    case LockAcquire => th.held < |s.mutexes| && s.mutexes[th.held].owner.None?
    case LockCount => th.held < |s.mutexes|
    case UnlockRelease => th.found < |s.mutexes|
    case UnlockCount => th.found < |s.mutexes|
    case UnlockDelete => th.found < |s.mutexes|
    case Critical => false
    case Leaked => false
    case Crashed => false
    case _ => true
  }

  function Goto(s: LockState, t: ThreadId, pc: PC): LockState
    requires t in s.threads
  {
    s.(threads := s.threads[t := s.threads[t].(pc := pc)])
  }

  /** One atomic step of the thread's code. */
  function RunStep(s: LockState, t: ThreadId): LockState
    requires CanRun(s, t)
  {
    var th := s.threads[t];
    match th.pc
    case LockWant => Goto(s, t, LockLookup).(creator := Some(t))
    case LockLookup =>
      if th.trade in s.table
      then s.(threads := s.threads[t := th.(pc := LockCount, held := s.table[th.trade])])
      else Goto(s, t, LockStore)
    case LockStore =>
      s.(mutexes := s.mutexes + [Mutex(None, 0)],
         table := s.table[th.trade := |s.mutexes|],
         threads := s.threads[t := th.(pc := LockCount, held := |s.mutexes|)])
    case LockCount => Goto(AddRef(s, th.held, 1), t, LockLeave)
    case LockLeave => Goto(s, t, LockAcquire).(creator := None)
    case LockAcquire => Goto(SetOwner(s, th.held, Some(t)), t, Critical)
    case UnlockLoad =>
      if th.trade in s.table
      then s.(threads := s.threads[t := th.(pc := UnlockRelease, found := s.table[th.trade])])
      else Goto(s, t, Leaked)
    case UnlockRelease =>
      if s.mutexes[th.found].owner.Some?
      then Goto(SetOwner(s, th.found, None), t, UnlockWant)
      else Goto(s, t, Crashed)
    case UnlockWant => Goto(s, t, UnlockCount).(creator := Some(t))
    case UnlockCount => Goto(AddRef(s, th.found, -1), t, UnlockDelete)
    case UnlockDelete =>
      if s.mutexes[th.found].refCount == 0
      then Goto(s, t, UnlockLeave).(table := s.table - {th.trade})
      else Goto(s, t, UnlockLeave)
    case UnlockLeave => s.(creator := None, threads := s.threads - {t})
    case _ => s
  }

  function AddRef(s: LockState, m: MutexId, d: int): LockState
    requires m < |s.mutexes|
  {
    s.(mutexes := s.mutexes[m := s.mutexes[m].(refCount := s.mutexes[m].refCount + d)])
  }

  function SetOwner(s: LockState, m: MutexId, b: Option<ThreadId>): LockState
    requires m < |s.mutexes|
  {
    s.(mutexes := s.mutexes[m := s.mutexes[m].(owner := b)])
  }

  predicate Enabled(s: LockState, a: Action) {
    match a
    case CallLock(t, _) => t !in s.threads
    case CallUnlock(t) => t in s.threads && s.threads[t].pc.Critical?
    case Run(t) => CanRun(s, t)
  }

  function Step(s: LockState, a: Action): LockState
    requires Enabled(s, a)
  {
    match a
    case CallLock(t, trade) => s.(threads := s.threads[t := Thread(LockWant, trade, 0, 0)])
    case CallUnlock(t) => Goto(s, t, UnlockLoad)
    case Run(t) => RunStep(s, t)
  }

  // ---- what every interleaving keeps ----

  /** Inside the section guarded by createLock. */
  predicate InCreate(th: Thread) {
    (th.pc.LockLookup? || th.pc.LockStore? || th.pc.LockCount? || th.pc.LockLeave? || th.pc.UnlockCount? || th.pc.UnlockDelete? || th.pc.UnlockLeave?)
  }

  /** Counted in refCount: from the increment until the decrement. */
  predicate Claims(th: Thread) {
    (th.pc.LockLeave? || th.pc.LockAcquire? || th.pc.Critical? || th.pc.UnlockLoad? || th.pc.UnlockRelease? || th.pc.UnlockWant? || th.pc.UnlockCount?)
  }

  predicate Holds(th: Thread) {
    (th.pc.Critical? || th.pc.UnlockLoad? || th.pc.UnlockRelease?)
  }

  /** Knows its mutex and relies on the table still mapping to it. */
  predicate Attached(th: Thread) {
    Claims(th) || (th.pc.LockCount? || th.pc.UnlockDelete?)
  }

  predicate AfterLoad(th: Thread) {
    (th.pc.UnlockRelease? || th.pc.UnlockWant? || th.pc.UnlockCount? || th.pc.UnlockDelete?)
  }

  function Claimants(s: LockState, trade: TradeNo): set<ThreadId> {
    set t | t in s.threads && Claims(s.threads[t]) && s.threads[t].trade == trade
  }

  ghost predicate ThreadOk(s: LockState, t: ThreadId)
    requires t in s.threads
  {
    var th := s.threads[t];
    && (InCreate(th) <==> s.creator == Some(t))
    && (Attached(th) ==> th.trade in s.table && s.table[th.trade] == th.held)
    && (AfterLoad(th) ==> th.found == th.held)
    && (th.pc.LockStore? ==> th.trade !in s.table)
    && (Holds(th) ==> th.held < |s.mutexes| && s.mutexes[th.held].owner == Some(t))
    && !th.pc.Leaked? && !th.pc.Crashed?
  }

  /** An entry counts its claimants, and stays only while it has one or createLock is held to add or remove one. */
  ghost predicate EntryOk(s: LockState, k: TradeNo)
    requires k in s.table
  {
    && s.table[k] < |s.mutexes|
    && s.mutexes[s.table[k]].refCount == |Claimants(s, k)|
    && (Claimants(s, k) == {} ==>
          && s.creator.Some? && s.creator.value in s.threads
          && s.threads[s.creator.value].trade == k
          && (s.threads[s.creator.value].pc.LockCount? || s.threads[s.creator.value].pc.UnlockDelete?))
  }

  ghost predicate MutexOk(s: LockState, m: MutexId)
    requires m < |s.mutexes|
  {
    s.mutexes[m].owner.Some? ==>
      var t := s.mutexes[m].owner.value;
      t in s.threads && Holds(s.threads[t]) && s.threads[t].held == m
  }

  ghost predicate Inv(s: LockState) {
    && (forall t :: t in s.threads ==> ThreadOk(s, t))
    && (forall k :: k in s.table ==> EntryOk(s, k))
    && (forall m :: 0 <= m < |s.mutexes| ==> MutexOk(s, m))
    && (forall k, l :: k in s.table && l in s.table && k != l ==> s.table[k] != s.table[l])
    && (s.creator.Some? ==> s.creator.value in s.threads)
  }

  /** A step of `t` that neither claims nor gives up a number leaves every number's claimants alone. */
  lemma ClaimantsSame(s: LockState, s': LockState, t: ThreadId, k: TradeNo)
    requires t in s'.threads && s'.threads == s.threads[t := s'.threads[t]]
    requires t in s.threads ==> s'.threads[t].trade == s.threads[t].trade
    requires Claims(s'.threads[t]) <==> t in s.threads && Claims(s.threads[t])
    ensures Claimants(s', k) == Claimants(s, k)
  {
  }

  lemma ClaimantsAdded(s: LockState, s': LockState, t: ThreadId, k: TradeNo)
    requires t in s.threads && t in s'.threads && s'.threads == s.threads[t := s'.threads[t]]
    requires s'.threads[t].trade == s.threads[t].trade && Claims(s'.threads[t]) && !Claims(s.threads[t])
    ensures t !in Claimants(s, k)
    ensures Claimants(s', k) == if k == s.threads[t].trade then Claimants(s, k) + {t} else Claimants(s, k)
  {
  }

  lemma ClaimantsRemoved(s: LockState, s': LockState, t: ThreadId, k: TradeNo)
    requires t in s.threads && t in s'.threads && s'.threads == s.threads[t := s'.threads[t]]
    requires s'.threads[t].trade == s.threads[t].trade && !Claims(s'.threads[t]) && Claims(s.threads[t])
    ensures t in Claimants(s, s.threads[t].trade)
    ensures Claimants(s', k) == if k == s.threads[t].trade then Claimants(s, k) - {t} else Claimants(s, k)
  {
  }

  lemma KeepSelf(s: LockState, t: ThreadId)
    requires CanRun(s, t) && ThreadOk(s, t) && t in RunStep(s, t).threads
    requires s.threads[t].trade in s.table ==> EntryOk(s, s.threads[t].trade)
    ensures ThreadOk(RunStep(s, t), t)
  {
  }

  lemma KeepOther(s: LockState, t: ThreadId, u: ThreadId)
    requires CanRun(s, t) && ThreadOk(s, t) && t != u && u in s.threads && ThreadOk(s, u)
    requires s.threads[t].trade in s.table ==> EntryOk(s, s.threads[t].trade)
    ensures ThreadOk(RunStep(s, t), u)
  {
    if s.threads[t].pc.UnlockDelete? {
      assert Claims(s.threads[u]) ==> u in Claimants(s, s.threads[u].trade);
    }
  }

  lemma KeepMutexes(s: LockState, t: ThreadId, m: MutexId)
    requires CanRun(s, t) && ThreadOk(s, t) && m < |RunStep(s, t).mutexes|
    requires m < |s.mutexes| ==> MutexOk(s, m)
    ensures MutexOk(RunStep(s, t), m)
  {
  }

  lemma KeepCounted(s: LockState, t: ThreadId, k: TradeNo)
    requires Inv(s) && CanRun(s, t) && k in s.table
    requires s.threads[t].pc.LockCount? || s.threads[t].pc.UnlockCount?
    ensures EntryOk(RunStep(s, t), k)
  {
    assert ThreadOk(s, t) && EntryOk(s, k);
    if s.threads[t].pc.LockCount? {
      ClaimantsAdded(s, RunStep(s, t), t, k);
    } else {
      ClaimantsRemoved(s, RunStep(s, t), t, k);
    }
  }

  lemma KeepStored(s: LockState, t: ThreadId, k: TradeNo)
    requires Inv(s) && CanRun(s, t) && k in RunStep(s, t).table && s.threads[t].pc.LockStore?
    ensures EntryOk(RunStep(s, t), k)
  {
    assert ThreadOk(s, t);
    ClaimantsSame(s, RunStep(s, t), t, k);
    if k in s.table {
      assert EntryOk(s, k);
    } else {
      assert Claimants(s, k) == {} by {
        forall u | u in s.threads && Claims(s.threads[u]) ensures s.threads[u].trade != k { assert ThreadOk(s, u); }
      }
    }
  }

  lemma KeepEntry(s: LockState, t: ThreadId, k: TradeNo)
    requires CanRun(s, t) && ThreadOk(s, t) && k in s.table && EntryOk(s, k) && k in RunStep(s, t).table
    requires !s.threads[t].pc.LockStore? && !s.threads[t].pc.LockCount? && !s.threads[t].pc.UnlockCount?
    ensures EntryOk(RunStep(s, t), k)
  {
    var s' := RunStep(s, t);
    if s.threads[t].pc.UnlockLeave? {
      assert Claimants(s', k) == Claimants(s, k);
    } else {
      ClaimantsSame(s, s', t, k);
    }
  }

  lemma KeepTable(s: LockState, t: ThreadId, k: TradeNo)
    requires Inv(s) && CanRun(s, t) && k in RunStep(s, t).table
    ensures EntryOk(RunStep(s, t), k)
  {
    assert ThreadOk(s, t);
    match s.threads[t].pc
    case LockStore => KeepStored(s, t, k);
    case LockCount => KeepCounted(s, t, k);
    case UnlockCount => KeepCounted(s, t, k);
    case _ => KeepEntry(s, t, k);
  }

  lemma CallKeepsThread(s: LockState, a: Action, u: ThreadId)
    requires Enabled(s, a) && !a.Run? && u in Step(s, a).threads && (u in s.threads ==> ThreadOk(s, u))
    requires s.creator.Some? ==> s.creator.value in s.threads
    ensures ThreadOk(Step(s, a), u)
  {
  }

  lemma CallKeepsRest(s: LockState, a: Action)
    requires Enabled(s, a) && !a.Run?
    ensures Step(s, a).table == s.table && Step(s, a).mutexes == s.mutexes && Step(s, a).creator == s.creator
    ensures s.threads.Keys <= Step(s, a).threads.Keys
    ensures forall k :: k in s.table && EntryOk(s, k) ==> EntryOk(Step(s, a), k)
    ensures forall m :: 0 <= m < |s.mutexes| && MutexOk(s, m) ==> MutexOk(Step(s, a), m)
  {
    forall k | k in s.table && EntryOk(s, k) ensures EntryOk(Step(s, a), k) { ClaimantsSame(s, Step(s, a), a.t, k); }
  }

  lemma KeepCall(s: LockState, a: Action)
    requires Inv(s) && Enabled(s, a) && !a.Run?
    ensures Inv(Step(s, a))
  {
    CallKeepsRest(s, a);
    hide Step, Enabled, ThreadOk, EntryOk, MutexOk;
    forall u | u in Step(s, a).threads ensures ThreadOk(Step(s, a), u) { CallKeepsThread(s, a, u); }
  }

  lemma KeepThreads(s: LockState, t: ThreadId, u: ThreadId)
    requires Inv(s) && CanRun(s, t) && u in RunStep(s, t).threads
    ensures ThreadOk(RunStep(s, t), u)
  {
    assert ThreadOk(s, u) && ThreadOk(s, t);
    assert s.threads[t].trade in s.table ==> EntryOk(s, s.threads[t].trade);
    if u == t { KeepSelf(s, u); } else { KeepOther(s, t, u); }
  }

  lemma KeepRun(s: LockState, t: ThreadId)
    requires Inv(s) && CanRun(s, t)
    ensures Inv(RunStep(s, t))
  {
    var s' := RunStep(s, t);
    assert ThreadOk(s, t);
    forall u | u in s'.threads ensures ThreadOk(s', u) { KeepThreads(s, t, u); }
    forall k | k in s'.table ensures EntryOk(s', k) && (k in s.table ==> s.table[k] < |s.mutexes|) {
      KeepTable(s, t, k);
      assert k in s.table ==> EntryOk(s, k);
    }
    forall m | 0 <= m < |s'.mutexes| ensures MutexOk(s', m) {
      assert m < |s.mutexes| ==> MutexOk(s, m);
      KeepMutexes(s, t, m);
    }
  }

  /** Every atomic step of every thread preserves the invariant. */
  lemma StepKeepsInv(s: LockState, a: Action)
    requires Inv(s) && Enabled(s, a)
    ensures Inv(Step(s, a))
  {
    if a.Run? { KeepRun(s, a.t); } else { KeepCall(s, a); }
  }

  // ---- whole runs ----

  /** A run: `s[i+1]` follows from `s[i]` by the enabled action `a[i]`, from the empty table. */
  ghost predicate IsRun(s: seq<LockState>, a: seq<Action>) {
    && |s| == |a| + 1 && s[0] == START
    && forall i :: 0 <= i < |a| ==> Enabled(s[i], a[i]) && s[i + 1] == Step(s[i], a[i])
  }

  lemma {:induction false} RunKeepsInv(s: seq<LockState>, a: seq<Action>, i: nat)
    requires IsRun(s, a) && i < |s|
    ensures Inv(s[i])
    decreases i
  {
    if i > 0 {
      RunKeepsInv(s, a, i - 1);
      StepKeepsInv(s[i - 1], a[i - 1]);
    }
  }

  /** What LockOrder and UnlockOrder promise their callers, read off one state. */
  ghost predicate Safe(s: LockState) {
    && (forall t, u :: t in s.threads && u in s.threads && Holds(s.threads[t]) && Holds(s.threads[u]) ==>
          s.threads[t].trade == s.threads[u].trade ==> t == u)
    && (forall t :: t in s.threads && Claims(s.threads[t]) ==>
          s.threads[t].trade in s.table && s.table[s.threads[t].trade] == s.threads[t].held)
    && (forall k :: k in s.table ==>
          s.table[k] < |s.mutexes| && s.mutexes[s.table[k]].refCount == |Claimants(s, k)|)
    && (s.creator.None? ==> forall k :: k in s.table <==> Claimants(s, k) != {})
    && (forall t :: t in s.threads ==> !s.threads[t].pc.Leaked? && !s.threads[t].pc.Crashed?)
  }

  lemma InvIsSafe(s: LockState)
    requires Inv(s)
    ensures Safe(s)
  {
    forall t, u | t in s.threads && u in s.threads && Holds(s.threads[t]) && Holds(s.threads[u])
                  && s.threads[t].trade == s.threads[u].trade
      ensures t == u
    {
      assert ThreadOk(s, t) && ThreadOk(s, u);
    }
    forall t | t in s.threads
      ensures !s.threads[t].pc.Leaked? && !s.threads[t].pc.Crashed?
      ensures Claims(s.threads[t]) ==> s.threads[t].trade in s.table && s.table[s.threads[t].trade] == s.threads[t].held
    {
      assert ThreadOk(s, t);
    }
    forall k | k in s.table
      ensures s.table[k] < |s.mutexes| && s.mutexes[s.table[k]].refCount == |Claimants(s, k)|
      ensures s.creator.None? ==> Claimants(s, k) != {}
    {
      assert EntryOk(s, k);
    }
  }

  /** In every interleaving of any number of threads, every state is safe. */
  lemma EveryRunIsSafe(s: seq<LockState>, a: seq<Action>, i: nat)
    requires IsRun(s, a) && i < |s|
    ensures Safe(s[i])
  {
    RunKeepsInv(s, a, i);
    InvIsSafe(s[i]);
  }

  /** UnlockOrder releases the very mutex its caller locked in LockOrder, and no other. */
  lemma UnlockReleasesOwnMutex(s: seq<LockState>, a: seq<Action>, i: nat)
    requires IsRun(s, a) && i < |a| && a[i].Run? && s[i].threads[a[i].t].pc.UnlockRelease?
    ensures var th := s[i].threads[a[i].t];
            && th.found == th.held < |s[i].mutexes|
            && s[i].mutexes[th.held].owner == Some(a[i].t)
            && s[i + 1].mutexes == s[i].mutexes[th.held := s[i].mutexes[th.held].(owner := None)]
  {
    RunKeepsInv(s, a, i);
    assert ThreadOk(s[i], a[i].t);
  }

  /** No deadlock: while threads are inside, one can move or one is between LockOrder and UnlockOrder. */
  lemma SomeThreadCanMove(s: seq<LockState>, a: seq<Action>, i: nat)
    requires IsRun(s, a) && i < |s| && s[i].threads != map[]
    ensures exists t :: t in s[i].threads && (CanRun(s[i], t) || s[i].threads[t].pc.Critical?)
  {
    RunKeepsInv(s, a, i);
    var now := s[i];
    var t :| t in now.threads;
    assert ThreadOk(now, t);
    if now.creator.Some? {
      assert ThreadOk(now, now.creator.value);
      if now.threads[now.creator.value].trade in now.table { assert EntryOk(now, now.threads[now.creator.value].trade); }
      assert CanRun(now, now.creator.value);
    } else if now.threads[t].pc.LockAcquire? {
      assert EntryOk(now, now.threads[t].trade);
      var m := now.mutexes[now.threads[t].held];
      if m.owner.Some? {
        assert MutexOk(now, now.threads[t].held) && ThreadOk(now, m.owner.value);
        assert CanRun(now, m.owner.value) || now.threads[m.owner.value].pc.Critical?;
      } else {
        assert CanRun(now, t);
      }
    } else {
      assert CanRun(now, t) || now.threads[t].pc.Critical?;
    }
  }

  /** How many steps of its own a thread needs at most until it holds the lock, or until it has returned. */
  function StepsLeft(pc: PC): nat {
    match pc
    case LockWant => 6 case LockLookup => 5 case LockStore => 4 case LockCount => 3 case LockLeave => 2 case LockAcquire => 1
    case Critical => 0
    case UnlockLoad => 6 case UnlockRelease => 5 case UnlockWant => 4 case UnlockCount => 3 case UnlockDelete => 2 case UnlockLeave => 1
    case _ => 0
  }

  lemma StepIsProgress(s: LockState, t: ThreadId)
    requires CanRun(s, t) && ThreadOk(s, t)
    ensures var pc, s' := s.threads[t].pc, RunStep(s, t);
            if pc.UnlockLeave? then t !in s'.threads
            else t in s'.threads && StepsLeft(s'.threads[t].pc) < StepsLeft(pc) && (pc.LockAcquire? <==> s'.threads[t].pc.Critical?)
  {
    hide Claims;
  }

  /** Every step brings its thread closer: a lock call ends in its critical section, an unlock call ends. */
  lemma EveryStepIsProgress(s: LockState, t: ThreadId)
    requires Inv(s) && CanRun(s, t)
    ensures var pc, s' := s.threads[t].pc, RunStep(s, t);
            if pc.UnlockLeave? then t !in s'.threads
            else t in s'.threads && StepsLeft(s'.threads[t].pc) < StepsLeft(pc) && (pc.LockAcquire? <==> s'.threads[t].pc.Critical?)
  {
    assert ThreadOk(s, t);
    hide RunStep, Inv, ThreadOk;
    StepIsProgress(s, t);
  }

  /** No leak: once every caller has returned, no entry is left behind. */
  lemma TableEmptiesOut(s: seq<LockState>, a: seq<Action>, i: nat)
    requires IsRun(s, a) && i < |s| && s[i].threads == map[]
    ensures s[i].table == map[]
  {
    RunKeepsInv(s, a, i);
    forall k ensures k !in s[i].table {
      assert Claimants(s[i], k) == {};
    }
  }
}
