/**
 * What the synchronisation calls of a pthread program mean, independently of the tracker: where each
 * thread stands, who owns each mutex, the value of each semaphore and the state of each barrier
 * (section 2.9 of the System Interfaces volume of POSIX.1-2008).
 */
module Posix {
  import opened SerializerTypes

  /** Where a thread stands between two operations. */
  datatype Loc =
    | Running
    | TimedOut(mutex: Mutex)
    | Signalling(cond: Cond, broadcast: bool)
    | Ready
    | Locking(mutex: Mutex)
    | TryLocking(mutex: Mutex)
    | Joining(target: ThrID)
    | SemWaiting(sem: Sem)
    | CondWaiting(cond: Cond, mutex: Mutex)
    | TimedWaiting(cond: Cond, mutex: Mutex)
    | Relocking(mutex: Mutex, timedOut: bool)
    | AtBarrier(barrier: Barrier, round: nat)
    | Done

  /** `arrived` threads wait in the current round; `total` arrivals and `releases` since initialisation. */
  datatype BarrierState = BarrierState(count: nat, arrived: nat, round: nat, total: nat, releases: nat)

  datatype Os = Os(loc: map<ThrID, Loc>, owner: map<Mutex, ThrID>, sems: map<Sem, nat>,
                   barriers: map<Barrier, BarrierState>)

  datatype Op =
    | Create(child: ThrID)
    | Join(target: ThrID)
    | Lock(mutex: Mutex)
    | TryLock(mutex: Mutex)
    | Unlock(mutex: Mutex)
    | CondWait(cond: Cond, mutex: Mutex)
    | CondTimedwait(cond: Cond, mutex: Mutex)
    | Relock
    | Signal(cond: Cond, broadcast: bool)
    | SemWait(sem: Sem)
    | SemPost(sem: Sem)
    | BarrierWait(barrier: Barrier)
    | Pass
    | Finish
    | InitBarrier(barrier: Barrier, count: nat)
    | InitSem(sem: Sem, value: nat)

  predicate Free(os: Os, m: Mutex) {
    m !in os.owner
  }

  /** The pending operation of `t` can complete now. */
  predicate CanProceed(os: Os, t: ThrID)
    requires t in os.loc
  {
    match os.loc[t]
    case Locking(m) => Free(os, m)
    case Relocking(m, _) => Free(os, m)
    case Joining(u) => u in os.loc && os.loc[u] == Done
    case SemWaiting(s) => s in os.sems && os.sems[s] > 0
    case CondWaiting(_, _) => false
    case AtBarrier(b, round) => b in os.barriers && os.barriers[b].round > round
    case Done => false
    case _ => true
  }

  predicate WaitsOn(loc: Loc, c: Cond) {
    (loc.CondWaiting? || loc.TimedWaiting?) && loc.cond == c
  }

  predicate HasWaiter(os: Os, c: Cond) {
    exists t :: t in os.loc && WaitsOn(os.loc[t], c)
  }

  /** What the operation demands of the program. */
  ghost predicate Legal(os: Os, t: ThrID, op: Op) {
    && t in os.loc
    && (if os.loc[t].TimedOut? then op.Relock? else os.loc[t].Running? && !op.Relock?)
    && match op
       case Create(child) => child !in os.loc && child >= 0
       case Join(u) => u in os.loc && forall v :: v in os.loc ==> os.loc[v] != Joining(u)
       case Unlock(m) => m in os.owner && os.owner[m] == t
       case CondWait(_, m) => m in os.owner && os.owner[m] == t
       case CondTimedwait(_, m) => m in os.owner && os.owner[m] == t
       case SemWait(s) => s in os.sems
       case SemPost(s) => s in os.sems
       case BarrierWait(b) => b in os.barriers
       case InitBarrier(b, n) => n >= 1 && (b in os.barriers ==> os.barriers[b].arrived == 0)
       case InitSem(s, _) => forall v :: v in os.loc ==> os.loc[v] != SemWaiting(s)
       case _ => true
  }

  function Arrive(b: BarrierState): BarrierState {
    if b.arrived + 1 >= b.count then BarrierState(b.count, 0, b.round + 1, b.total + 1, b.releases + 1)
    else b.(arrived := b.arrived + 1, total := b.total + 1)
  }

  function NewBarrier(os: Os, b: Barrier, n: nat): BarrierState {
    BarrierState(n, 0, if b in os.barriers then os.barriers[b].round else 0, 0, 0)
  }

  /** The effect of starting an operation: the caller now stands at it. */
  function Begin(os: Os, t: ThrID, op: Op): Os
    requires Legal(os, t, op)
  {
    match op
    case Create(child) => os.(loc := os.loc[child := Ready][t := Ready])
    case Join(u) => os.(loc := os.loc[t := Joining(u)])
    case Lock(m) => os.(loc := os.loc[t := Locking(m)])
    case TryLock(m) => os.(loc := os.loc[t := TryLocking(m)])
    case Unlock(m) => os.(loc := os.loc[t := Ready], owner := os.owner - {m})
    case CondWait(c, m) => os.(loc := os.loc[t := CondWaiting(c, m)], owner := os.owner - {m})
    case CondTimedwait(c, m) => os.(loc := os.loc[t := TimedWaiting(c, m)], owner := os.owner - {m})
    case Relock => os.(loc := os.loc[t := Relocking(os.loc[t].mutex, true)])
    case Signal(c, broadcast) =>
      os.(loc := os.loc[t := if HasWaiter(os, c) then Signalling(c, broadcast) else Ready])
    case SemWait(s) => os.(loc := os.loc[t := SemWaiting(s)])
    case SemPost(s) => os.(loc := os.loc[t := Ready], sems := os.sems[s := os.sems[s] + 1])
    case BarrierWait(b) =>
      os.(loc := os.loc[t := AtBarrier(b, os.barriers[b].round)],
          barriers := os.barriers[b := Arrive(os.barriers[b])])
    case Pass => os.(loc := os.loc[t := Ready])
    case Finish => os.(loc := os.loc[t := Done])
    case InitBarrier(b, n) => os.(barriers := os.barriers[b := NewBarrier(os, b, n)])
    case InitSem(s, v) => os.(sems := os.sems[s := v])
  }

  /** A thread whose operation can proceed completes it; a timed wait completes by timing out. */
  function Resume(os: Os, t: ThrID): Os
    requires t in os.loc && CanProceed(os, t)
  {
    match os.loc[t]
    case Locking(m) => os.(loc := os.loc[t := Running], owner := os.owner[m := t])
    case Relocking(m, _) => os.(loc := os.loc[t := Running], owner := os.owner[m := t])
    case TryLocking(m) =>
      os.(loc := os.loc[t := Running], owner := if Free(os, m) then os.owner[m := t] else os.owner)
    case SemWaiting(s) => os.(loc := os.loc[t := Running], sems := os.sems[s := os.sems[s] - 1])
    case TimedWaiting(_, m) => os.(loc := os.loc[t := TimedOut(m)])
    case _ => os.(loc := os.loc[t := Running])
  }

  /** A waiter that was signalled stops waiting and queues for its mutex. */
  function Woken(os: Os, w: ThrID): Os
    requires w in os.loc && (os.loc[w].CondWaiting? || os.loc[w].TimedWaiting?)
  {
    os.(loc := os.loc[w := Relocking(os.loc[w].mutex, false)])
  }

  /** The signaller is done: one waiter for a signal, all of them for a broadcast. */
  predicate SignalDone(os: Os, signaller: ThrID)
    requires signaller in os.loc && os.loc[signaller].Signalling?
  {
    !os.loc[signaller].broadcast || !HasWaiter(os, os.loc[signaller].cond)
  }
}
