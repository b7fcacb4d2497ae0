/**
 * The serializer protocol: the tracker's maps run in lockstep with the POSIX machine, one thread at a
 * time. `Invariant` ties the two together; `Apply` is one step of the protocol.
 */
module Serializer {
  import opened SerializerTypes
  import opened Posix
  import opened Tracker

  datatype Mode =
    | Run(thread: ThrID)                           // this thread executes program code
    | Choosing(caller: ThrID)                      // the caller is at a scheduling point
    | Posted(thread: ThrID)                        // the thread's semaphore has been posted
    | Selecting(signaller: ThrID)                  // the signaller picks a waiter to wake
    | Handoff(signaller: ThrID, target: ThrID)     // the signaller sleeps until its target has queued
    | Deadlock

  /** `paused` and `demoted` are empty except under the active testers. */
  datatype Sys = Sys(tr: Maps, os: Os, mode: Mode, paused: set<ThrID>, demoted: set<ThrID>)

  datatype Step =
    | Perform(op: Op)
    | Dispatch(next: ThrID)
    | Report
    | Wake
    | Select(waiter: ThrID)
    | Rejoin
    | Pause(thread: ThrID)
    | Reenable(thread: ThrID)

  type Locs = map<ThrID, Loc>

  // ---------------------------------------------------------------- the invariant, map by map

  /** The thread's operation can proceed and no tester holds it back. */
  predicate Able(os: Os, paused: set<ThrID>, demoted: set<ThrID>, t: ThrID)
    requires t in os.loc
  {
    && CanProceed(os, t)
    && t !in paused
    && (t in demoted && os.loc[t].TryLocking? ==> Free(os, os.loc[t].mutex))
  }

  ghost predicate EnabledOk(enabled: map<ThrID, bool>, os: Os, paused: set<ThrID>, demoted: set<ThrID>) {
    && enabled.Keys == os.loc.Keys
    && forall t :: t in enabled ==> (enabled[t] <==> Able(os, paused, demoted, t))
  }

  ghost predicate FinishedOk(finished: map<ThrID, bool>, loc: Locs) {
    finished.Keys == loc.Keys && forall t :: t in finished ==> (finished[t] <==> loc[t].Done?)
  }

  /** The mutex the tracker has queued a thread on. */
  function QueuedOn(l: Loc, demoted: bool): Option<Mutex> {
    if l.Locking? || l.Relocking? || (l.TryLocking? && demoted) then Some(l.mutex) else None
  }

  /** Ready on the mutex while it is free, waiting on it while it is owned. */
  ghost predicate LocksOk(ready: map<ThrID, Option<Mutex>>, wait: map<ThrID, Option<Mutex>>,
                          loc: Locs, owner: map<Mutex, ThrID>, demoted: set<ThrID>)
  {
    && ready.Keys == loc.Keys && wait.Keys == loc.Keys
    && forall t :: t in loc ==>
         var q := QueuedOn(loc[t], t in demoted);
         && ready[t] == (if q.Some? && q.value !in owner then q else None)
         && wait[t] == (if q.Some? && q.value in owner then q else None)
  }

  ghost predicate SemsOk(ready: map<ThrID, Option<Sem>>, wait: map<ThrID, Option<Sem>>,
                         loc: Locs, sems: map<Sem, nat>)
  {
    && ready.Keys == loc.Keys && wait.Keys == loc.Keys
    && forall t :: t in loc ==>
         if loc[t].SemWaiting? then
           && loc[t].sem in sems
           && ready[t] == (if sems[loc[t].sem] > 0 then Some(loc[t].sem) else None)
           && wait[t] == (if sems[loc[t].sem] > 0 then None else Some(loc[t].sem))
         else ready[t] == None && wait[t] == None
  }

  predicate OnCondition(l: Loc) {
    l.CondWaiting? || l.TimedWaiting?
  }

  ghost predicate CondsOk(onCond: map<ThrID, Option<Cond>>, loc: Locs) {
    && onCond.Keys == loc.Keys
    && forall t :: t in loc ==> onCond[t] == if OnCondition(loc[t]) then Some(loc[t].cond) else None
  }

  /** A join is registered with its target until the target finishes. */
  ghost predicate JoinsOk(joiner: map<ThrID, ThrID>, loc: Locs) {
    && joiner.Keys == loc.Keys
    && (forall t :: t in loc && loc[t].Joining? ==>
          loc[t].target in loc && (!loc[loc[t].target].Done? ==> joiner[loc[t].target] == t))
    && (forall u :: u in loc && joiner[u] != UNJOINED && !loc[u].Done? ==>
          joiner[u] in loc && loc[joiner[u]] == Joining(u))
  }

  predicate WaitsInRound(l: Loc, barriers: map<Barrier, BarrierState>) {
    l.AtBarrier? && l.barrier in barriers && l.round == barriers[l.barrier].round
  }

  ghost predicate BarriersOk(onBarrier: map<ThrID, Option<Barrier>>, count: map<Barrier, nat>,
                             loc: Locs, barriers: map<Barrier, BarrierState>)
  {
    && onBarrier.Keys == loc.Keys
    && count.Keys == barriers.Keys
    && (forall t :: t in loc ==>
          && onBarrier[t] == (if WaitsInRound(loc[t], barriers) then Some(loc[t].barrier) else None)
          && (loc[t].AtBarrier? ==>
                loc[t].barrier in barriers && loc[t].round <= barriers[loc[t].barrier].round))
    && (forall b :: b in barriers ==> BarrierOk(onBarrier, count, b, barriers[b]))
  }

  ghost predicate BarrierOk(onBarrier: map<ThrID, Option<Barrier>>, count: map<Barrier, nat>,
                            b: Barrier, bar: BarrierState)
    requires b in count
  {
    && bar.count == count[b]
    && bar.arrived == |Queued(onBarrier, b)|
    && bar.arrived < bar.count
    && bar.total == bar.count * bar.releases + bar.arrived
  }

  /** At most one semaphore is posted, and it is the one its owner sleeps on. */
  ghost predicate TokensOk(pauseSem: map<ThrID, nat>, waitSem: map<ThrID, nat>,
                           waitReady: map<ThrID, bool>, wasSignalled: map<ThrID, bool>,
                           loc: Locs, mode: Mode)
  {
    && pauseSem.Keys == loc.Keys && waitSem.Keys == loc.Keys
    && waitReady.Keys == loc.Keys && wasSignalled.Keys == loc.Keys
    && forall t :: t in loc ==>
         var posted, handed := mode == Posted(t), mode.Handoff? && mode.target == t;
         && pauseSem[t] == (if posted && !OnCondition(loc[t]) then 1 else 0)
         && waitSem[t] == (if handed || (posted && OnCondition(loc[t])) then 1 else 0)
         && waitReady[t] == !handed
         && wasSignalled[t] == !(loc[t].TimedOut? || (posted && loc[t].TimedWaiting?))
  }

  // ---------------------------------------------------------------- modes and testers

  predicate Active(l: Loc) {
    l.Running? || l.TimedOut?
  }

  predicate Busy(l: Loc) {
    Active(l) || l.Signalling?
  }

  /** Nobody but `t` is inside the program or inside a signal call. */
  ghost predicate OnlyBusy(loc: Locs, t: ThrID) {
    forall u :: u in loc && Busy(loc[u]) ==> u == t
  }

  /** Only the thread named by the mode is inside the program or inside a signal call. */
  ghost predicate ModeOk(mode: Mode, os: Os) {
    match mode
    case Run(t) => t in os.loc && Active(os.loc[t]) && OnlyBusy(os.loc, t)
    case Choosing(c) => c in os.loc && OnlyBusy(os.loc, INVALID_THREAD)
    case Posted(t) => t in os.loc && CanProceed(os, t) && OnlyBusy(os.loc, INVALID_THREAD)
    case Selecting(g) =>
      g in os.loc && os.loc[g].Signalling? && HasWaiter(os, os.loc[g].cond) && OnlyBusy(os.loc, g)
    case Handoff(g, w) =>
      && g in os.loc && os.loc[g].Signalling? && OnlyBusy(os.loc, g)
      && w in os.loc && WaitsOn(os.loc[w], os.loc[g].cond)
    case Deadlock => OnlyBusy(os.loc, INVALID_THREAD)
  }

  predicate Pausable(l: Loc) {
    l.Locking? || l.TryLocking? || l.Relocking? || l.Ready?
  }

  ghost predicate TestersOk(paused: set<ThrID>, demoted: set<ThrID>, loc: Locs) {
    && (forall t :: t in paused ==> t in loc && Pausable(loc[t]))
    && (forall t :: t in demoted ==> t in loc && loc[t].TryLocking?)
    && paused !! demoted
  }

  /** Who may move. */
  ghost predicate Shape(s: Sys) {
    && (forall t :: t in s.os.loc ==> t >= 0)
    && ModeOk(s.mode, s.os)
    && (s.mode.Posted? ==> Able(s.os, s.paused, s.demoted, s.mode.thread))
    && TestersOk(s.paused, s.demoted, s.os.loc)
  }

  ghost predicate Invariant(s: Sys) {
    && Shape(s)
    && EnabledOk(s.tr.enabled, s.os, s.paused, s.demoted)
    && FinishedOk(s.tr.finished, s.os.loc)
    && LocksOk(s.tr.lockReady, s.tr.lockWait, s.os.loc, s.os.owner, s.demoted)
    && SemsOk(s.tr.semReady, s.tr.semWait, s.os.loc, s.os.sems)
    && CondsOk(s.tr.onCond, s.os.loc)
    && JoinsOk(s.tr.joiner, s.os.loc)
    && BarriersOk(s.tr.onBarrier, s.tr.barrierCount, s.os.loc, s.os.barriers)
    && TokensOk(s.tr.pauseSem, s.tr.waitSem, s.tr.waitReady, s.tr.wasSignalled, s.os.loc, s.mode)
  }

  // ---------------------------------------------------------------- steps

  ghost predicate StepLegal(s: Sys, step: Step) {
    match step
    case Perform(op) => s.mode.Run? && Legal(s.os, s.mode.thread, op)
    case Dispatch(next) => s.mode.Choosing? && next in s.tr.enabled && s.tr.enabled[next]
    case Report => s.mode.Choosing? && !SomeEnabled(s.tr)
    case Wake => s.mode.Posted?
    case Select(w) =>
      && s.mode.Selecting? && s.mode.signaller in s.os.loc && s.os.loc[s.mode.signaller].Signalling?
      && w in s.tr.onCond && s.tr.onCond[w] == Some(s.os.loc[s.mode.signaller].cond)
    case Rejoin => s.mode.Handoff?
    case Pause(t) =>
      && (s.mode.Choosing? || s.mode.Selecting?)
      && t in s.os.loc && Pausable(s.os.loc[t]) && t !in s.paused && t !in s.demoted
    case Reenable(t) => (s.mode.Choosing? || s.mode.Selecting?) && t in s.paused
  }

  /** The mode after an operation: initialisations do not schedule, a heard signal selects a waiter. */
  function ModeAfter(os: Os, t: ThrID, op: Op): Mode {
    if op.InitBarrier? || op.InitSem? then Run(t)
    else if op.Signal? && HasWaiter(os, op.cond) then Selecting(t)
    else Choosing(t)
  }

  /** What the hook of an operation does to the tracker. */
  ghost function PerformMaps(s: Sys, op: Op): Maps
    requires s.mode.Run? && Legal(s.os, s.mode.thread, op)
  {
    var tr, os, t := s.tr, s.os, s.mode.thread;
    match op
    case Create(child) => Initialize(tr, child)
    case Join(u) => BeforeJoin(tr, t, u)
    case Lock(m) => DetermineLock(tr, Free(os, m), t, m)
    case TryLock(m) => Enable(tr, t)
    case Unlock(m) => AfterUnlock(tr, m, s.paused)
    case CondWait(c, m) =>
      AfterUnlock(Disable(tr, t), m, s.paused).(onCond := tr.onCond[t := Some(c)])
    case CondTimedwait(c, m) =>
      AfterUnlock(Enable(tr, t), m, s.paused).(onCond := tr.onCond[t := Some(c)])
    case Relock =>
      DetermineLock(tr, Free(os, os.loc[t].mutex), t, os.loc[t].mutex)
        .(wasSignalled := tr.wasSignalled[t := true])
    case Signal(c, _) => if HasWaiter(os, c) then tr else Enable(tr, t)
    case SemWait(x) => DetermineSem(tr, os.sems[x], t, x)
    case SemPost(x) => SemPosted(tr, x)
    case BarrierWait(b) => BeforeBarrier(tr, t, b)
    case Pass => tr
    case Finish => Finalize(tr, t)
    case InitBarrier(b, n) => tr.(barrierCount := tr.barrierCount[b := n])
    case InitSem(_, _) => tr
  }

  /** What a resumed thread does to the tracker before it returns to the program. */
  ghost function WakeMaps(s: Sys): Maps
    requires Shape(s) && s.mode.Posted?
  {
    var tr, os, t := s.tr, s.os, s.mode.thread;
    var loc := os.loc[t];
    if loc.TimedWaiting? then LeaveCond(tr, t)
    else if loc.Locking? || loc.Relocking? || (loc.TryLocking? && Free(os, loc.mutex)) then
      Acquired(Unpause(tr, t), t, loc.mutex)
    else if loc.SemWaiting? then Passed(Unpause(tr, t), os.sems[loc.sem] - 1, t, loc.sem)
    else Unpause(tr, t)
  }

  /** The woken waiter leaves the condition, queues for its mutex and lets the signaller continue. */
  ghost function RejoinMaps(s: Sys): Maps
    requires Shape(s) && s.mode.Handoff?
  {
    var tr, os, g, w := s.tr, s.os, s.mode.signaller, s.mode.target;
    var m := os.loc[w].mutex;
    var r := DetermineLock(LeaveCond(tr, w), Free(os, m), w, m).(waitReady := tr.waitReady[w := true]);
    if SignalDone(Woken(os, w), g) then Enable(r, g) else r
  }

  ghost function RejoinOs(s: Sys): Os
    requires Shape(s) && s.mode.Handoff?
  {
    var woken := Woken(s.os, s.mode.target);
    if SignalDone(woken, s.mode.signaller) then woken.(loc := woken.loc[s.mode.signaller := Ready]) else woken
  }

  /** `reenableThreadIfLegal`: a thread paused at a lock or a trylock is queued on the mutex. */
  ghost function Unpaused(s: Sys, t: ThrID): Sys
    requires Shape(s) && t in s.paused
  {
    var loc := s.os.loc[t];
    if loc.Ready? then s.(tr := Enable(s.tr, t), paused := s.paused - {t})
    else
      s.(tr := DetermineLock(s.tr, Free(s.os, loc.mutex), t, loc.mutex), paused := s.paused - {t},
         demoted := if loc.TryLocking? then s.demoted + {t} else s.demoted)
  }

  ghost function PerformStep(s: Sys, op: Op): Sys
    requires s.mode.Run? && Legal(s.os, s.mode.thread, op)
  {
    s.(tr := PerformMaps(s, op), os := Begin(s.os, s.mode.thread, op),
       mode := ModeAfter(s.os, s.mode.thread, op))
  }

  ghost function WakeStep(s: Sys): Sys
    requires Shape(s) && s.mode.Posted?
  {
    s.(tr := WakeMaps(s), os := Resume(s.os, s.mode.thread), mode := Run(s.mode.thread),
       demoted := s.demoted - {s.mode.thread})
  }

  ghost function RejoinStep(s: Sys): Sys
    requires Shape(s) && s.mode.Handoff?
  {
    var g := s.mode.signaller;
    s.(tr := RejoinMaps(s), os := RejoinOs(s),
       mode := if SignalDone(Woken(s.os, s.mode.target), g) then Choosing(g) else Selecting(g))
  }

  ghost function Apply(s: Sys, step: Step): Sys
    requires Shape(s) && StepLegal(s, step)
  {
    match step
    case Perform(op) => PerformStep(s, op)
    case Dispatch(next) => s.(tr := Launch(s.tr, next), mode := Posted(next))
    case Report => s.(mode := Deadlock)
    case Wake => WakeStep(s)
    case Select(w) => s.(tr := SelectWaiter(s.tr, w), mode := Handoff(s.mode.signaller, w))
    case Rejoin => RejoinStep(s)
    case Pause(t) => s.(tr := Disable(s.tr, t), paused := s.paused + {t})
    case Reenable(t) => Unpaused(s, t)
  }
}
