/**
 * Where a thread stands, who holds a mutex and what a semaphore is worth, told from the steps of a run alone:
 * which call a thread made last and what has happened to it since.
 */
module CallHistories {
  import opened SerializerTypes
  import opened Posix
  import opened Tracker
  import opened Serializer
  import opened SerializerFrames
  import opened SerializerTheorems

  datatype Story =
    | Unborn
    | Computing                      // executes program code
    | Created                        // has not run yet
    | Calling(op: Op)                // made this call, and nothing happened to it since
    | Heard(op: Op)                  // was selected by a signal during this wait
    | Expired(mutex: Mutex)          // was launched from a timed wait without a signal
    | Reclaiming(mutex: Mutex)       // and queues for its mutex again

  /** `launched` is the thread whose wake-up is under way, `holder` who took each mutex last and kept it. */
  datatype Past = Past(runner: ThrID, launched: ThrID, stories: map<ThrID, Story>, holder: map<Mutex, ThrID>,
                       initial: map<Sem, nat>, posts: map<Sem, nat>, passes: map<Sem, nat>)

  function Tell(past: Past, t: ThrID): Story {
    if t in past.stories then past.stories[t] else Unborn
  }

  function Beginning(main: ThrID): Past {
    Past(main, INVALID_THREAD, map[main := Computing], map[], map[], map[], map[])
  }

  /** A timed wait that is launched has expired; any other call returns. */
  function Awake(story: Story): Story {
    if story.Calling? && story.op.CondTimedwait? then Expired(story.op.mutex) else Computing
  }

  /** A returning call takes its mutex: a try-lock only if nobody holds it. */
  predicate Claims(story: Story, held: bool) {
    match story
    case Calling(op) => op.Lock? || (op.TryLock? && !held)
    case Heard(op) => op.CondWait? || op.CondTimedwait?
    case Reclaiming(_) => true
    case _ => false
  }

  function NoteCall(past: Past, op: Op): Past {
    var r := past.runner;
    match op
    case InitBarrier(_, _) => past
    case InitSem(x, v) => past.(initial := past.initial[x := v], posts := past.posts[x := 0], passes := past.passes[x := 0])
    case Relock => past.(stories := past.stories[r := Reclaimed(Tell(past, r))])
    case Create(child) => past.(stories := past.stories[child := Created][r := Calling(op)])
    case Unlock(m) => past.(stories := past.stories[r := Calling(op)], holder := past.holder - {m})
    case CondWait(_, m) => past.(stories := past.stories[r := Calling(op)], holder := past.holder - {m})
    case CondTimedwait(_, m) => past.(stories := past.stories[r := Calling(op)], holder := past.holder - {m})
    case SemPost(x) =>
      past.(stories := past.stories[r := Calling(op)], posts := past.posts[x := Get(past.posts, x, 0) + 1])
    case _ => past.(stories := past.stories[r := Calling(op)])
  }

  function Reclaimed(story: Story): Story {
    if story.Expired? then Reclaiming(story.mutex) else story
  }

  /** The mutex that the call of this thread is about, if any. */
  function MutexOf(story: Story): Mutex {
    match story
    case Calling(op) => if op.Lock? || op.TryLock? then op.mutex else 0
    case Heard(op) => if op.CondWait? || op.CondTimedwait? then op.mutex else 0
    case Reclaiming(mutex) => mutex
    case _ => 0
  }

  function NoteWake(past: Past): Past {
    var x := past.launched;
    var story := Tell(past, x);
    var m := MutexOf(story);
    past.(runner := x, launched := INVALID_THREAD, stories := past.stories[x := Awake(story)],
          holder := if Claims(story, m in past.holder) then past.holder[m := x] else past.holder,
          passes := if story.Calling? && story.op.SemWait?
                    then past.passes[story.op.sem := Get(past.passes, story.op.sem, 0) + 1] else past.passes)
  }

  function Note(past: Past, step: Step): Past {
    match step
    case Perform(op) => NoteCall(past, op)
    case Dispatch(next) => past.(launched := next)
    case Wake => NoteWake(past)
    case Select(w) =>
      if Tell(past, w).Calling? then past.(stories := past.stories[w := Heard(Tell(past, w).op)]) else past
    case Report => past
    case Rejoin => past
    case Pause(_) => past
    case Reenable(_) => past
  }

  function History(past: Past, steps: seq<Step>): Past
    decreases |steps|
  {
    if steps == [] then past else History(Note(past, steps[0]), steps[1..])
  }

  // ---------------------------------------------------------------- where a thread stands

  /** `handed`: the thread has been selected and has not queued for its mutex yet. */
  predicate StandsAt(story: Story, l: Loc, handed: bool) {
    match story
    case Unborn => false
    case Computing => l == Running
    case Created => l == Ready
    case Calling(op) => !handed && CallStandsAt(op, l)
    case Heard(op) =>
      && (op.CondWait? || op.CondTimedwait?)
      && if handed then CallStandsAt(op, l) else l == Relocking(op.mutex, false)
    case Expired(m) => l == TimedOut(m)
    case Reclaiming(m) => l == Relocking(m, true)
  }

  predicate CallStandsAt(op: Op, l: Loc) {
    match op
    case Join(u) => l == Joining(u)
    case Lock(m) => l == Locking(m)
    case TryLock(m) => l == TryLocking(m)
    case CondWait(c, m) => l == CondWaiting(c, m)
    case CondTimedwait(c, m) => l == TimedWaiting(c, m)
    case Signal(c, broadcast) => l == Ready || l == Signalling(c, broadcast)
    case SemWait(x) => l == SemWaiting(x)
    case BarrierWait(b) => l.AtBarrier? && l.barrier == b
    case Finish => l == Done
    case Relock => false
    case InitBarrier(_, _) => false
    case InitSem(_, _) => false
    case _ => l == Ready
  }

  predicate Handed(mode: Mode, t: ThrID) {
    mode.Handoff? && mode.target == t
  }

  ghost predicate Placed(past: Past, s: Sys) {
    && past.stories.Keys == s.os.loc.Keys
    && forall t :: t in s.os.loc ==> StandsAt(past.stories[t], s.os.loc[t], Handed(s.mode, t))
  }

  ghost predicate Turns(past: Past, mode: Mode) {
    && (mode.Run? ==> past.runner == mode.thread)
    && past.launched == (if mode.Posted? then mode.thread else INVALID_THREAD)
  }

  ghost predicate Counted(past: Past, os: Os) {
    && past.holder == os.owner
    && os.sems.Keys == past.initial.Keys == past.posts.Keys == past.passes.Keys
    && forall x :: x in os.sems ==> os.sems[x] + past.passes[x] == past.initial[x] + past.posts[x]
  }

  ghost predicate Agrees(past: Past, s: Sys) {
    Placed(past, s) && Turns(past, s.mode) && Counted(past, s.os)
  }

  // ---------------------------------------------------------------- one step

  lemma BeginningAgrees(main: ThrID)
    requires main >= 0
    ensures Agrees(Beginning(main), Start(main))
  {
  }

  lemma CallPlaced(past: Past, s: Sys, op: Op)
    requires Agrees(past, s) && s.mode.Run? && Legal(s.os, s.mode.thread, op)
    ensures Placed(NoteCall(past, op), PerformStep(s, op))
  {
    hide Counted, PerformMaps, HasWaiter, Arrive, NewBarrier;
    var t := s.mode.thread;
    var past', s' := NoteCall(past, op), PerformStep(s, op);
    forall u | u in s'.os.loc
      ensures StandsAt(past'.stories[u], s'.os.loc[u], Handed(s'.mode, u))
    {
      if u in s.os.loc {
        assert StandsAt(past.stories[u], s.os.loc[u], Handed(s.mode, u));
      }
    }
  }

  lemma CallCounted(past: Past, s: Sys, op: Op)
    requires Agrees(past, s) && s.mode.Run? && Legal(s.os, s.mode.thread, op)
    ensures Counted(NoteCall(past, op), Begin(s.os, s.mode.thread, op))
  {
    hide Placed, HasWaiter, Arrive, NewBarrier;
  }

  lemma WakePlaced(past: Past, s: Sys)
    requires Agrees(past, s) && Shape(s) && s.mode.Posted?
    ensures Placed(NoteWake(past), WakeStep(s))
  {
    hide Counted, WakeMaps, TestersOk, OnlyBusy;
    var t := s.mode.thread;
    var past', s' := NoteWake(past), WakeStep(s);
    assert StandsAt(past.stories[t], s.os.loc[t], false);
    forall u | u in s'.os.loc
      ensures StandsAt(past'.stories[u], s'.os.loc[u], Handed(s'.mode, u))
    {
      assert StandsAt(past.stories[u], s.os.loc[u], Handed(s.mode, u));
    }
  }

  lemma WakeCounted(past: Past, s: Sys)
    requires Agrees(past, s) && Shape(s) && s.mode.Posted?
    ensures Counted(NoteWake(past), Resume(s.os, s.mode.thread))
  {
    hide TestersOk, OnlyBusy;
    var t := s.mode.thread;
    assert StandsAt(past.stories[t], s.os.loc[t], false);
  }

  lemma SelectPlaced(past: Past, s: Sys, w: ThrID)
    requires Agrees(past, s) && Invariant(s) && Shape(s) && StepLegal(s, Select(w))
    ensures Placed(Note(past, Select(w)), Apply(s, Select(w)))
  {
    hide Counted, EnabledOk, LocksOk, SemsOk, JoinsOk, BarriersOk, TokensOk, FinishedOk, TestersOk, OnlyBusy, HasWaiter;
    var past', s' := Note(past, Select(w)), Apply(s, Select(w));
    assert OnCondition(s.os.loc[w]);
    forall u | u in s'.os.loc
      ensures StandsAt(past'.stories[u], s'.os.loc[u], Handed(s'.mode, u))
    {
      assert StandsAt(past.stories[u], s.os.loc[u], Handed(s.mode, u));
    }
  }

  lemma RejoinPlaced(past: Past, s: Sys)
    requires Agrees(past, s) && Shape(s) && s.mode.Handoff?
    ensures Placed(past, RejoinStep(s))
  {
    hide Counted, RejoinMaps, TestersOk, OnlyBusy, HasWaiter;
    var g, w, s' := s.mode.signaller, s.mode.target, RejoinStep(s);
    assert StandsAt(past.stories[w], s.os.loc[w], true);
    assert StandsAt(past.stories[g], s.os.loc[g], g == w);
    forall u | u in s'.os.loc
      ensures StandsAt(past.stories[u], s'.os.loc[u], Handed(s'.mode, u))
    {
      assert StandsAt(past.stories[u], s.os.loc[u], Handed(s.mode, u));
    }
  }

  /** A step is told as it was taken. */
  lemma StepAgrees(past: Past, s: Sys, step: Step)
    requires Agrees(past, s) && Invariant(s) && Shape(s) && StepLegal(s, step)
    ensures Agrees(Note(past, step), Apply(s, step))
  {
    hide Invariant, PerformMaps, WakeMaps, RejoinMaps, HasWaiter, Begin, Resume, Legal, StandsAt;
    match step {
      case Perform(op) =>
        CallPlaced(past, s, op);
        CallCounted(past, s, op);
      case Wake =>
        WakePlaced(past, s);
        WakeCounted(past, s);
      case Select(w) => SelectPlaced(past, s, w);
      case Rejoin => RejoinPlaced(past, s);
      case Dispatch(next) => SamePlaces(past, s, step);
      case Report => SamePlaces(past, s, step);
      case Pause(t) => SamePlaces(past, s, step);
      case Reenable(t) => SamePlaces(past, s, step);
    }
  }

  lemma SamePlaces(past: Past, s: Sys, step: Step)
    requires Agrees(past, s) && Shape(s) && StepLegal(s, step)
    requires step.Dispatch? || step.Report? || step.Pause? || step.Reenable?
    ensures Placed(Note(past, step), Apply(s, step)) && Apply(s, step).os == s.os
  {
    hide Counted, TestersOk, OnlyBusy, StandsAt, CanProceed;
    var s' := Apply(s, step);
    assert s'.os == s.os;
    forall u | u in s.os.loc
      ensures StandsAt(past.stories[u], s.os.loc[u], Handed(s'.mode, u))
    {
      assert Handed(s'.mode, u) == Handed(s.mode, u);
    }
  }

  // ---------------------------------------------------------------- whole runs

  lemma {:induction false} RunAgrees(past: Past, s: Sys, steps: seq<Step>)
    requires Agrees(past, s) && Invariant(s) && LegalRun(s, steps)
    ensures Agrees(History(past, steps), Execute(s, steps))
    decreases |steps|
  {
    hide Agrees, Invariant, Apply, StepLegal, Shape, Note;
    if steps != [] {
      StepKeeps(s, steps[0]);
      StepAgrees(past, s, steps[0]);
      RunAgrees(Note(past, steps[0]), Apply(s, steps[0]), steps[1..]);
    }
  }

  /** In every run, where each thread stands follows from its last call and what happened to it since. */
  lemma LocationIsHistory(main: ThrID, steps: seq<Step>)
    requires main >= 0 && LegalRun(Start(main), steps)
    ensures Placed(History(Beginning(main), steps), Execute(Start(main), steps))
  {
    hide Invariant, Start, LegalRun, Execute;
    StartInvariant(main);
    BeginningAgrees(main);
    RunAgrees(Beginning(main), Start(main), steps);
  }

  /** In every run, a semaphore is worth its initial value and one for each post since, less one for each
      wait that returned; a mutex belongs to the thread that took it last and has not given it back. */
  lemma CountsAreHistory(main: ThrID, steps: seq<Step>)
    requires main >= 0 && LegalRun(Start(main), steps)
    ensures Counted(History(Beginning(main), steps), Execute(Start(main), steps).os)
  {
    hide Invariant, Start, LegalRun, Execute;
    StartInvariant(main);
    BeginningAgrees(main);
    RunAgrees(Beginning(main), Start(main), steps);
  }

  // ---------------------------------------------------------------- how a timed wait ends

  /** The first step that takes `t` off its condition: a launch or a signal. */
  function FirstLeave(steps: seq<Step>, t: ThrID): Option<Step> {
    if steps == [] then None
    else if steps[0] == Dispatch(t) || steps[0] == Select(t) then Some(steps[0])
    else FirstLeave(steps[1..], t)
  }

  /** `t` makes no further call, but for queueing for its mutex after a timeout. */
  ghost predicate NoNewCall(past: Past, steps: seq<Step>, t: ThrID)
    decreases |steps|
  {
    steps == [] ||
    (!(steps[0].Perform? && past.runner == t && !steps[0].op.Relock?) && NoNewCall(Note(past, steps[0]), steps[1..], t))
  }

  /** The stories of a timed wait on `m`, by the step that took the thread off its condition. */
  predicate WaitStory(story: Story, c: Cond, m: Mutex, left: Option<Step>, mode: Mode, t: ThrID) {
    match left
    case None => story == Calling(CondTimedwait(c, m)) && mode != Posted(t)
    case Some(step) =>
      if step == Dispatch(t) then
        || (story == Calling(CondTimedwait(c, m)) && mode == Posted(t))
        || story == Expired(m) || story == Reclaiming(m) || story == Computing
      else story == Heard(CondTimedwait(c, m)) || story == Computing
  }

  /** Somebody else's call, or the thread's own way back to its mutex. */
  lemma WaitThroughCall(past: Past, s: Sys, op: Op, t: ThrID, c: Cond, m: Mutex, left: Option<Step>)
    requires Turns(past, s.mode) && s.mode.Run? && Legal(s.os, s.mode.thread, op) && t in s.os.loc
    requires WaitStory(Tell(past, t), c, m, left, s.mode, t)
    requires StandsAt(Tell(past, t), s.os.loc[t], false) && (past.runner == t ==> op.Relock?)
    ensures t in Begin(s.os, s.mode.thread, op).loc && !ModeAfter(s.os, s.mode.thread, op).Posted?
    ensures WaitStory(Tell(NoteCall(past, op), t), c, m, left, ModeAfter(s.os, s.mode.thread, op), t)
  {
    hide HasWaiter, Arrive, NewBarrier;
  }

  lemma WaitThroughWake(past: Past, s: Sys, t: ThrID, c: Cond, m: Mutex, left: Option<Step>)
    requires Turns(past, s.mode) && s.mode.Posted? && WaitStory(Tell(past, t), c, m, left, s.mode, t)
    ensures WaitStory(Tell(NoteWake(past), t), c, m, left, Run(s.mode.thread), t)
  {
  }

  lemma WaitThroughSelect(past: Past, s: Sys, w: ThrID, t: ThrID, c: Cond, m: Mutex, left: Option<Step>)
    requires s.mode.Selecting? && WaitStory(Tell(past, t), c, m, left, s.mode, t)
    requires t in s.os.loc && StandsAt(Tell(past, t), s.os.loc[t], false) && (w == t ==> OnCondition(s.os.loc[t]))
    ensures var left' := if left == None && w == t then Some(Select(t)) else left;
            WaitStory(Tell(Note(past, Select(w)), t), c, m, left', Handoff(s.mode.signaller, w), t)
  {
  }

  lemma LeavesNow(step: Step, t: ThrID)
    ensures FirstLeave([step], t) == if step == Dispatch(t) || step == Select(t) then Some(step) else None
  {
    assert [step][1..] == [];
  }

  lemma SelectedIsOnCondition(s: Sys, w: ThrID)
    requires Invariant(s) && StepLegal(s, Select(w))
    ensures w in s.os.loc && OnCondition(s.os.loc[w])
  {
    hide EnabledOk, LocksOk, SemsOk, JoinsOk, BarriersOk, TokensOk, FinishedOk, TestersOk, OnlyBusy, HasWaiter;
  }

  /** A step continues the story. */
  lemma WaitStep(past: Past, s: Sys, step: Step, t: ThrID, c: Cond, m: Mutex, left: Option<Step>)
    requires Agrees(past, s) && Invariant(s) && Shape(s) && StepLegal(s, step) && t in s.os.loc
    requires WaitStory(Tell(past, t), c, m, left, s.mode, t)
    requires step.Perform? && past.runner == t ==> step.op.Relock?
    ensures var left' := if left == None then FirstLeave([step], t) else left;
            t in Apply(s, step).os.loc && WaitStory(Tell(Note(past, step), t), c, m, left', Apply(s, step).mode, t)
  {
    hide Counted, Placed, Invariant, PerformMaps, WakeMaps, RejoinMaps, HasWaiter, TestersOk, OnlyBusy, CanProceed,
         FirstLeave, StandsAt, NoteCall, NoteWake, Begin, Resume, ModeAfter, Legal;
    PlacedAt(past, s, t);
    LeavesNow(step, t);
    match step {
      case Perform(op) => WaitThroughCall(past, s, op, t, c, m, left);
      case Wake =>
        WaitThroughWake(past, s, t, c, m, left);
        ResumeKeepsThreads(s.os, s.mode.thread);
      case Select(w) =>
        SelectedIsOnCondition(s, w);
        WaitThroughSelect(past, s, w, t, c, m, left);
      case Rejoin =>
      case Dispatch(next) =>
      case Report =>
      case Pause(_) =>
      case Reenable(_) =>
    }
  }

  lemma ResumeKeepsThreads(os: Os, t: ThrID)
    requires t in os.loc && CanProceed(os, t)
    ensures os.loc.Keys <= Resume(os, t).loc.Keys
  {
  }

  lemma PlacedAt(past: Past, s: Sys, t: ThrID)
    requires Agrees(past, s) && t in s.os.loc
    ensures StandsAt(Tell(past, t), s.os.loc[t], Handed(s.mode, t))
  {
    hide Counted;
  }

  lemma {:induction false} WaitRun(past: Past, s: Sys, steps: seq<Step>, t: ThrID, c: Cond, m: Mutex, left: Option<Step>)
    requires Agrees(past, s) && Invariant(s) && LegalRun(s, steps) && t in s.os.loc
    requires WaitStory(Tell(past, t), c, m, left, s.mode, t) && NoNewCall(past, steps, t)
    ensures var left' := if left == None then FirstLeave(steps, t) else left;
            var s' := Execute(s, steps);
            t in s'.os.loc && WaitStory(Tell(History(past, steps), t), c, m, left', s'.mode, t)
    ensures Agrees(History(past, steps), Execute(s, steps))
    decreases |steps|
  {
    hide Agrees, Invariant, Apply, StepLegal, Shape, Note, WaitStory;
    if steps != [] {
      var step, rest := steps[0], steps[1..];
      WaitStep(past, s, step, t, c, m, left);
      StepKeeps(s, step);
      StepAgrees(past, s, step);
      LeavesNow(step, t);
      WaitRun(Note(past, step), Apply(s, step), rest, t, c, m, if left == None then FirstLeave([step], t) else left);
    }
  }

  lemma WaitBegins(past: Past, s: Sys, t: ThrID, c: Cond, m: Mutex)
    requires Agrees(past, s) && Shape(s) && s.mode == Run(t) && StepLegal(s, Perform(CondTimedwait(c, m)))
    ensures var s' := Apply(s, Perform(CondTimedwait(c, m)));
            t in s'.os.loc && WaitStory(Tell(Note(past, Perform(CondTimedwait(c, m))), t), c, m, None, s'.mode, t)
  {
    hide Placed, Counted, PerformMaps;
  }

  /**
   * How a timed wait ends, in every run: a thread that calls it, and makes no further call, comes back with
   * the mutex it gave up, and with a timeout if and only if it was launched before it was signalled.
   */
  lemma TimedWaitResult(main: ThrID, before: seq<Step>, c: Cond, m: Mutex, rest: seq<Step>)
    requires main >= 0 && LegalRun(Start(main), before) && Execute(Start(main), before).mode.Run?
    requires var s := Execute(Start(main), before);
             var call := Perform(CondTimedwait(c, m));
             && Shape(s) && StepLegal(s, call) && LegalRun(Apply(s, call), rest)
             && NoNewCall(Note(History(Beginning(main), before), call), rest, s.mode.thread)
    ensures var s := Execute(Start(main), before);
            var t, s' := s.mode.thread, Execute(Apply(s, Perform(CondTimedwait(c, m))), rest);
            && t in s'.os.loc
            && (s'.os.loc[t].Relocking? ==>
                  && s'.os.loc[t].mutex == m
                  && (s'.os.loc[t].timedOut <==> FirstLeave(rest, t) == Some(Dispatch(t))))
  {
    hide Agrees, Invariant, Start, LegalRun, Execute, Apply, StepLegal, Shape, Note, NoNewCall, WaitStory;
    var s, past, call := Execute(Start(main), before), History(Beginning(main), before), Perform(CondTimedwait(c, m));
    var t := s.mode.thread;
    StartInvariant(main);
    BeginningAgrees(main);
    RunAgrees(Beginning(main), Start(main), before);
    RunKeeps(Start(main), before);
    WaitBegins(past, s, t, c, m);
    StepKeeps(s, call);
    StepAgrees(past, s, call);
    var s1, past1 := Apply(s, call), Note(past, call);
    WaitRun(past1, s1, rest, t, c, m, None);
    WaitEnds(History(past1, rest), Execute(s1, rest), rest, t, c, m);
  }

  lemma WaitEnds(past: Past, s: Sys, rest: seq<Step>, t: ThrID, c: Cond, m: Mutex)
    requires Agrees(past, s) && t in s.os.loc && WaitStory(Tell(past, t), c, m, FirstLeave(rest, t), s.mode, t)
    ensures s.os.loc[t].Relocking? ==>
              s.os.loc[t].mutex == m && (s.os.loc[t].timedOut <==> FirstLeave(rest, t) == Some(Dispatch(t)))
  {
    hide Placed, Counted;
    PlacedAt(past, s, t);
  }
}
