/**
 * Recording and replaying a schedule (src/serializer/logger.cpp and `schedule`,
 * `wakeThreadWaitingOnCond` of src/serializer/executiontracker.cpp). A deterministic program and two
 * schedulers: the first records, the second follows the record.
 */
module Replay {
  import opened SerializerTypes
  import opened Posix
  import opened Tracker
  import opened Serializer
  import opened SerializerFrames
  import opened SerializerTheorems
  import opened Broadcast

  /** One step of the protocol, or a whole broadcast in some order. */
  datatype Move = Small(step: Step) | WakeEverybody(order: seq<ThrID>)

  /** `ScheduleDecisionInfo` and `SignalDecisionInfo`. */
  datatype Decision =
    | Scheduled(chosen: ThrID, caller: ThrID, enabled: set<ThrID>)
    | Signalled(chosen: ThrID, caller: ThrID, cond: Cond, waiting: set<ThrID>)

  /** The order of a broadcast is invisible to the program. */
  function Forget(h: seq<Move>): seq<Move> {
    seq(|h|, i requires 0 <= i < |h| => if h[i].WakeEverybody? then WakeEverybody([]) else h[i])
  }

  /** What the running thread does next depends on nothing but what happened so far. */
  type Program = seq<Move> -> Op

  /** A scheduler: whom to run or to signal, and in which order to wake for a broadcast. */
  datatype Scheduler = Scheduler(pick: (Sys, seq<Move>) -> ThrID, order: (Sys, seq<Move>) -> seq<ThrID>)

  ghost predicate InBroadcast(s: Sys) {
    s.mode.Selecting? && s.mode.signaller in s.os.loc && s.os.loc[s.mode.signaller].Signalling?
    && s.os.loc[s.mode.signaller].broadcast
  }

  /** The broadcast loop of any scheduler ends by having selected every waiter. */
  ghost predicate Complete(sched: Scheduler) {
    forall s, h :: InBroadcast(s) && Invariant(s) ==>
      var waiters := Waiters(s.os, s.os.loc[s.mode.signaller].cond);
      Lists(sched.order(s, h), waiters) && |sched.order(s, h)| == |waiters|
  }

  ghost function Enumerated(waiters: set<ThrID>): (order: seq<ThrID>)
    ensures Lists(order, waiters) && |order| == |waiters|
  {
    if waiters == {} then []
    else
      HasElement(waiters);
      var t :| t in waiters;
      var rest := Enumerated(waiters - {t});
      [t] + rest
  }

  /** Whatever a scheduler picks, it can be completed by some order for its broadcasts. */
  lemma CompleteExists(pick: (Sys, seq<Move>) -> ThrID) returns (sched: Scheduler)
    ensures Complete(sched) && sched.pick == pick
  {
    hide Invariant, Lists;
    sched := Scheduler(pick, (s: Sys, h: seq<Move>) =>
      if InBroadcast(s) then Enumerated(Waiters(s.os, s.os.loc[s.mode.signaller].cond)) else []);
  }

  ghost predicate MoveLegal(s: Sys, m: Move) {
    && Shape(s)
    && match m
       case Small(step) => StepLegal(s, step) && !InBroadcast(s)
       case WakeEverybody(order) =>
         InBroadcast(s) && LegalRun(s, WakeAll(order)) && Execute(s, WakeAll(order)).mode.Choosing?
  }

  ghost function After(s: Sys, m: Move): Sys
    requires MoveLegal(s, m)
  {
    match m
    case Small(step) => Apply(s, step)
    case WakeEverybody(order) => Execute(s, WakeAll(order))
  }

  // ---------------------------------------------------------------- the log

  /** `scheduling` and `signalScheduling`: what a move appends to the log; broadcasts append nothing. */
  ghost function Entry(s: Sys, m: Move): seq<Decision>
    requires MoveLegal(s, m)
  {
    if m.Small? && m.step.Dispatch? then
      [Scheduled(m.step.next, s.mode.caller, EnabledThreads(s.tr.enabled))]
    else if m.Small? && m.step.Select? then
      var cond := s.os.loc[s.mode.signaller].cond;
      [Signalled(m.step.waiter, s.mode.signaller, cond, Queued(s.tr.onCond, cond))]
    else []
  }

  /** `getNextScheduleChoice` and `getNextSignalChoice`: the choice to follow, if any. */
  function NextChoice(unread: seq<Decision>): ThrID {
    if unread == [] then INVALID_THREAD else unread[0].chosen
  }

  function Drop(unread: seq<Decision>): seq<Decision> {
    if unread == [] then [] else unread[1..]
  }

  /** The next move: choices come from the log while it lasts, then from the scheduler. */
  ghost function NextMove(p: Program, sched: Scheduler, unread: seq<Decision>, s: Sys, h: seq<Move>): Move {
    var choice := if NextChoice(unread) != INVALID_THREAD then NextChoice(unread) else sched.pick(s, h);
    if s.mode.Run? then Small(Perform(p(Forget(h))))
    else if s.mode.Posted? then Small(Wake)
    else if s.mode.Handoff? then Small(Rejoin)
    else if InBroadcast(s) then WakeEverybody(sched.order(s, h))
    else if s.mode.Selecting? then Small(Select(choice))
    else if NextChoice(unread) == INVALID_THREAD && !SomeEnabled(s.tr) then Small(Report)
    else Small(Dispatch(choice))
  }

  ghost function Unread(unread: seq<Decision>, s: Sys, m: Move): seq<Decision>
    requires MoveLegal(s, m)
  {
    if Entry(s, m) != [] then Drop(unread) else unread
  }

  // ---------------------------------------------------------------- runs

  /** These moves are the next ones of the program under this scheduler and this log. */
  ghost predicate Produces(p: Program, sched: Scheduler, unread: seq<Decision>, s: Sys, h: seq<Move>,
                           moves: seq<Move>)
    decreases |moves|
  {
    moves == [] ||
    var m := moves[0];
    && m == NextMove(p, sched, unread, s, h)
    && MoveLegal(s, m)
    && Produces(p, sched, Unread(unread, s, m), After(s, m), h + [m], moves[1..])
  }

  ghost predicate LegalMoves(s: Sys, moves: seq<Move>)
    decreases |moves|
  {
    moves == [] || (MoveLegal(s, moves[0]) && LegalMoves(After(s, moves[0]), moves[1..]))
  }

  /** The states a run goes through. */
  ghost function States(s: Sys, moves: seq<Move>): seq<Sys>
    requires LegalMoves(s, moves)
    decreases |moves|
  {
    if moves == [] then [s] else [s] + States(After(s, moves[0]), moves[1..])
  }

  /** The log a run records. */
  ghost function Log(s: Sys, moves: seq<Move>): seq<Decision>
    requires LegalMoves(s, moves)
    decreases |moves|
  {
    if moves == [] then [] else Entry(s, moves[0]) + Log(After(s, moves[0]), moves[1..])
  }

  /** What a run leaves unread of a log. */
  ghost function Leftover(unread: seq<Decision>, s: Sys, moves: seq<Move>): seq<Decision>
    requires LegalMoves(s, moves)
    decreases |moves|
  {
    if moves == [] then unread else Leftover(Unread(unread, s, moves[0]), After(s, moves[0]), moves[1..])
  }

  lemma {:induction false} ProducedIsLegal(p: Program, sched: Scheduler, unread: seq<Decision>, s: Sys,
                                           h: seq<Move>, moves: seq<Move>)
    requires Produces(p, sched, unread, s, h, moves)
    ensures LegalMoves(s, moves)
    decreases |moves|
  {
    hide NextMove, MoveLegal, After, Unread;
    if moves != [] {
      var m := moves[0];
      ProducedIsLegal(p, sched, Unread(unread, s, m), After(s, m), h + [m], moves[1..]);
    }
  }

  // ---------------------------------------------------------------- one move

  lemma BroadcastMove(s: Sys, order: seq<ThrID>)
    requires Invariant(s) && InBroadcast(s) && Shape(s)
    requires var waiters := Waiters(s.os, s.os.loc[s.mode.signaller].cond);
             (Lists(order, waiters) && |order| == |waiters|) || MoveLegal(s, WakeEverybody(order))
    ensures MoveLegal(s, WakeEverybody(order)) && Invariant(After(s, WakeEverybody(order)))
    ensures Execute(s, WakeAll(order)).mode == Choosing(s.mode.signaller)
  {
    hide Invariant, LegalRun, Execute, WakeAll, AllWoken, Lists, Waiters, Shape;
    var g := s.mode.signaller;
    BroadcastRuns(s, g, s.os.loc[g].cond, order);
  }

  lemma MoveKeeps(s: Sys, m: Move)
    requires Invariant(s) && MoveLegal(s, m)
    ensures Invariant(After(s, m))
  {
    hide Invariant, Apply, StepLegal, LegalRun, Execute, WakeAll, InBroadcast, Shape;
    if m.Small? {
      StepKeeps(s, m.step);
    } else {
      BroadcastMove(s, m.order);
    }
  }

  /** The replaying scheduler makes the recorded move, or the same broadcast in an order of its own. */
  ghost predicate SameMove(s: Sys, m: Move, m': Move) {
    && MoveLegal(s, m) && MoveLegal(s, m')
    && After(s, m') == After(s, m) && Entry(s, m') == Entry(s, m)
    && Forget([m']) == Forget([m])
  }

  lemma BroadcastAgain(s: Sys, m: Move, order: seq<ThrID>)
    requires Invariant(s) && MoveLegal(s, m) && m.WakeEverybody?
    requires var waiters := Waiters(s.os, s.os.loc[s.mode.signaller].cond);
             Lists(order, waiters) && |order| == |waiters|
    ensures SameMove(s, m, WakeEverybody(order))
  {
    hide Invariant, LegalRun, Execute, WakeAll, Waiters, Lists, Shape;
    var g := s.mode.signaller;
    BroadcastMove(s, m.order);
    BroadcastMove(s, order);
    BroadcastOrderLeavesNoTrace(s, g, s.os.loc[g].cond, m.order, order);
  }

  /** Nobody runs after a deadlock was reported. */
  lemma NothingAfterReport(s: Sys, moves: seq<Move>)
    requires LegalMoves(s, moves) && s.mode.Deadlock?
    ensures moves == []
  {
    hide Shape, Apply;
  }

  lemma ChoiceIsAThread(s: Sys, m: Move)
    requires Invariant(s) && MoveLegal(s, m) && Entry(s, m) != []
    ensures NextChoice(Entry(s, m)) != INVALID_THREAD
  {
    hide LocksOk, SemsOk, JoinsOk, BarriersOk, TokensOk, FinishedOk, TestersOk, ModeOk, Able;
    hide LegalRun, Execute, WakeAll;
  }

  lemma SameNextMove(p: Program, first: Scheduler, second: Scheduler, unread: seq<Decision>, log: seq<Decision>,
                     s: Sys, h: seq<Move>, h': seq<Move>)
    requires Invariant(s) && Complete(second) && Forget(h) == Forget(h')
    requires var m := NextMove(p, first, unread, s, h);
             && MoveLegal(s, m)
             && Entry(s, m) == log[..if |log| < |Entry(s, m)| then |log| else |Entry(s, m)|]
             && (m == Small(Report) ==> log == [])
    ensures SameMove(s, NextMove(p, first, unread, s, h), NextMove(p, second, log, s, h'))
  {
    hide Invariant, Shape, Apply, LegalRun, Execute, WakeAll, SomeEnabled, Waiters, Lists, Legal;
    var m, m' := NextMove(p, first, unread, s, h), NextMove(p, second, log, s, h');
    if m.WakeEverybody? {
      BroadcastAgain(s, m, second.order(s, h'));
    } else {
      if Entry(s, m) != [] {
        ChoiceIsAThread(s, m);
        assert Entry(s, m)[0] == log[0];
      }
      assert m' == m;
    }
  }

  lemma ForgetAppend(h: seq<Move>, h': seq<Move>, m: Move, m': Move)
    requires Forget(h) == Forget(h') && Forget([m]) == Forget([m'])
    ensures Forget(h + [m]) == Forget(h' + [m'])
  {
    assert |Forget(h)| == |h| && |Forget(h')| == |h'|;
    assert forall k: seq<Move>, x :: Forget(k + [x]) == Forget(k) + Forget([x]) by {
      forall k: seq<Move>, x
        ensures Forget(k + [x]) == Forget(k) + Forget([x])
      {
      }
    }
  }

  lemma ForgetCons(m: Move, m': Move, rest: seq<Move>, rest': seq<Move>)
    requires Forget([m]) == Forget([m']) && Forget(rest) == Forget(rest')
    ensures Forget([m] + rest) == Forget([m'] + rest')
  {
    assert |rest| == |Forget(rest)| == |Forget(rest')| == |rest'|;
    assert forall x: Move, k: seq<Move> :: Forget([x] + k) == Forget([x]) + Forget(k);
  }

  // ---------------------------------------------------------------- whole runs

  /** The second run went through the same states, left the same trace and logged the same decisions. */
  ghost predicate Reproduces(s: Sys, moves: seq<Move>, again: seq<Move>) {
    && LegalMoves(s, moves) && LegalMoves(s, again)
    && Forget(again) == Forget(moves)
    && States(s, again) == States(s, moves)
    && Log(s, again) == Log(s, moves)
  }

  lemma ReproducesCons(s: Sys, m: Move, m': Move, rest: seq<Move>, rest': seq<Move>)
    requires SameMove(s, m, m') && Reproduces(After(s, m), rest, rest')
    ensures Reproduces(s, [m] + rest, [m'] + rest')
  {
    hide MoveLegal, After, Entry;
    ForgetCons(m, m', rest, rest');
    assert ([m] + rest)[1..] == rest && ([m'] + rest')[1..] == rest';
  }

  lemma MoveThenProduces(p: Program, sched: Scheduler, unread: seq<Decision>, s: Sys, h: seq<Move>,
                         m: Move, rest: seq<Move>)
    requires m == NextMove(p, sched, unread, s, h) && MoveLegal(s, m)
    requires Produces(p, sched, Unread(unread, s, m), After(s, m), h + [m], rest)
    requires LegalMoves(After(s, m), rest) && Leftover(Unread(unread, s, m), After(s, m), rest) == []
    ensures Produces(p, sched, unread, s, h, [m] + rest)
    ensures LegalMoves(s, [m] + rest) && Leftover(unread, s, [m] + rest) == []
  {
    hide MoveLegal, After, Entry, NextMove, Unread;
    assert ([m] + rest)[1..] == rest && ([m] + rest)[0] == m;
  }

  /**
   * Replaying a recorded log reproduces the run: another scheduler that follows the log goes through
   * the same states, records the same log again and reads exactly the whole log. The recording run may
   * itself have followed a log (`unread`) for a while.
   */
  lemma {:induction false} ReplayReproduces(p: Program, first: Scheduler, second: Scheduler,
                                            unread: seq<Decision>, s: Sys, h: seq<Move>, h': seq<Move>,
                                            moves: seq<Move>)
    returns (again: seq<Move>)
    requires Invariant(s) && Complete(second) && Forget(h) == Forget(h')
    requires Produces(p, first, unread, s, h, moves) && LegalMoves(s, moves)
    ensures Produces(p, second, Log(s, moves), s, h', again)
    ensures Reproduces(s, moves, again)
    ensures Leftover(Log(s, moves), s, again) == []
    decreases |moves|
  {
    hide Invariant, MoveLegal, After, Entry, NextMove, Reproduces, SameMove, Complete;
    if moves == [] {
      again := [];
      assert Reproduces(s, moves, again) by { NothingReproduced(s); }
    } else {
      var m, rest := moves[0], moves[1..];
      var log, m' := Log(s, moves), NextMove(p, second, Log(s, moves), s, h');
      assert SameMove(s, m, m') by {
        if m == Small(Report) {
          ReportIsLast(s, rest);
        }
        SameNextMove(p, first, second, unread, log, s, h, h');
      }
      MoveKeeps(s, m);
      SameMoveFacts(s, m, m', log, Log(After(s, m), rest));
      ForgetAppend(h, h', m, m');
      var rest' := ReplayReproduces(p, first, second, Unread(unread, s, m), After(s, m), h + [m], h' + [m'], rest);
      ReproducesLegal(After(s, m), rest, rest');
      MoveThenProduces(p, second, log, s, h', m', rest');
      ReproducesCons(s, m, m', rest, rest');
      again := [m'] + rest';
      assert [m] + rest == moves;
    }
  }

  lemma NothingReproduced(s: Sys)
    ensures Reproduces(s, [], [])
  {
  }

  lemma ReproducesLegal(s: Sys, moves: seq<Move>, again: seq<Move>)
    requires Reproduces(s, moves, again)
    ensures LegalMoves(s, again)
  {
  }

  lemma ReportIsLast(s: Sys, rest: seq<Move>)
    requires MoveLegal(s, Small(Report)) && LegalMoves(After(s, Small(Report)), rest)
    ensures Entry(s, Small(Report)) + Log(After(s, Small(Report)), rest) == []
  {
    NothingAfterReport(After(s, Small(Report)), rest);
  }

  lemma SameMoveFacts(s: Sys, m: Move, m': Move, log: seq<Decision>, rest: seq<Decision>)
    requires SameMove(s, m, m') && log == Entry(s, m) + rest
    ensures MoveLegal(s, m) && MoveLegal(s, m') && After(s, m') == After(s, m) && Forget([m']) == Forget([m])
    ensures Unread(log, s, m') == rest
  {
    hide MoveLegal, After;
    assert |Entry(s, m)| <= 1;
  }

  /** The schedulers are functions, so the replayed run is the only one of its length. */
  lemma {:induction false} ProducedOnce(p: Program, sched: Scheduler, unread: seq<Decision>, s: Sys,
                                        h: seq<Move>, moves: seq<Move>, others: seq<Move>)
    requires Produces(p, sched, unread, s, h, moves) && Produces(p, sched, unread, s, h, others)
    requires |moves| == |others|
    ensures moves == others
    decreases |moves|
  {
    hide MoveLegal, After, Entry, NextMove, Unread;
    if moves != [] {
      var m := moves[0];
      ProducedOnce(p, sched, Unread(unread, s, m), After(s, m), h + [m], moves[1..], others[1..]);
      assert moves == [m] + moves[1..] && others == [m] + others[1..];
    }
  }

  /** From the start of the program: any replay of the recorded length is a reproduction. */
  lemma RecordThenReplay(p: Program, first: Scheduler, second: Scheduler, main: ThrID,
                         moves: seq<Move>, again: seq<Move>)
    requires main >= 0 && Complete(second)
    requires Produces(p, first, [], Start(main), [], moves) && LegalMoves(Start(main), moves)
    requires Produces(p, second, Log(Start(main), moves), Start(main), [], again) && |again| == |moves|
    ensures Reproduces(Start(main), moves, again)
    ensures LegalMoves(Start(main), again) && Leftover(Log(Start(main), moves), Start(main), again) == []
  {
    hide Invariant, Start, Produces, Reproduces, Complete;
    StartInvariant(main);
    var replayed := ReplayReproduces(p, first, second, [], Start(main), [], [], moves);
    assert |replayed| == |moves| by { SameLength(Start(main), moves, replayed); }
    ProducedOnce(p, second, Log(Start(main), moves), Start(main), [], again, replayed);
    ReproducesLegal(Start(main), moves, replayed);
  }

  lemma SameLength(s: Sys, moves: seq<Move>, again: seq<Move>)
    requires Reproduces(s, moves, again)
    ensures |again| == |moves|
  {
    assert |Forget(again)| == |again|;
  }
}
