/** The schedule log as the program keeps it: recorded decisions are appended, decisions to follow are
    taken off the front (src/serializer/logger.cpp). */
module Logger {
  import opened SerializerTypes
  import opened Tracker
  import opened Replay

  class Logger {
    var schedule: seq<Decision>
    var readSchedule: seq<Decision>

    constructor (toFollow: seq<Decision>)
      ensures schedule == [] && readSchedule == toFollow
    {
      schedule, readSchedule := [], toFollow;
    }

    method GetNextChoice() returns (next: ThrID)
      modifies this`readSchedule
      ensures next == NextChoice(old(readSchedule)) && readSchedule == Drop(old(readSchedule))
    {
      if |readSchedule| <= 0 {
        return INVALID_THREAD;
      }
      next := readSchedule[0].chosen;
      readSchedule := readSchedule[1..];
    }

    /** Every scheduling decision is logged with the threads that were enabled. */
    method Scheduling(target: ThrID, caller: ThrID, enabled: map<ThrID, bool>)
      modifies this`schedule
      ensures schedule == old(schedule) + [Scheduled(target, caller, EnabledThreads(enabled))]
    {
      var en := {};
      var todo := enabled.Keys;
      while todo != {}
        invariant todo <= enabled.Keys && schedule == old(schedule)
        invariant en == set t | t in enabled && t !in todo && enabled[t]
        decreases todo
      {
        HasElement(todo);
        var t :| t in todo;
        todo := todo - {t};
        if enabled[t] {
          en := en + {t};
        }
      }
      assert en == EnabledThreads(enabled);
      schedule := schedule + [Scheduled(target, caller, en)];
    }

    /** A signal is logged with the threads on the condition; a broadcast is not logged. */
    method SignalScheduling(target: ThrID, caller: ThrID, cond: Cond, onCond: map<ThrID, Option<Cond>>,
                            isBroadcast: bool)
      modifies this`schedule
      ensures schedule ==
              old(schedule) + if isBroadcast then [] else [Signalled(target, caller, cond, Queued(onCond, cond))]
    {
      if !isBroadcast {
        var waiting := {};
        var todo := onCond.Keys;
        while todo != {}
          invariant todo <= onCond.Keys && schedule == old(schedule)
          invariant waiting == Queued(onCond, cond) - todo
          decreases todo
        {
          HasElement(todo);
          var t :| t in todo;
          todo := todo - {t};
          if onCond[t] == Some(cond) {
            waiting := waiting + {t};
          }
        }
        assert waiting == Queued(onCond, cond);
        schedule := schedule + [Signalled(target, caller, cond, waiting)];
      }
    }
  }
}
