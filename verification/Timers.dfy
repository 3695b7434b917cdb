/**
 `AWSTimerClient` and the schedule forwarder: a timer goes straight to the delay queue if it is
 short, and otherwise by way of a schedule whose forwarder starts the short timer later. Times are
 in milliseconds; the queue hands a message over exactly when its delay has passed.
 */
module Timers {
  import opened Options

  /** The longest delay the queue accepts. */
  const QUEUE_LIMIT_SECONDS := 15 * 60

  datatype Schedule = At(time: int) | In(seconds: nat)

  datatype TimerRequest = TimerRequest(payload: string, schedule: Schedule)

  function CeilSeconds(milliseconds: int): int {
    -((-milliseconds) / 1000)
  }

  /** `computeTimerSeconds`. */
  function TimerSeconds(schedule: Schedule, now: int): nat {
    match schedule
    case At(time) => if CeilSeconds(time - now) > 0 then CeilSeconds(time - now) else 0
    case In(seconds) => seconds
  }

  /** `computeScheduleDate`. */
  function ScheduleDate(schedule: Schedule, now: int): int {
    match schedule
    case At(time) => time
    case In(seconds) => now + seconds * 1000
  }

  /**
   When the schedule fires. The threshold is in seconds but is taken from a time in milliseconds,
   and the result is cut down to a whole second.
   */
  function FireTime(until: int, thresholdSeconds: nat): int {
    (until - thresholdSeconds) / 1000 * 1000
  }

  datatype Message = Message(request: TimerRequest, visibleAt: int)

  /** The event handed to the forwarder keeps the time the timer is for. */
  datatype Scheduled = Scheduled(request: TimerRequest, untilTime: int, fireAt: int)

  /** When the message of a short timer started at `start` becomes visible; `None` if it is refused. */
  function ShortDelivery(schedule: Schedule, start: int): Option<int> {
    var seconds := TimerSeconds(schedule, start);
    if seconds <= QUEUE_LIMIT_SECONDS then Some(start + seconds * 1000) else None
  }

  function Sent(messages: seq<Message>, request: TimerRequest, visibleAt: Option<int>): seq<Message> {
    if visibleAt.Some? then messages + [Message(request, visibleAt.value)] else messages
  }

  /** The time a schedule of this request is for, and that it fires on a whole second, ahead of it by the threshold. */
  predicate IsInTime(scheduled: Scheduled, thresholdSeconds: nat) {
    && scheduled.fireAt % 1000 == 0
    && thresholdSeconds <= scheduled.untilTime - scheduled.fireAt < thresholdSeconds + 1000
    && (scheduled.request.schedule.At? ==> scheduled.untilTime == scheduled.request.schedule.time)
  }

  class TimerClient {
    const thresholdSeconds: nat
    var messages: seq<Message>
    var schedules: map<string, Scheduled>

    ghost predicate InTime()
      reads this
    {
      forall name :: name in schedules ==> IsInTime(schedules[name], thresholdSeconds)
    }

    constructor (thresholdSeconds: nat)
      ensures this.thresholdSeconds == thresholdSeconds && messages == [] && schedules == map[] && InTime()
    {
      this.thresholdSeconds := thresholdSeconds;
      messages, schedules := [], map[];
    }

    /** Returns `None` where the source throws, having sent nothing. */
    method StartShortTimer(request: TimerRequest, now: int) returns (delay: Option<nat>)
      modifies this`messages
      ensures messages == Sent(old(messages), request, ShortDelivery(request.schedule, now))
      ensures delay.Some? <==> match request.schedule
                               case At(time) => time <= now + QUEUE_LIMIT_SECONDS * 1000
                               case In(seconds) => seconds <= QUEUE_LIMIT_SECONDS
      ensures delay.None? ==> messages == old(messages)
      ensures delay.Some? ==>
                && delay.value <= QUEUE_LIMIT_SECONDS
                && messages == old(messages) + [Message(request, now + delay.value * 1000)]
                && match request.schedule
                   case At(time) => if now > time then delay.value == 0
                                    else time <= now + delay.value * 1000 < time + 1000
                   case In(seconds) => delay.value == seconds
    {
      var seconds := TimerSeconds(request.schedule, now);
      if seconds > QUEUE_LIMIT_SECONDS {
        return None;
      }
      messages := messages + [Message(request, now + seconds * 1000)];
      delay := Some(seconds);
    }

    /**
     The clock is read up to three times. Above the threshold, a schedule is made that fires on a whole
     second, ahead of the time by the threshold; one of that name that already exists is taken to be this
     one. Otherwise the short timer is started.
     */
    method StartTimer(request: TimerRequest, scheduleName: string, now0: int, now1: int, now2: int) returns (ok: bool)
      modifies this
      ensures old(InTime()) ==> InTime()
      ensures var long := match request.schedule
                          case At(time) => time > now1 + thresholdSeconds * 1000
                          case In(seconds) => seconds > thresholdSeconds;
              if long then
                && ok && messages == old(messages)
                && (scheduleName in old(schedules) ==> schedules == old(schedules))
                && (scheduleName !in old(schedules) ==>
                      && scheduleName in schedules && schedules - {scheduleName} == old(schedules)
                      && var scheduled := schedules[scheduleName];
                         && scheduled.request == request && scheduled.fireAt % 1000 == 0
                         && match request.schedule
                            case At(time) => thresholdSeconds <= time - scheduled.fireAt < thresholdSeconds + 1000
                            case In(seconds) =>
                              thresholdSeconds <= now0 + seconds * 1000 - scheduled.fireAt < thresholdSeconds + 1000)
              else
                && schedules == old(schedules)
                && ok == ShortDelivery(request.schedule, now2).Some?
                && messages == Sent(old(messages), request, ShortDelivery(request.schedule, now2))
    {
      var untilTime := ScheduleDate(request.schedule, now0);
      var timerDuration := TimerSeconds(request.schedule, now1);
      if request.schedule.At? {
        CeilSecondsOver(request.schedule.time - now1, thresholdSeconds);
      }
      if timerDuration > thresholdSeconds {
        if scheduleName !in schedules {
          HandoverLead(untilTime, thresholdSeconds);
          schedules := schedules[scheduleName := Scheduled(request, untilTime, FireTime(untilTime, thresholdSeconds))];
        }
        ok := true;
      } else {
        var delay := StartShortTimer(request, now2);
        ok := delay.Some?;
      }
    }

    /** A schedule that is already gone is not an error. */
    method ClearSchedule(scheduleName: string)
      modifies this`schedules
      ensures schedules == old(schedules) - {scheduleName}
    {
      schedules := schedules - {scheduleName};
    }

    /**
     The schedule forwarder: the schedule goes only after its message is in the queue. For an absolute time
     and a threshold that the queue can hold, a forwarder that runs from the instant the schedule fires up
     to that time leaves a message that becomes visible no earlier, and less than a second later.
     */
    method Forward(scheduleName: string, now: int) returns (ok: bool)
      requires scheduleName in schedules
      modifies this
      ensures var request := old(schedules)[scheduleName].request;
              && ok == ShortDelivery(request.schedule, now).Some?
              && messages == Sent(old(messages), request, ShortDelivery(request.schedule, now))
              && schedules == (if ok then old(schedules) - {scheduleName} else old(schedules))
      ensures old(InTime()) ==> InTime()
      ensures var scheduled := old(schedules)[scheduleName];
              && old(InTime()) && thresholdSeconds <= QUEUE_LIMIT_SECONDS && scheduled.request.schedule.At?
              && scheduled.fireAt <= now <= scheduled.request.schedule.time ==>
                && ok && |messages| == |old(messages)| + 1 && old(messages) <= messages
                && var message := messages[|old(messages)|];
                   && message.request == scheduled.request
                   && message.request.schedule.time <= message.visibleAt < message.request.schedule.time + 1000
    {
      assert old(InTime()) ==> IsInTime(schedules[scheduleName], thresholdSeconds);
      var delay := StartShortTimer(schedules[scheduleName].request, now);
      if delay.None? {
        return false;
      }
      ClearSchedule(scheduleName);
      ok := true;
    }
  }

  /**
   When the timer's message becomes visible: `now` is the clock when the short timer of the short
   route is started, `forwarded` when the forwarder of the long route runs. `None` if it never does.
   */
  function Delivery(schedule: Schedule, thresholdSeconds: nat, now1: int, now2: int, forwarded: int): Option<int> {
    ShortDelivery(schedule, if TimerSeconds(schedule, now1) > thresholdSeconds then forwarded else now2)
  }

  /** The moment the message is sent at decides how it arrives: on time, or at once if already late. */
  lemma SentThenVisible(time: int, start: int)
    ensures var visible := start + TimerSeconds(At(time), start) * 1000;
            && visible >= time
            && (start <= time ==> visible < time + 1000)
            && (start > time ==> visible == start)
  {
  }

  /**
   Timers never fire early. For every absolute time, with a threshold the queue can hold and a
   forwarder that runs at or after the scheduled instant, the message is accepted, becomes visible
   no earlier than the time, and less than a second later unless it was sent too late.
   */
  lemma NeverEarly(time: int, thresholdSeconds: nat, now1: int, now2: int, forwarded: int)
    requires thresholdSeconds <= QUEUE_LIMIT_SECONDS && now1 <= now2
    requires forwarded >= FireTime(time, thresholdSeconds)
    ensures var start := if TimerSeconds(At(time), now1) > thresholdSeconds then forwarded else now2;
            var delivery := Delivery(At(time), thresholdSeconds, now1, now2, forwarded);
            && delivery.Some? && delivery.value >= time
            && (start <= time ==> delivery.value < time + 1000)
            && (start > time ==> delivery.value == start)
  {
    SentThenVisible(time, if TimerSeconds(At(time), now1) > thresholdSeconds then forwarded else now2);
  }

  /**
   The documentation has the schedule fire `thresholdSeconds` before the time. It fires that many
   milliseconds before, cut to a second: at the default threshold, less than two seconds.
   */
  lemma HandoverLead(time: int, thresholdSeconds: nat)
    ensures FireTime(time, thresholdSeconds) % 1000 == 0
    ensures thresholdSeconds <= time - FireTime(time, thresholdSeconds) < thresholdSeconds + 1000
    ensures thresholdSeconds == QUEUE_LIMIT_SECONDS ==> time - FireTime(time, thresholdSeconds) < 2000
  {
    var lead := time - thresholdSeconds;
    assert lead == lead / 1000 * 1000 + lead % 1000;
  }

  /**
   `startTimer` promises timers of any length. A duration timer is delivered, however its forwarder
   is timed, if and only if it is no longer than the queue allows: the forwarder counts the whole
   duration again.
   */
  lemma DurationDeliveredIff(seconds: nat, thresholdSeconds: nat, now1: int, now2: int, forwarded: int)
    ensures Delivery(In(seconds), thresholdSeconds, now1, now2, forwarded).Some? <==> seconds <= QUEUE_LIMIT_SECONDS
    ensures seconds <= thresholdSeconds && seconds <= QUEUE_LIMIT_SECONDS ==>
              Delivery(In(seconds), thresholdSeconds, now1, now2, forwarded) == Some(now2 + seconds * 1000)
  {
  }

  /** An absolute timer is refused exactly when the threshold lets through more than the queue holds. */
  lemma AbsoluteRefusedIff(time: int, thresholdSeconds: nat, now1: int, now2: int, forwarded: int)
    ensures Delivery(At(time), thresholdSeconds, now1, now2, forwarded).None? <==>
            (if time > now1 + thresholdSeconds * 1000
             then time > forwarded + QUEUE_LIMIT_SECONDS * 1000
             else time > now2 + QUEUE_LIMIT_SECONDS * 1000)
  {
    CeilSecondsOver(time - now1, thresholdSeconds);
    CeilSecondsOver(time - forwarded, QUEUE_LIMIT_SECONDS);
    CeilSecondsOver(time - now2, QUEUE_LIMIT_SECONDS);
  }

  lemma CeilSecondsOver(milliseconds: int, seconds: nat)
    ensures CeilSeconds(milliseconds) > seconds <==> milliseconds > seconds * 1000
  {
  }
}
