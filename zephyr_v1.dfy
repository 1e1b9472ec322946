/**
 * The LLMJVM adapter over Zephyr, version 1.0.0 (src/LLMJVM_ZephyrOS.c).
 *
 * This version keeps the next wake-up time (`LLMJVM_zephyr_next_wake_up_time`),
 * one one-shot timer and a binary semaphore. Unlike version 2.0.0 it resets
 * the next wake-up time when a request is already due, never in `wakeupVM`,
 * and it re-arms the timer for a later request when the stored alarm is
 * stale: the timer expired since the last look (`k_timer_status_get`, which
 * also resets the expiry count) or the stored time has passed.
 *
 * Shape as in module ZephyrV2: step functions over `State` with their
 * properties and trace lemmas, then class `Adapter` with the C code.
 */
module ZephyrV1 {
  import opened Kernel

  /**
   * The adapter's globals. `timerStatus` is the kernel's count of expiries
   * of the timer since its status was last read.
   */
  datatype State = State(
    next: int,
    timerArmed: bool,
    timerDuration: int,
    timerStartedAt: int,
    timerStatus: nat,
    semCount: nat,
    scheduleCalls: nat)

  /** The clock value at which an armed timer expires. */
  function Expiry(s: State): int {
    s.timerStartedAt + s.timerDuration
  }

  /**
   * What every reachable state satisfies: the next wake-up time fits in
   * `int64_t`, the semaphore holds at most one credit, and an armed timer
   * expires exactly at the next wake-up time.
   */
  predicate Valid(s: State) {
    InInt64(s.next) && s.semCount <= SEM_LIMIT &&
    (s.timerArmed ==>
      0 < s.timerDuration && InInt64(s.timerStartedAt) && InInt64(Expiry(s)) &&
      Expiry(s) == s.next)
  }

  /**
   * The alarm is not lost at clock `clk`: when no timer is armed, no wake-up
   * is pending, or the timer has expired since its status was last read, or
   * the stored wake-up time has passed.
   */
  predicate Covered(s: State, clk: int) {
    !s.timerArmed ==> s.next == INT64_MAX || 0 < s.timerStatus || s.next <= clk
  }

  datatype Step = Step(state: State, result: Status)

  datatype IdleOutcome = Resumed(status: Status) | Blocked
  datatype IdleResult = IdleResult(state: State, outcome: IdleOutcome)

  /** The globals as the program is loaded, before `LLMJVM_IMPL_initialize`. */
  function Initial(): State {
    State(INT64_MAX, false, 0, 0, 0, 0, 0)
  }

  /**
   * `LLMJVM_IMPL_initialize`: `k_timer_init` leaves the timer idle with a
   * zero status, `k_sem_init(&sem, 0U, 1U)` empties the semaphore, and the
   * result is OK whatever `k_sem_init` returns.
   */
  function InitializeStep(s: State): (r: Step)
    ensures r.result == OK
    ensures !r.state.timerArmed && r.state.timerStatus == 0 && r.state.semCount == 0
    ensures r.state.next == s.next && r.state.scheduleCalls == s.scheduleCalls
    ensures Valid(s) ==> Valid(r.state)
  {
    Step(s.(timerArmed := false, timerStatus := 0, semCount := 0), OK)
  }

  /**
   * Whether the timer is re-armed for a request still in the future; the
   * status is the value `k_timer_status_get` returned.
   */
  predicate Rearms(s: State, abs: int, now: int, status: nat) {
    0 < status || abs < s.next || s.next <= now
  }

  /**
   * `LLMJVM_IMPL_scheduleRequest(abs)` at clock `now`; `abs - now` is
   * computed first, and must not overflow.
   */
  function ScheduleRequestStep(s: State, abs: int, now: int, scheduleResult: Status): (r: Step)
    requires InInt64(abs) && InInt64(now) && InInt64(abs - now)
    ensures Valid(s) ==> Valid(r.state)
    ensures r.state.semCount == s.semCount
    // Already due: no wake-up pending, timer stopped, the VM scheduled once.
    ensures abs - now <= 0 ==>
      r.state.next == INT64_MAX && !r.state.timerArmed &&
      r.state.timerStatus == s.timerStatus &&
      r.state.scheduleCalls == s.scheduleCalls + 1 && r.result == scheduleResult
    // In the future: the expiry status is always read, hence reset.
    ensures 0 < abs - now ==>
      r.state.timerStatus == 0 && r.state.scheduleCalls == s.scheduleCalls && r.result == OK
    ensures 0 < abs - now && Rearms(s, abs, now, s.timerStatus) ==>
      r.state.next == abs && r.state.timerArmed &&
      r.state.timerDuration == abs - now && Expiry(r.state) == abs
    // A pending, earlier, unexpired alarm: nothing else changes.
    ensures 0 < abs - now && !Rearms(s, abs, now, s.timerStatus) ==> r.state == s
    ensures Covered(s, now) ==> Covered(r.state, now)
  {
    var relative := abs - now;
    if relative <= 0 then
      Step(s.(next := INT64_MAX, timerArmed := false, scheduleCalls := s.scheduleCalls + 1), scheduleResult)
    else
      var status := s.timerStatus;
      var read := s.(timerStatus := 0);
      if Rearms(s, abs, now, status) then
        Step(read.(next := abs, timerArmed := true, timerDuration := relative, timerStartedAt := now), OK)
      else
        Step(read, OK)
  }

  /** `LLMJVM_IMPL_idleVM`: `k_sem_take(&sem, K_FOREVER)`. */
  function IdleStep(s: State, abortWait: bool): (r: IdleResult)
    ensures 0 < s.semCount ==>
      r.outcome == Resumed(OK) && r.state == s.(semCount := s.semCount - 1)
    ensures s.semCount == 0 ==> r.state == s
    ensures s.semCount == 0 ==> (r.outcome == Blocked <==> !abortWait)
    ensures r.outcome == Resumed(ERROR) <==> s.semCount == 0 && abortWait
    ensures Valid(s) ==> Valid(r.state)
  {
    match SemTake(s.semCount, abortWait)
    case Took(c) => IdleResult(s.(semCount := c), Resumed(OK))
    case Failed => IdleResult(s, Resumed(ERROR))
    case WouldBlock => IdleResult(s, Blocked)
  }

  /** `LLMJVM_IMPL_wakeupVM`: gives the semaphore and nothing else. */
  function WakeupStep(s: State): (r: Step)
    ensures r.result == OK
    ensures s.semCount <= SEM_LIMIT ==> r.state.semCount == SEM_LIMIT
    ensures r.state == s.(semCount := r.state.semCount)
    ensures Valid(s) ==> Valid(r.state)
  {
    Step(s.(semCount := SemGive(s.semCount)), OK)
  }

  /**
   * `LLMJVM_IMPL_ackWakeup`. Its comment speaks of clearing the pending
   * flag and resetting the next wake-up time; its body only returns OK.
   */
  function AckWakeupStep(s: State): (r: Step)
    ensures r.state == s && r.result == OK
  {
    Step(s, OK)
  }

  /** `wake_up_timer_callback(timer)`; the status of `LLMJVM_schedule` is discarded. */
  function TimerCallbackStep(s: State, isWakeUpTimer: bool): (r: State)
    ensures r.scheduleCalls == if isWakeUpTimer then s.scheduleCalls + 1 else s.scheduleCalls
    ensures r == s.(scheduleCalls := r.scheduleCalls)
  {
    if isWakeUpTimer then s.(scheduleCalls := s.scheduleCalls + 1) else s
  }

  /**
   * The kernel expires the armed one-shot timer: it becomes idle, its
   * expiry count goes up by one, and the callback runs for it.
   */
  function TimerExpiryStep(s: State): (r: State)
    requires s.timerArmed
    ensures !r.timerArmed && r.timerStatus == s.timerStatus + 1
    ensures r.scheduleCalls == s.scheduleCalls + 1
    ensures r.next == s.next && r.semCount == s.semCount
    ensures Valid(s) ==> Valid(r)
  {
    TimerCallbackStep(s.(timerArmed := false, timerStatus := s.timerStatus + 1), true)
  }

  // ---------------------------------------------------------------------
  // Single-call properties
  // ---------------------------------------------------------------------

  /** After load and initialisation: no wake-up pending, idle timer, empty gate. */
  lemma InitializedState(clk: int)
    ensures var r := InitializeStep(Initial());
      r.state.next == INT64_MAX && !r.state.timerArmed && r.state.timerStatus == 0 &&
      r.state.semCount == 0 && r.result == OK && Valid(r.state) && Covered(r.state, clk)
  {
  }

  /** Two wake-ups before an idle leave one credit: the first idle returns, the second blocks. */
  lemma WakeupsSaturate(s: State)
    requires Valid(s)
    ensures var w := WakeupStep(WakeupStep(s).state).state;
      w.semCount == 1 &&
      IdleStep(w, false).outcome == Resumed(OK) &&
      IdleStep(IdleStep(w, false).state, false).outcome == Blocked
  {
  }

  /** `ackWakeup` leaves a pending wake-up in place: the next idle returns at once. */
  lemma AckKeepsPendingWakeup(s: State)
    requires Valid(s)
    ensures var a := AckWakeupStep(WakeupStep(s).state).state;
      IdleStep(a, false).outcome == Resumed(OK)
  {
  }

  /**
   * Coalescing: while an earlier alarm is armed and has not expired, a later
   * request only reads the timer status and keeps the alarm.
   */
  lemma LaterRequestCoalesces(s: State, first: int, second: int, now: int, res: Status)
    requires Valid(s) && InInt64(first) && InInt64(second) && InInt64(now)
    requires now < first <= second && first < s.next
    requires InInt64(first - now) && InInt64(second - now)
    ensures var a := ScheduleRequestStep(s, first, now, res).state;
      var b := ScheduleRequestStep(a, second, now, res);
      b.state == a && b.result == OK && a.next == first && a.timerArmed && Expiry(a) == first
  {
  }

  /**
   * After the alarm has expired, a request for a later time re-arms the timer
   * for that time, although it is not earlier than the stored one.
   */
  lemma ExpiredAlarmIsReplaced(s: State, abs: int, now: int, res: Status)
    requires Valid(s) && s.timerArmed && InInt64(abs) && InInt64(now) && InInt64(abs - now)
    requires Expiry(s) <= now < abs && s.next <= abs
    ensures var r := ScheduleRequestStep(TimerExpiryStep(s), abs, now, res).state;
      r.timerArmed && r.next == abs && Expiry(r) == abs && r.timerStatus == 0
  {
  }

  /**
   * The `next <= now` test also fires while the stored alarm is due but its
   * expiry has not been delivered yet: a later request then re-arms the timer
   * for itself, and the due alarm passes without a schedule call.
   */
  lemma DueUndeliveredAlarmIsReplaced(s: State, abs: int, now: int, res: Status)
    requires Valid(s) && s.timerArmed && InInt64(abs) && InInt64(now) && InInt64(abs - now)
    requires Expiry(s) <= now < abs
    ensures var r := ScheduleRequestStep(s, abs, now, res).state;
      r.timerArmed && Expiry(r) == abs && s.next < abs && r.scheduleCalls == s.scheduleCalls
  {
  }

  // ---------------------------------------------------------------------
  // Traces: any interleaving of the entry points and timer expiries
  // ---------------------------------------------------------------------

  datatype Event =
    | Request(abs: int, now: int, scheduleResult: Status)
    | Expire(now: int)
    | Wakeup
    | Idle(abortWait: bool)
    | Ack

  function Clock(clk: int, e: Event): int {
    match e
    case Request(_, now, _) => now
    case Expire(now) => now
    case _ => clk
  }

  /**
   * An event can happen in state `s` at clock `clk`: the clock does not run
   * backwards, `abs - now` does not overflow, and only an armed timer
   * expires, no earlier than its expiry time.
   */
  predicate Enabled(s: State, clk: int, e: Event) {
    match e
    case Request(abs, now, _) => InInt64(abs) && InInt64(now) && clk <= now && InInt64(abs - now)
    case Expire(now) => s.timerArmed && clk <= now && Expiry(s) <= now
    case _ => true
  }

  function Apply(s: State, clk: int, e: Event): (r: State)
    requires Enabled(s, clk, e)
    ensures Valid(s) ==> Valid(r)
    ensures Valid(s) && Covered(s, clk) ==> Covered(r, Clock(clk, e))
    ensures e.Wakeup? || e.Idle? || e.Ack? ==> r.next == s.next
  {
    match e
    case Request(abs, now, res) => ScheduleRequestStep(s, abs, now, res).state
    case Expire(_) => TimerExpiryStep(s)
    case Wakeup => WakeupStep(s).state
    case Idle(abortWait) => IdleStep(s, abortWait).state
    case Ack => AckWakeupStep(s).state
  }

  /** Each event of `evs` is enabled in turn, from state `s` at clock `clk`. */
  predicate Admissible(s: State, clk: int, evs: seq<Event>)
    decreases |evs|
  {
    |evs| > 0 ==>
      Enabled(s, clk, evs[0]) && Admissible(Apply(s, clk, evs[0]), Clock(clk, evs[0]), evs[1..])
  }

  /** The state after the events `evs`; from a valid state, every state reached is valid. */
  function Run(s: State, clk: int, evs: seq<Event>): (r: State)
    requires Valid(s) && Admissible(s, clk, evs)
    ensures Valid(r)
    decreases |evs|
  {
    if |evs| == 0 then s else Run(Apply(s, clk, evs[0]), Clock(clk, evs[0]), evs[1..])
  }

  function FinalClock(clk: int, evs: seq<Event>): int
    decreases |evs|
  {
    if |evs| == 0 then clk else FinalClock(Clock(clk, evs[0]), evs[1..])
  }

  /** No trace loses the alarm: `Covered` holds after every admissible trace. */
  lemma {:induction false} RunStaysCovered(s: State, clk: int, evs: seq<Event>)
    requires Valid(s) && Admissible(s, clk, evs) && Covered(s, clk)
    ensures Covered(Run(s, clk, evs), FinalClock(clk, evs))
    decreases |evs|
  {
    if |evs| > 0 {
      RunStaysCovered(Apply(s, clk, evs[0]), Clock(clk, evs[0]), evs[1..]);
    }
  }

  /**
   * Whatever has happened since initialisation, a request is served: by a
   * timer armed to expire no later than it, or by a synchronous schedule
   * call, unless it asks for `INT64_MAX` (never).
   */
  lemma EveryRequestServed(clk: int, evs: seq<Event>, abs: int, now: int, res: Status)
    requires Admissible(InitializeStep(Initial()).state, clk, evs)
    requires Enabled(Run(InitializeStep(Initial()).state, clk, evs), FinalClock(clk, evs), Request(abs, now, res))
    ensures var s := Run(InitializeStep(Initial()).state, clk, evs);
      var r := ScheduleRequestStep(s, abs, now, res).state;
      (r.timerArmed && Expiry(r) <= abs) ||
      r.scheduleCalls == s.scheduleCalls + 1 ||
      abs == INT64_MAX
  {
    InitializedState(clk);
    RunStaysCovered(InitializeStep(Initial()).state, clk, evs);
  }

  // ---------------------------------------------------------------------
  // The C code over the adapter's globals
  // ---------------------------------------------------------------------

  class Adapter {
    /** `LLMJVM_zephyr_next_wake_up_time` */
    var next: int
    /** `LLMJVM_zephyr_wake_up_timer` */
    var timerArmed: bool
    var timerDuration: int
    var timerStartedAt: int
    var timerStatus: nat
    /** `LLMJVM_zephyr_semaphore` */
    var semCount: nat
    /** Calls made to `LLMJVM_schedule`. */
    var scheduleCalls: nat

    function Snapshot(): State
      reads this
    {
      State(next, timerArmed, timerDuration, timerStartedAt, timerStatus, semCount, scheduleCalls)
    }

    /** The static initialiser of the globals. */
    constructor ()
      ensures Snapshot() == Initial()
    {
      next := INT64_MAX;
      timerArmed := false;
      timerDuration := 0;
      timerStartedAt := 0;
      timerStatus := 0;
      semCount := 0;
      scheduleCalls := 0;
    }

    // Kernel primitives and the external VM call

    /** `k_timer_init`: the timer is idle with a zero status. */
    method TimerInit()
      modifies this
      ensures Snapshot() == old(Snapshot()).(timerArmed := false, timerStatus := 0)
    {
      timerArmed := false;
      timerStatus := 0;
    }

    /** `k_timer_stop`: the status is left as it is. */
    method TimerStop()
      modifies this
      ensures Snapshot() == old(Snapshot()).(timerArmed := false)
    {
      timerArmed := false;
    }

    /** `k_timer_start(timer, K_MSEC(duration), K_NO_WAIT)` at clock `now`; resets the status. */
    method TimerStart(duration: int, now: int)
      modifies this
      ensures Snapshot() == old(Snapshot()).(timerArmed := true, timerDuration := duration,
                                             timerStartedAt := now, timerStatus := 0)
    {
      timerArmed := true;
      timerDuration := duration;
      timerStartedAt := now;
      timerStatus := 0;
    }

    /** `k_timer_status_get`: returns the expiry count and resets it to zero. */
    method TimerStatusGet() returns (status: nat)
      modifies this
      ensures status == old(timerStatus)
      ensures Snapshot() == old(Snapshot()).(timerStatus := 0)
    {
      status := timerStatus;
      timerStatus := 0;
    }

    /** `k_sem_init(&sem, 0U, 1U)`; its return code is not looked at. */
    method SemaphoreInit()
      modifies this
      ensures Snapshot() == old(Snapshot()).(semCount := 0)
    {
      semCount := 0;
    }

    /** `k_sem_give` */
    method SemaphoreGive()
      modifies this
      ensures Snapshot() == old(Snapshot()).(semCount := SemGive(old(semCount)))
    {
      semCount := SemGive(semCount);
    }

    /** `k_sem_take(&sem, K_FOREVER)` */
    method SemaphoreTake(abortWait: bool) returns (r: TakeResult)
      modifies this
      ensures r == SemTake(old(semCount), abortWait)
      ensures Snapshot() == if r.Took? then old(Snapshot()).(semCount := r.count) else old(Snapshot())
    {
      r := SemTake(semCount, abortWait);
      if r.Took? {
        semCount := r.count;
      }
    }

    /** `LLMJVM_schedule()`, which returns `scheduleResult`. */
    method CallSchedule(scheduleResult: Status) returns (result: Status)
      modifies this
      ensures result == scheduleResult
      ensures Snapshot() == old(Snapshot()).(scheduleCalls := old(scheduleCalls) + 1)
    {
      scheduleCalls := scheduleCalls + 1;
      result := scheduleResult;
    }

    // Entry points

    /** `wake_up_timer_callback` */
    method WakeUpTimerCallback(isWakeUpTimer: bool, scheduleResult: Status)
      modifies this
      ensures Snapshot() == TimerCallbackStep(old(Snapshot()), isWakeUpTimer)
    {
      if isWakeUpTimer {
        var ignored := CallSchedule(scheduleResult);
      }
    }

    /** The kernel expires the armed timer, counts the expiry and runs the callback. */
    method TimerExpires(scheduleResult: Status)
      requires timerArmed
      modifies this
      ensures Snapshot() == TimerExpiryStep(old(Snapshot()))
    {
      timerArmed := false;
      timerStatus := timerStatus + 1;
      WakeUpTimerCallback(true, scheduleResult);
    }

    /** `LLMJVM_IMPL_initialize` */
    method Initialize() returns (result: Status)
      modifies this
      ensures Step(Snapshot(), result) == InitializeStep(old(Snapshot()))
    {
      TimerInit();
      SemaphoreInit();
      result := OK;
    }

    /** `LLMJVM_IMPL_vmTaskStarted` */
    method VmTaskStarted() returns (result: Status)
      ensures result == OK
    {
      result := OK;
    }

    /** `LLMJVM_IMPL_scheduleRequest(absoluteTime)` at clock `now`. */
    method ScheduleRequest(absoluteTime: int, now: int, scheduleResult: Status) returns (result: Status)
      requires InInt64(absoluteTime) && InInt64(now) && InInt64(absoluteTime - now)
      modifies this
      ensures Step(Snapshot(), result) == ScheduleRequestStep(old(Snapshot()), absoluteTime, now, scheduleResult)
    {
      result := OK;
      var currentTime := now;
      var relativeTime := absoluteTime - currentTime;
      if relativeTime <= 0 {
        next := INT64_MAX;
        TimerStop();
        result := CallSchedule(scheduleResult);
      } else {
        // `k_timer_status_get` is the first operand of `||`, so it always runs.
        var status := TimerStatusGet();
        if 0 < status || absoluteTime < next || next <= currentTime {
          next := absoluteTime;
          TimerStart(relativeTime, currentTime);
        }
      }
    }

    /** `LLMJVM_IMPL_idleVM` */
    method IdleVM(abortWait: bool) returns (outcome: IdleOutcome)
      modifies this
      ensures IdleResult(Snapshot(), outcome) == IdleStep(old(Snapshot()), abortWait)
    {
      outcome := Resumed(OK);
      var taken := SemaphoreTake(abortWait);
      if taken.WouldBlock? {
        outcome := Blocked;
      } else if taken.Failed? {
        outcome := Resumed(ERROR);
      }
    }

    /** `LLMJVM_IMPL_wakeupVM` */
    method WakeupVM() returns (result: Status)
      modifies this
      ensures Step(Snapshot(), result) == WakeupStep(old(Snapshot()))
    {
      SemaphoreGive();
      result := OK;
    }

    /** `LLMJVM_IMPL_ackWakeup` */
    method AckWakeup() returns (result: Status)
      ensures Step(Snapshot(), result) == AckWakeupStep(Snapshot())
    {
      result := OK;
    }

    /** `LLMJVM_IMPL_shutdown` */
    method Shutdown() returns (result: Status)
      ensures result == OK
    {
      result := OK;
    }
  }
}
