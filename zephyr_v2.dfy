/**
 * The LLMJVM adapter over Zephyr, version 2.0.0
 * (src/main/c/src/LLMJVM_ZephyrOS.c).
 *
 * The adapter keeps one alarm deadline (`current_schedule_time`), one
 * one-shot kernel timer that calls `LLMJVM_schedule` when it expires, a
 * binary semaphore the VM task sleeps on, and the offset from the monotonic
 * clock to application time (`application_time_offset`).
 *
 * The first half of the module states each entry point as a function from the
 * adapter's state to its next state (`State`, `...Step`) and proves what the
 * protocol promises about single calls and about whole traces of calls
 * (`Event`, `Run`). The second half, class `Adapter`, is the C code itself,
 * statement by statement over the same globals, and each of its methods is
 * proved to make exactly the transition its step function describes.
 *
 * The clock is the parameter `now` (the value `k_uptime_get()` returns), and
 * the VM's `LLMJVM_schedule` is an external call whose result is a parameter;
 * the model counts its calls in `scheduleCalls`.
 */
module ZephyrV2 {
  import opened Kernel

  /**
   * The adapter's globals. The timer is armed or idle; when armed it was
   * started at clock `timerStartedAt` for `timerDuration` ms.
   */
  datatype State = State(
    deadline: int,
    offset: int,
    timerArmed: bool,
    timerDuration: int,
    timerStartedAt: int,
    semCount: nat,
    scheduleCalls: nat)

  /** The clock value at which an armed timer expires. */
  function Expiry(s: State): int {
    s.timerStartedAt + s.timerDuration
  }

  /**
   * What every reachable state satisfies: the globals fit their C types, the
   * semaphore never holds more than one credit, and an armed timer expires at
   * the stored deadline, unless `wakeupVM` has since reset the deadline.
   */
  predicate Valid(s: State) {
    InInt64(s.deadline) && InInt64(s.offset) && s.semCount <= SEM_LIMIT &&
    (s.timerArmed ==>
      0 < s.timerDuration && InInt64(s.timerStartedAt) && InInt64(Expiry(s)) &&
      (s.deadline == INT64_MAX || Expiry(s) == s.deadline))
  }

  /**
   * The alarm is not lost at clock `clk`: when no timer is armed, either no
   * deadline is pending or the pending one has already passed.
   */
  predicate Covered(s: State, clk: int) {
    !s.timerArmed ==> s.deadline == INT64_MAX || s.deadline <= clk
  }

  /** The next state and the status code a call returns. */
  datatype Step = Step(state: State, result: Status)

  /** `idleVM` either returns a status or leaves the VM task blocked. */
  datatype IdleOutcome = Resumed(status: Status) | Blocked
  datatype IdleResult = IdleResult(state: State, outcome: IdleOutcome)

  /** The globals as the program is loaded, before `LLMJVM_IMPL_initialize`. */
  function Initial(): State {
    State(INT64_MAX, 0, false, 0, 0, 0, 0)
  }

  /**
   * `LLMJVM_IMPL_initialize`: `k_timer_init` leaves the timer idle and
   * `k_sem_init(&sem, 0U, 1U)` empties the semaphore, whose return code
   * `semInitCode` decides the result.
   */
  function InitializeStep(s: State, semInitCode: int): (r: Step)
    ensures r.result == OK <==> semInitCode == 0
    ensures !r.state.timerArmed && r.state.semCount == 0
    ensures r.state.deadline == s.deadline && r.state.offset == s.offset
    ensures r.state.scheduleCalls == s.scheduleCalls
    ensures Valid(s) ==> Valid(r.state)
  {
    Step(s.(timerArmed := false, semCount := 0), if semInitCode == 0 then OK else ERROR)
  }

  /**
   * `LLMJVM_IMPL_scheduleRequest(abs)` at clock `now`. `abs - now` is only
   * computed when `abs` is earlier than the stored deadline, and must not
   * overflow there.
   */
  function ScheduleRequestStep(s: State, abs: int, now: int, scheduleResult: Status): (r: Step)
    requires InInt64(abs) && InInt64(now)
    requires abs < s.deadline ==> InInt64(abs - now)
    ensures Valid(s) ==> Valid(r.state)
    ensures r.state.deadline == Min(s.deadline, abs)
    ensures r.state.offset == s.offset && r.state.semCount == s.semCount
    // Not earlier than the stored deadline (ties included): nothing happens.
    ensures s.deadline <= abs ==> r == Step(s, OK)
    // Earlier and still in the future: the timer is re-armed to expire at abs.
    ensures abs < s.deadline && 0 < abs - now ==>
      r.state.timerArmed && r.state.timerDuration == abs - now && Expiry(r.state) == abs &&
      r.state.scheduleCalls == s.scheduleCalls && r.result == OK
    // Earlier and already reached: the timer stays stopped and the VM is
    // scheduled once, synchronously; the deadline is left at abs.
    ensures abs < s.deadline && abs - now <= 0 ==>
      !r.state.timerArmed && r.state.scheduleCalls == s.scheduleCalls + 1 &&
      r.result == scheduleResult
    ensures Covered(s, now) ==> Covered(r.state, now)
  {
    if abs < s.deadline then
      var stopped := s.(deadline := abs, timerArmed := false);
      var relative := abs - now;
      if 0 < relative then
        Step(stopped.(timerArmed := true, timerDuration := relative, timerStartedAt := now), OK)
      else
        Step(stopped.(scheduleCalls := s.scheduleCalls + 1), scheduleResult)
    else
      Step(s, OK)
  }

  /** `LLMJVM_IMPL_idleVM`: `k_sem_take(&sem, K_FOREVER)`. */
  function IdleStep(s: State, abortWait: bool): (r: IdleResult)
    ensures 0 < s.semCount ==>
      r.outcome == Resumed(OK) && r.state == s.(semCount := s.semCount - 1)
    ensures s.semCount == 0 ==> r.state == s
    ensures s.semCount == 0 ==> (r.outcome == Blocked <==> !abortWait)
    ensures r.outcome == Resumed(ERROR) <==> s.semCount == 0 && abortWait
    ensures Valid(s) ==> Valid(r.state)
  {
    match SemTake(s.semCount, abortWait)
    case Took(c) => IdleResult(s.(semCount := c), Resumed(OK))
    case Failed => IdleResult(s, Resumed(ERROR))
    case WouldBlock => IdleResult(s, Blocked)
  }

  /** `LLMJVM_IMPL_wakeupVM`: resets the deadline and gives the semaphore. */
  function WakeupStep(s: State): (r: Step)
    ensures r.result == OK
    ensures r.state.deadline == INT64_MAX
    ensures s.semCount <= SEM_LIMIT ==> r.state.semCount == SEM_LIMIT
    ensures r.state == s.(deadline := INT64_MAX, semCount := r.state.semCount)
    ensures Valid(s) ==> Valid(r.state)
  {
    Step(s.(deadline := INT64_MAX, semCount := SemGive(s.semCount)), OK)
  }

  /**
   * `LLMJVM_IMPL_ackWakeup`. Its documentation asks it to clear a pending
   * wake-up and cancel the alarm; its body does neither and returns OK.
   */
  function AckWakeupStep(s: State): (r: Step)
    ensures r.state == s && r.result == OK
  {
    Step(s, OK)
  }

  /** `LLMJVM_IMPL_setApplicationTime(t)` at clock `now`. */
  function SetApplicationTimeStep(s: State, t: int, now: int): (r: State)
    requires InInt64(t) && InInt64(now) && InInt64(t - now)
    ensures r.offset + now == t
    ensures r == s.(offset := r.offset)
    ensures Valid(s) ==> Valid(r)
  {
    s.(offset := t - now)
  }

  /** `LLMJVM_IMPL_getCurrentTime(monotonic)` at clock `now`. */
  function CurrentTime(s: State, monotonic: uint8, now: int): (t: int)
    requires monotonic == 0 ==> InInt64(now + s.offset)
    ensures monotonic != 0 ==> t == now
    ensures monotonic == 0 ==> t - now == s.offset
    ensures InInt64(now) ==> InInt64(t)
  {
    if monotonic != 0 then now else now + s.offset
  }

  /**
   * `wake_up_timer_callback(timer)`, where `isWakeUpTimer` says whether
   * `timer` is the adapter's own timer. The status `LLMJVM_schedule` returns
   * is only asserted on, which is not modelled.
   */
  function TimerCallbackStep(s: State, isWakeUpTimer: bool): (r: State)
    ensures r.scheduleCalls == if isWakeUpTimer then s.scheduleCalls + 1 else s.scheduleCalls
    ensures r == s.(scheduleCalls := r.scheduleCalls)
  {
    if isWakeUpTimer then s.(scheduleCalls := s.scheduleCalls + 1) else s
  }

  /**
   * The kernel expires the armed one-shot timer (started with period
   * `K_NO_WAIT`): the timer becomes idle and the callback runs for it.
   */
  function TimerExpiryStep(s: State): (r: State)
    requires s.timerArmed
    ensures !r.timerArmed && r.scheduleCalls == s.scheduleCalls + 1
    ensures r.deadline == s.deadline && r.semCount == s.semCount && r.offset == s.offset
    ensures Valid(s) ==> Valid(r)
  {
    TimerCallbackStep(s.(timerArmed := false), true)
  }

  // ---------------------------------------------------------------------
  // Single-call properties
  // ---------------------------------------------------------------------

  /** After load and initialisation: no deadline, no offset, idle timer, empty gate. */
  lemma InitializedState(semInitCode: int, clk: int)
    ensures var r := InitializeStep(Initial(), semInitCode);
      r.state.deadline == INT64_MAX && r.state.offset == 0 && !r.state.timerArmed &&
      r.state.semCount == 0 && r.state.scheduleCalls == 0 &&
      Valid(r.state) && Covered(r.state, clk) &&
      (r.result == OK <==> semInitCode == 0)
  {
  }

  /** Two wake-ups before an idle leave one credit: the first idle returns, the second blocks. */
  lemma WakeupsSaturate(s: State)
    requires Valid(s)
    ensures var w := WakeupStep(WakeupStep(s).state).state;
      w.semCount == 1 &&
      IdleStep(w, false).outcome == Resumed(OK) &&
      IdleStep(IdleStep(w, false).state, false).outcome == Blocked
  {
  }

  /**
   * `ackWakeup` does not clear a pending wake-up: an idle after
   * wakeup-then-ack still returns at once (against its documentation).
   */
  lemma AckKeepsPendingWakeup(s: State)
    requires Valid(s)
    ensures var a := AckWakeupStep(WakeupStep(s).state).state;
      IdleStep(a, false).outcome == Resumed(OK)
  {
  }

  /** Application time read back at the clock it was set at is the time set, and then follows the clock. */
  lemma ApplicationTimeRoundTrip(s: State, t: int, c: int, later: int, monotonic: uint8)
    requires InInt64(t) && InInt64(c) && InInt64(t - c)
    requires InInt64(later) && InInt64(later + (t - c))
    requires monotonic != 0
    ensures CurrentTime(SetApplicationTimeStep(s, t, c), 0, c) == t
    ensures CurrentTime(SetApplicationTimeStep(s, t, c), 0, later) == t + (later - c)
    ensures CurrentTime(SetApplicationTimeStep(s, t, c), monotonic, later) == later
  {
  }

  /**
   * Coalescing: a request later than a pending one arms nothing new and keeps
   * the earlier deadline and its timer.
   */
  lemma LaterRequestCoalesces(s: State, first: int, second: int, now: int, res: Status)
    requires Valid(s) && InInt64(first) && InInt64(second) && InInt64(now)
    requires first < s.deadline && now < first && first <= second && InInt64(first - now)
    ensures var a := ScheduleRequestStep(s, first, now, res).state;
      var b := ScheduleRequestStep(a, second, now, res);
      b.state == a && b.result == OK &&
      b.state.deadline == first && b.state.timerArmed && Expiry(b.state) == first
  {
  }

  /**
   * A past-due request leaves its deadline in force with no timer behind it,
   * so a later request is dropped (no timer, no schedule call) until
   * `wakeupVM` resets the deadline.
   */
  lemma PastDueRequestHoldsDeadline(s: State, first: int, second: int, now: int, res: Status)
    requires Valid(s) && InInt64(first) && InInt64(second) && InInt64(now)
    requires first < s.deadline && first <= now && first <= second && InInt64(first - now)
    ensures var a := ScheduleRequestStep(s, first, now, res).state;
      var b := ScheduleRequestStep(a, second, now, res).state;
      a.deadline == first && !b.timerArmed && b.scheduleCalls == s.scheduleCalls + 1
  {
  }

  /**
   * The identity check in the callback only tells timers apart: after
   * `wakeupVM` has reset the deadline, the still-armed timer expires and
   * schedules the VM once more.
   */
  lemma ExpiryAfterWakeupStillSchedules(s: State, abs: int, now: int, res: Status)
    requires Valid(s) && InInt64(abs) && InInt64(now)
    requires abs < s.deadline && now < abs && InInt64(abs - now)
    ensures var a := ScheduleRequestStep(s, abs, now, res).state;
      var w := WakeupStep(a).state;
      w.deadline == INT64_MAX && w.timerArmed &&
      TimerExpiryStep(w).scheduleCalls == s.scheduleCalls + 1
  {
  }

  /**
   * A full wake-up: initialise, request an alarm 50 ms ahead, let the timer
   * expire (one schedule call), let the VM's scheduler wake the VM task, and
   * the idling task resumes with OK; afterwards the gate is empty.
   */
  lemma EndToEndWakeup(now: int)
    requires InInt64(now) && now + 50 < INT64_MAX
    ensures var s0 := InitializeStep(Initial(), 0).state;
      var s1 := ScheduleRequestStep(s0, now + 50, now, OK).state;
      s1.timerArmed && Expiry(s1) == now + 50 &&
      var s2 := TimerExpiryStep(s1);
      s2.scheduleCalls == 1 &&
      var s3 := WakeupStep(s2).state;
      IdleStep(s3, false) == IdleResult(s3.(semCount := 0), Resumed(OK)) &&
      s3.deadline == INT64_MAX
  {
  }

  // ---------------------------------------------------------------------
  // Traces: any interleaving of the entry points and timer expiries
  // ---------------------------------------------------------------------

  /** One entry-point call, or the kernel expiring the timer, at a clock value. */
  datatype Event =
    | Request(abs: int, now: int, scheduleResult: Status)
    | Expire(now: int)
    | Wakeup
    | Idle(abortWait: bool)
    | Ack
    | SetTime(t: int, now: int)

  /** The clock after an event; events without a clock reading keep it. */
  function Clock(clk: int, e: Event): int {
    match e
    case Request(_, now, _) => now
    case Expire(now) => now
    case SetTime(_, now) => now
    case _ => clk
  }

  /**
   * An event can happen in state `s` at clock `clk`: the clock does not run
   * backwards, the C arithmetic does not overflow, and only an armed timer
   * expires, no earlier than its expiry time.
   */
  predicate Enabled(s: State, clk: int, e: Event) {
    match e
    case Request(abs, now, _) =>
      InInt64(abs) && InInt64(now) && clk <= now && (abs < s.deadline ==> InInt64(abs - now))
    case Expire(now) => s.timerArmed && clk <= now && Expiry(s) <= now
    case SetTime(t, now) => InInt64(t) && InInt64(now) && clk <= now && InInt64(t - now)
    case _ => true
  }

  function Apply(s: State, clk: int, e: Event): (r: State)
    requires Enabled(s, clk, e)
    ensures Valid(s) ==> Valid(r)
    ensures Valid(s) && Covered(s, clk) ==> Covered(r, Clock(clk, e))
    ensures e.Request? ==> r.deadline == Min(s.deadline, e.abs)
    ensures e.Wakeup? ==> r.deadline == INT64_MAX
    ensures !e.Request? && !e.Wakeup? ==> r.deadline == s.deadline
  {
    match e
    case Request(abs, now, res) => ScheduleRequestStep(s, abs, now, res).state
    case Expire(_) => TimerExpiryStep(s)
    case Wakeup => WakeupStep(s).state
    case Idle(abortWait) => IdleStep(s, abortWait).state
    case Ack => AckWakeupStep(s).state
    case SetTime(t, now) => SetApplicationTimeStep(s, t, now)
  }

  /** Each event of `evs` is enabled in turn, from state `s` at clock `clk`. */
  predicate Admissible(s: State, clk: int, evs: seq<Event>)
    decreases |evs|
  {
    |evs| > 0 ==>
      Enabled(s, clk, evs[0]) && Admissible(Apply(s, clk, evs[0]), Clock(clk, evs[0]), evs[1..])
  }

  /** The state after the events `evs`; from a valid state, every state reached is valid. */
  function Run(s: State, clk: int, evs: seq<Event>): (r: State)
    requires Valid(s) && Admissible(s, clk, evs)
    ensures Valid(r)
    decreases |evs|
  {
    if |evs| == 0 then s else Run(Apply(s, clk, evs[0]), Clock(clk, evs[0]), evs[1..])
  }

  /** The clock after the events `evs`. */
  function FinalClock(clk: int, evs: seq<Event>): int
    decreases |evs|
  {
    if |evs| == 0 then clk else FinalClock(Clock(clk, evs[0]), evs[1..])
  }

  /** No trace loses the alarm: `Covered` holds after every admissible trace. */
  lemma {:induction false} RunStaysCovered(s: State, clk: int, evs: seq<Event>)
    requires Valid(s) && Admissible(s, clk, evs) && Covered(s, clk)
    ensures Covered(Run(s, clk, evs), FinalClock(clk, evs))
    decreases |evs|
  {
    if |evs| > 0 {
      RunStaysCovered(Apply(s, clk, evs[0]), Clock(clk, evs[0]), evs[1..]);
    }
  }

  /** Only `wakeupVM` raises the deadline: a trace without it never does. */
  lemma {:induction false} DeadlineRisesOnlyOnWakeup(s: State, clk: int, evs: seq<Event>)
    requires Valid(s) && Admissible(s, clk, evs)
    requires forall i :: 0 <= i < |evs| ==> !evs[i].Wakeup?
    ensures Run(s, clk, evs).deadline <= s.deadline
    decreases |evs|
  {
    if |evs| > 0 {
      DeadlineRisesOnlyOnWakeup(Apply(s, clk, evs[0]), Clock(clk, evs[0]), evs[1..]);
    }
  }

  /** The earliest of `d` and the times the requests in `evs` ask for; other events are skipped. */
  function Earliest(d: int, evs: seq<Event>): (m: int)
    ensures m <= d
    ensures forall i :: 0 <= i < |evs| && evs[i].Request? ==> m <= evs[i].abs
    ensures m == d || exists i :: 0 <= i < |evs| && evs[i].Request? && m == evs[i].abs
    decreases |evs|
  {
    if |evs| == 0 then d
    else
      var m := Earliest(if evs[0].Request? then Min(d, evs[0].abs) else d, evs[1..]);
      assert forall i :: 1 <= i < |evs| ==> evs[i] == evs[1..][i - 1];
      m
  }

  /**
   * Until `wakeupVM` resets it, the stored deadline is the earliest of the
   * deadline before the trace and every time requested during it.
   */
  lemma {:induction false} RequestsKeepEarliest(s: State, clk: int, evs: seq<Event>)
    requires Valid(s) && Admissible(s, clk, evs)
    requires forall i :: 0 <= i < |evs| ==> !evs[i].Wakeup?
    ensures Run(s, clk, evs).deadline == Earliest(s.deadline, evs)
    decreases |evs|
  {
    if |evs| > 0 {
      assert forall i :: 0 <= i < |evs[1..]| ==> evs[1..][i] == evs[i + 1];
      RequestsKeepEarliest(Apply(s, clk, evs[0]), Clock(clk, evs[0]), evs[1..]);
    }
  }

  /**
   * Whatever has happened since initialisation, a request is either served by
   * a timer armed to expire no later than it, or by a synchronous schedule
   * call, or asks for `INT64_MAX` (never), or is dropped because the stored
   * deadline has already passed and `wakeupVM` has not yet reset it.
   */
  lemma EveryRequestHandled(semInitCode: int, clk: int, evs: seq<Event>, abs: int, now: int, res: Status)
    requires Admissible(InitializeStep(Initial(), semInitCode).state, clk, evs)
    requires Enabled(Run(InitializeStep(Initial(), semInitCode).state, clk, evs), FinalClock(clk, evs), Request(abs, now, res))
    ensures var s := Run(InitializeStep(Initial(), semInitCode).state, clk, evs);
      var r := ScheduleRequestStep(s, abs, now, res).state;
      (r.timerArmed && Expiry(r) <= abs) ||
      r.scheduleCalls == s.scheduleCalls + 1 ||
      abs == INT64_MAX ||
      (r == s && !s.timerArmed && s.deadline <= now)
  {
    var s0 := InitializeStep(Initial(), semInitCode).state;
    InitializedState(semInitCode, clk);
    RunStaysCovered(s0, clk, evs);
  }

  // ---------------------------------------------------------------------
  // The C code over the adapter's globals
  // ---------------------------------------------------------------------

  class Adapter {
    /** `current_schedule_time` */
    var deadline: int
    /** `application_time_offset` */
    var offset: int
    /** `LLMJVM_zephyr_wake_up_timer` */
    var timerArmed: bool
    var timerDuration: int
    var timerStartedAt: int
    /** `LLMJVM_zephyr_semaphore` */
    var semCount: nat
    /** Calls made to `LLMJVM_schedule`. */
    var scheduleCalls: nat

    function Snapshot(): State
      reads this
    {
      State(deadline, offset, timerArmed, timerDuration, timerStartedAt, semCount, scheduleCalls)
    }

    /** The static initialisers of the globals. */
    constructor ()
      ensures Snapshot() == Initial()
    {
      deadline := INT64_MAX;
      offset := 0;
      timerArmed := false;
      timerDuration := 0;
      timerStartedAt := 0;
      semCount := 0;
      scheduleCalls := 0;
    }

    // Kernel primitives and the external VM call

    /** `k_timer_init`: the timer is idle. */
    method TimerInit()
      modifies this
      ensures Snapshot() == old(Snapshot()).(timerArmed := false)
    {
      timerArmed := false;
    }

    /** `k_timer_stop` */
    method TimerStop()
      modifies this
      ensures Snapshot() == old(Snapshot()).(timerArmed := false)
    {
      timerArmed := false;
    }

    /** `k_timer_start(timer, K_MSEC(duration), K_NO_WAIT)` at clock `now`; replaces any earlier arming. */
    method TimerStart(duration: int, now: int)
      modifies this
      ensures Snapshot() == old(Snapshot()).(timerArmed := true, timerDuration := duration, timerStartedAt := now)
    {
      timerArmed := true;
      timerDuration := duration;
      timerStartedAt := now;
    }

    /** `k_sem_init(&sem, 0U, 1U)`, whose return code is `semInitCode`. */
    method SemaphoreInit(semInitCode: int) returns (retcode: int)
      modifies this
      ensures retcode == semInitCode
      ensures Snapshot() == old(Snapshot()).(semCount := 0)
    {
      semCount := 0;
      retcode := semInitCode;
    }

    /** `k_sem_give` */
    method SemaphoreGive()
      modifies this
      ensures Snapshot() == old(Snapshot()).(semCount := SemGive(old(semCount)))
    {
      semCount := SemGive(semCount);
    }

    /** `k_sem_take(&sem, K_FOREVER)` */
    method SemaphoreTake(abortWait: bool) returns (r: TakeResult)
      modifies this
      ensures r == SemTake(old(semCount), abortWait)
      ensures Snapshot() == if r.Took? then old(Snapshot()).(semCount := r.count) else old(Snapshot())
    {
      r := SemTake(semCount, abortWait);
      if r.Took? {
        semCount := r.count;
      }
    }

    /** `LLMJVM_schedule()`, which returns `scheduleResult`. */
    method CallSchedule(scheduleResult: Status) returns (result: Status)
      modifies this
      ensures result == scheduleResult
      ensures Snapshot() == old(Snapshot()).(scheduleCalls := old(scheduleCalls) + 1)
    {
      scheduleCalls := scheduleCalls + 1;
      result := scheduleResult;
    }

    // Entry points

    /** `wake_up_timer_callback` */
    method WakeUpTimerCallback(isWakeUpTimer: bool, scheduleResult: Status)
      modifies this
      ensures Snapshot() == TimerCallbackStep(old(Snapshot()), isWakeUpTimer)
    {
      if isWakeUpTimer {
        var result := CallSchedule(scheduleResult);
      }
    }

    /** The kernel expires the armed timer and runs its callback. */
    method TimerExpires(scheduleResult: Status)
      requires timerArmed
      modifies this
      ensures Snapshot() == TimerExpiryStep(old(Snapshot()))
    {
      timerArmed := false;
      WakeUpTimerCallback(true, scheduleResult);
    }

    /** `LLMJVM_IMPL_initialize` */
    method Initialize(semInitCode: int) returns (result: Status)
      modifies this
      ensures Step(Snapshot(), result) == InitializeStep(old(Snapshot()), semInitCode)
    {
      TimerInit();
      var retcode := SemaphoreInit(semInitCode);
      if retcode == 0 {
        result := OK;
      } else {
        result := ERROR;
      }
    }

    /** `LLMJVM_IMPL_vmTaskStarted` */
    method VmTaskStarted() returns (result: Status)
      ensures result == OK
    {
      result := OK;
    }

    /** `LLMJVM_IMPL_scheduleRequest(absoluteTime)` at clock `now`. */
    method ScheduleRequest(absoluteTime: int, now: int, scheduleResult: Status) returns (result: Status)
      requires InInt64(absoluteTime) && InInt64(now)
      requires absoluteTime < deadline ==> InInt64(absoluteTime - now)
      modifies this
      ensures Step(Snapshot(), result) == ScheduleRequestStep(old(Snapshot()), absoluteTime, now, scheduleResult)
    {
      result := OK;
      if absoluteTime < deadline {
        deadline := absoluteTime;
        TimerStop();
        var relative := absoluteTime - now;
        if 0 < relative {
          TimerStart(relative, now);
          result := OK;
        } else {
          result := CallSchedule(scheduleResult);
        }
      }
    }

    /** `LLMJVM_IMPL_idleVM` */
    method IdleVM(abortWait: bool) returns (outcome: IdleOutcome)
      modifies this
      ensures IdleResult(Snapshot(), outcome) == IdleStep(old(Snapshot()), abortWait)
    {
      var taken := SemaphoreTake(abortWait);
      if taken.WouldBlock? {
        outcome := Blocked;
      } else if taken.Failed? {
        outcome := Resumed(ERROR);
      } else {
        outcome := Resumed(OK);
      }
    }

    /** `LLMJVM_IMPL_wakeupVM` */
    method WakeupVM() returns (result: Status)
      modifies this
      ensures Step(Snapshot(), result) == WakeupStep(old(Snapshot()))
    {
      deadline := INT64_MAX;
      SemaphoreGive();
      result := OK;
    }

    /** `LLMJVM_IMPL_ackWakeup` */
    method AckWakeup() returns (result: Status)
      ensures Step(Snapshot(), result) == AckWakeupStep(Snapshot())
    {
      result := OK;
    }

    /** `LLMJVM_IMPL_shutdown` */
    method Shutdown() returns (result: Status)
      ensures result == OK
    {
      result := OK;
    }

    /** `LLMJVM_IMPL_setApplicationTime(t)` at clock `now`. */
    method SetApplicationTime(t: int, now: int)
      requires InInt64(t) && InInt64(now) && InInt64(t - now)
      modifies this
      ensures Snapshot() == SetApplicationTimeStep(old(Snapshot()), t, now)
    {
      var currentTime := now;
      offset := t - currentTime;
    }

    /** `LLMJVM_IMPL_getCurrentTime(monotonic)` at clock `now`. */
    method GetCurrentTime(monotonic: uint8, now: int) returns (time: int)
      requires InInt64(now)
      requires monotonic == 0 ==> InInt64(now + offset)
      ensures time == CurrentTime(Snapshot(), monotonic, now)
      ensures monotonic != 0 ==> time == now
      ensures monotonic == 0 ==> time - now == offset
    {
      var systemTime := now;
      if monotonic != 0 {
        time := systemTime;
      } else {
        time := systemTime + offset;
      }
    }
  }
}
