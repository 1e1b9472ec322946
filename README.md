# LLMJVM over Zephyr: the single-alarm wake-up protocol

This project models in Dafny the part of the MicroEJ LLMJVM adapter for Zephyr OS that decides when the VM task sleeps and when it wakes. The VM asks for an alarm with `LLMJVM_IMPL_scheduleRequest(abs)`. The adapter keeps one deadline and one one-shot kernel timer. When the timer expires, or at once when the time has already been reached, it calls back into the VM's `LLMJVM_schedule`. The VM task sleeps in `LLMJVM_IMPL_idleVM` on a binary semaphore (count 0, limit 1), and `LLMJVM_IMPL_wakeupVM` gives that semaphore.

The repository has two versions of this code, and both are modelled:

- `zephyr_v2.dfy`, module `ZephyrV2`: version 2.0.0, `src/main/c/src/LLMJVM_ZephyrOS.c`. It adds the application-time offset.
- `zephyr_v1.dfy`, module `ZephyrV1`: version 1.0.0, `src/LLMJVM_ZephyrOS.c`. It reads the timer's expiry status and uses a different rearm rule.
- `kernel.dfy`, module `Kernel`: the `int64_t` range, the status codes, and the semaphore's `k_sem_give` / `k_sem_take`.

Each version module has two halves:

1. **Step functions.** A `State` datatype holds the globals, plus the timer (armed, duration, start clock, and in v1 the expiry count) and a count of `LLMJVM_schedule` calls. Every entry point is a step function on that state (`ScheduleRequestStep`, `WakeupStep`, …). Their contracts state the protocol rules and keep the invariant `Valid`:
   - the globals fit in `int64_t`;
   - the semaphore holds at most one credit;
   - an armed timer expires at the stored deadline. In v2 this has one exception: after `wakeupVM`, the deadline reads `INT64_MAX` while the old timer may still be armed.
2. **Class `Adapter`.** Its fields are the C globals, and its methods are the C functions written statement by statement. The Zephyr primitives are small methods: `k_timer_stop`, `k_timer_start`, `k_timer_status_get` (which resets the expiry count), `k_sem_give` and `k_sem_take`. Each entry-point method is proved to make exactly the transition of its step function.

Traces (`Event`, `Admissible`, `Run`) are arbitrary sequences of calls and timer expiries. The clock never runs backwards, and a timer expires only when armed and no earlier than its expiry time. The main trace results are:

- From a `Valid` state, every state a trace reaches is `Valid` (`Run`); each step keeps it (`Apply`).
- `Covered` holds after every trace from a valid, covered state, such as the initialised one (`RunStaysCovered`). It says that when no timer is armed, no wake-up is pending or the pending one is no longer waiting on a timer. In v2, "no longer waiting" means the stored deadline has passed. In v1, it means the stored time has passed or the timer expired since its status was last read. `Covered` does not say the alarm is delivered: a due alarm can still pass unserved in v1 (see below).
- In v1, right after any request made after initialization, one of three things holds (`ZephyrV1.EveryRequestServed`). A timer is armed to expire no later than the request, or `LLMJVM_schedule` was called synchronously, or the request asks for `INT64_MAX`. A later request can still replace that timer before it expires (`ZephyrV1.DueUndeliveredAlarmIsReplaced`).
- v2 has one more case (`ZephyrV2.EveryRequestHandled`). A request is dropped, with no timer and no call, when the stored deadline has already passed and `wakeupVM` has not reset it yet. v2 relies on `LLMJVM_schedule` leading to `wakeupVM`.
- In v2, along any trace without `wakeupVM`, the stored deadline is the earliest of the deadline at the start and every time requested during the trace (`ZephyrV2.RequestsKeepEarliest`).
- In v2, only `wakeupVM` raises the deadline (`ZephyrV2.DeadlineRisesOnlyOnWakeup`).

Inputs the C code reads from outside are parameters:

- the clock `now`, which is what `k_uptime_get()` or `LLMJVM_IMPL_getCurrentTime(MICROEJ_TRUE)` returns;
- the status that `LLMJVM_schedule` returns;
- the return code of `k_sem_init` (v2);
- whether the kernel ends a blocked `k_sem_take` with an error (`abortWait`).

`LLMJVM_OK` and `LLMJVM_ERROR` are the datatype `Kernel.Status`. The signed subtractions `abs - now` and `t - now`, and the addition `now + offset`, are undefined in C when they overflow. The model requires them to stay within `int64_t` wherever the code computes them.

Where the code and its comments disagree, the model follows the code:

- `LLMJVM_IMPL_ackWakeup` only returns OK in both versions (`AckKeepsPendingWakeup`). In v2 it is documented to clear a pending wake-up and cancel the alarm. In v1 its comment says it clears the pending wake-up flag and resets the next wake-up time.
- The timer callback checks only that the expiring timer is the adapter's own. It has no way to tell a stale arming from the current one. In v2, a timer armed before `wakeupVM` still schedules the VM when it expires (`ZephyrV2.ExpiryAfterWakeupStillSchedules`).
- In v1, `wakeupVM` does not touch the next wake-up time. The past-due branch of `scheduleRequest` resets it instead.
- In v1, the `next <= now` test also applies while a due alarm has not yet been delivered. A later request then re-arms the timer for itself, and the due alarm passes without a schedule call (`ZephyrV1.DueUndeliveredAlarmIsReplaced`). Whether this can happen depends on how late the kernel delivers an expiry, which is outside this model.

## Model

| member | source | states |
|---|---|---|
| Kernel.SemGive | src/main/c/src/LLMJVM_ZephyrOS.c:95 | a give on the semaphore created with limit 1 adds one credit below the limit and is lost at the limit |
| Kernel.SemTake | src/main/c/src/LLMJVM_ZephyrOS.c:165 | a take succeeds exactly when a credit is present and consumes one; otherwise it blocks, or fails when the kernel ends the wait |
| Kernel.GivesSaturate | src/main/c/src/LLMJVM_ZephyrOS.c:95 | any positive number of gives leaves exactly one credit: one take succeeds and the next blocks |
| ZephyrV2.InitializeStep | src/main/c/src/LLMJVM_ZephyrOS.c:90-102 | initialize returns OK exactly when `k_sem_init` returns 0; it leaves the timer idle and the semaphore empty and does not touch the deadline or the offset |
| ZephyrV2.InitializedState | src/main/c/src/LLMJVM_ZephyrOS.c:32-41 | after load and initialize, the deadline is INT64_MAX, the offset is 0, the timer is idle, the count is 0, and the state is valid and covered |
| ZephyrV2.ScheduleRequestStep | src/main/c/src/LLMJVM_ZephyrOS.c:128-152 | the new deadline is the minimum of the old one and the request; a request not earlier (ties included) changes nothing and returns OK; an earlier future request re-arms the timer for exactly `abs - now` ms (expiring at abs) without a schedule call and returns OK; an earlier past-due request leaves the timer stopped and the deadline at abs, calls `LLMJVM_schedule` once and returns its result; the invariant and coverage are kept |
| ZephyrV2.LaterRequestCoalesces | src/main/c/src/LLMJVM_ZephyrOS.c:131-132 | a request later than a pending armed one changes nothing; the earlier deadline and its timer stay in force |
| ZephyrV2.PastDueRequestHoldsDeadline | src/main/c/src/LLMJVM_ZephyrOS.c:132-148 | a past-due request leaves its deadline at abs, so a later request arms no timer and makes no call until wakeupVM |
| ZephyrV2.IdleStep | src/main/c/src/LLMJVM_ZephyrOS.c:163-171 | with a credit, idle consumes it and returns OK; with none, the state is unchanged and the task blocks, or the call returns ERROR exactly when the take fails |
| ZephyrV2.WakeupStep | src/main/c/src/LLMJVM_ZephyrOS.c:186-193 | wakeupVM resets the deadline to INT64_MAX, leaves exactly one credit and returns OK; nothing else in the state changes |
| ZephyrV2.WakeupsSaturate | src/main/c/src/LLMJVM_ZephyrOS.c:186-193 | after two wake-ups, the first idle returns OK and the second blocks |
| ZephyrV2.AckWakeupStep | src/main/c/src/LLMJVM_ZephyrOS.c:208-210 | ackWakeup changes no state and returns OK |
| ZephyrV2.AckKeepsPendingWakeup | src/main/c/src/LLMJVM_ZephyrOS.c:195-210 | contrary to its documentation, ackWakeup after a wake-up does not make the next idle block |
| ZephyrV2.SetApplicationTimeStep | src/main/c/src/LLMJVM_ZephyrOS.c:242-245 | the offset becomes `t - now` and nothing else changes |
| ZephyrV2.CurrentTime | src/main/c/src/LLMJVM_ZephyrOS.c:262-265 | a non-zero `monotonic` gives the raw clock; zero gives the clock shifted by the offset |
| ZephyrV2.ApplicationTimeRoundTrip | src/main/c/src/LLMJVM_ZephyrOS.c:242-265 | application time read at the clock it was set at is the value set, and it advances with the clock afterwards; monotonic time ignores the offset |
| ZephyrV2.TimerCallbackStep | src/main/c/src/LLMJVM_ZephyrOS.c:55-61 | the callback calls `LLMJVM_schedule` once when the firing timer is the wake-up timer, and otherwise changes nothing |
| ZephyrV2.TimerExpiryStep | src/main/c/src/LLMJVM_ZephyrOS.c:143 | the one-shot timer becomes idle when it expires and the VM is scheduled once; the deadline and the gate are untouched |
| ZephyrV2.ExpiryAfterWakeupStillSchedules | src/main/c/src/LLMJVM_ZephyrOS.c:55-61 | a timer armed before wakeupVM stays armed after the deadline is reset, and its expiry still schedules the VM |
| ZephyrV2.EndToEndWakeup | src/main/c/src/LLMJVM_ZephyrOS.c:128-193 | initialize, request now+50, expiry (one schedule call), wakeupVM: the idling task then resumes with OK, leaving the gate empty and the deadline unset |
| ZephyrV2.Apply | src/main/c/src/LLMJVM_ZephyrOS.c:128-265 | every call or expiry keeps the invariant and the coverage; a request sets the deadline to the minimum of the old one and its time, wakeupVM resets it, and every other event leaves it |
| ZephyrV2.Run | src/main/c/src/LLMJVM_ZephyrOS.c:32-41 | from a valid state, every state reached by a trace of enabled events is valid: int64 globals, at most one credit, and an armed timer expiring at the deadline unless the deadline was reset; proved from each step's preservation |
| ZephyrV2.RunStaysCovered | src/main/c/src/LLMJVM_ZephyrOS.c:128-152 | after any trace of enabled events from a valid, covered state, when no timer is armed, either no deadline is pending or the pending one has passed |
| ZephyrV2.DeadlineRisesOnlyOnWakeup | src/main/c/src/LLMJVM_ZephyrOS.c:132-134 | a trace without wakeupVM never raises the deadline |
| ZephyrV2.RequestsKeepEarliest | src/main/c/src/LLMJVM_ZephyrOS.c:131-134 | along any trace without wakeupVM, the deadline is the earliest of the starting deadline and every time requested (Earliest, which skips other events) |
| ZephyrV2.EveryRequestHandled | src/main/c/src/LLMJVM_ZephyrOS.c:128-152 | after any trace from initialization, right after a request a timer is armed to expire no later than it, or a schedule call was made, or asks for INT64_MAX; otherwise it is dropped only because the stored deadline has passed and has not been reset |
| ZephyrV2.Adapter.constructor | src/main/c/src/LLMJVM_ZephyrOS.c:32-35 | the statics start with deadline INT64_MAX and offset 0 |
| ZephyrV2.Adapter.TimerInit | src/main/c/src/LLMJVM_ZephyrOS.c:93 | `k_timer_init` leaves the timer idle |
| ZephyrV2.Adapter.TimerStop | src/main/c/src/LLMJVM_ZephyrOS.c:137 | `k_timer_stop` disarms the timer and changes nothing else |
| ZephyrV2.Adapter.TimerStart | src/main/c/src/LLMJVM_ZephyrOS.c:143 | `k_timer_start` arms the timer for the given duration from now, replacing any earlier arming |
| ZephyrV2.Adapter.SemaphoreInit | src/main/c/src/LLMJVM_ZephyrOS.c:95 | `k_sem_init` empties the semaphore, and its return code is passed on |
| ZephyrV2.Adapter.SemaphoreGive | src/main/c/src/LLMJVM_ZephyrOS.c:190 | `k_sem_give` is a saturating give |
| ZephyrV2.Adapter.SemaphoreTake | src/main/c/src/LLMJVM_ZephyrOS.c:165 | `k_sem_take` consumes a credit only when it succeeds |
| ZephyrV2.Adapter.CallSchedule | src/main/c/src/LLMJVM_ZephyrOS.c:147 | `LLMJVM_schedule` is counted once and its status is returned |
| ZephyrV2.Adapter.WakeUpTimerCallback | src/main/c/src/LLMJVM_ZephyrOS.c:55-61 | the callback makes exactly the transition of TimerCallbackStep |
| ZephyrV2.Adapter.TimerExpires | src/main/c/src/LLMJVM_ZephyrOS.c:93 | the expiry of the timer registered with the callback makes exactly the transition of TimerExpiryStep |
| ZephyrV2.Adapter.Initialize | src/main/c/src/LLMJVM_ZephyrOS.c:90-102 | the C body makes exactly the transition and result of InitializeStep |
| ZephyrV2.Adapter.VmTaskStarted | src/main/c/src/LLMJVM_ZephyrOS.c:113-115 | returns OK and changes nothing |
| ZephyrV2.Adapter.ScheduleRequest | src/main/c/src/LLMJVM_ZephyrOS.c:128-152 | the C body makes exactly the transition and result of ScheduleRequestStep |
| ZephyrV2.Adapter.IdleVM | src/main/c/src/LLMJVM_ZephyrOS.c:163-171 | the C body makes exactly the transition and outcome of IdleStep |
| ZephyrV2.Adapter.WakeupVM | src/main/c/src/LLMJVM_ZephyrOS.c:186-193 | the C body makes exactly the transition of WakeupStep |
| ZephyrV2.Adapter.AckWakeup | src/main/c/src/LLMJVM_ZephyrOS.c:208-210 | returns OK and changes nothing |
| ZephyrV2.Adapter.Shutdown | src/main/c/src/LLMJVM_ZephyrOS.c:231-233 | returns OK and changes nothing |
| ZephyrV2.Adapter.SetApplicationTime | src/main/c/src/LLMJVM_ZephyrOS.c:242-245 | the C body makes exactly the transition of SetApplicationTimeStep |
| ZephyrV2.Adapter.GetCurrentTime | src/main/c/src/LLMJVM_ZephyrOS.c:262-265 | returns the raw clock for a non-zero `monotonic` and `now + offset` for zero, changing nothing |
| ZephyrV1.InitializeStep | src/LLMJVM_ZephyrOS.c:70-78 | initialize always returns OK; it leaves the timer idle with a zero expiry count and the semaphore empty |
| ZephyrV1.InitializedState | src/LLMJVM_ZephyrOS.c:41 | after load and initialize, the next wake-up time is INT64_MAX, the timer is idle and the count is 0 |
| ZephyrV1.ScheduleRequestStep | src/LLMJVM_ZephyrOS.c:90-117 | a due request sets the next wake-up time to INT64_MAX, stops the timer, and calls `LLMJVM_schedule` once, returning its result; a future request always reads and resets the expiry status; when the timer expired, the request is earlier, or the stored time has passed, it re-arms the timer for `abs - now` ms at abs; otherwise nothing changes and the result is OK |
| ZephyrV1.LaterRequestCoalesces | src/LLMJVM_ZephyrOS.c:104-114 | while an earlier alarm is armed and has not expired, a later request keeps it |
| ZephyrV1.ExpiredAlarmIsReplaced | src/LLMJVM_ZephyrOS.c:104-111 | once the alarm has expired, a request that is not earlier still re-arms the timer for itself |
| ZephyrV1.DueUndeliveredAlarmIsReplaced | src/LLMJVM_ZephyrOS.c:106-111 | a due alarm whose expiry has not been delivered is replaced by a later request, with no schedule call |
| ZephyrV1.IdleStep | src/LLMJVM_ZephyrOS.c:122-128 | with a credit, idle consumes it and returns OK; with none, the task blocks, or ERROR exactly when the take fails |
| ZephyrV1.WakeupStep | src/LLMJVM_ZephyrOS.c:133-137 | wakeupVM leaves exactly one credit, returns OK, and touches neither the next wake-up time nor the timer |
| ZephyrV1.WakeupsSaturate | src/LLMJVM_ZephyrOS.c:133-137 | after two wake-ups, the first idle returns OK and the second blocks |
| ZephyrV1.AckWakeupStep | src/LLMJVM_ZephyrOS.c:142-144 | ackWakeup changes no state and returns OK |
| ZephyrV1.AckKeepsPendingWakeup | src/LLMJVM_ZephyrOS.c:139-144 | contrary to its comment, ackWakeup after a wake-up does not make the next idle block |
| ZephyrV1.TimerCallbackStep | src/LLMJVM_ZephyrOS.c:53-57 | the callback schedules the VM once for the wake-up timer and is a no-op for any other timer |
| ZephyrV1.TimerExpiryStep | src/LLMJVM_ZephyrOS.c:111 | the one-shot timer becomes idle when it expires, its expiry count rises by one, and the VM is scheduled once |
| ZephyrV1.Apply | src/LLMJVM_ZephyrOS.c:90-144 | every call or expiry keeps the invariant and the coverage; the gate operations leave the next wake-up time alone |
| ZephyrV1.Run | src/LLMJVM_ZephyrOS.c:90-144 | from a valid state, every state reached by a trace of enabled events is valid; an armed timer expires exactly at the next wake-up time; proved from each step's preservation |
| ZephyrV1.RunStaysCovered | src/LLMJVM_ZephyrOS.c:90-117 | after any trace of enabled events from a valid, covered state, when no timer is armed, no wake-up is pending, or the timer has expired since the last status read, or the stored time has passed |
| ZephyrV1.EveryRequestServed | src/LLMJVM_ZephyrOS.c:90-117 | after any trace from initialization, right after a request a timer is armed to expire no later than it, or a schedule call was made, or it asks for INT64_MAX |
| ZephyrV1.Adapter.constructor | src/LLMJVM_ZephyrOS.c:41 | the static next wake-up time starts at INT64_MAX |
| ZephyrV1.Adapter.TimerInit | src/LLMJVM_ZephyrOS.c:71 | `k_timer_init` leaves the timer idle with a zero status |
| ZephyrV1.Adapter.TimerStop | src/LLMJVM_ZephyrOS.c:101 | `k_timer_stop` disarms the timer and leaves its status |
| ZephyrV1.Adapter.TimerStart | src/LLMJVM_ZephyrOS.c:111 | `k_timer_start` arms the timer for the given duration from now and resets its status |
| ZephyrV1.Adapter.TimerStatusGet | src/LLMJVM_ZephyrOS.c:104 | `k_timer_status_get` returns the expiry count and resets it to zero |
| ZephyrV1.Adapter.SemaphoreInit | src/LLMJVM_ZephyrOS.c:73 | `k_sem_init` empties the semaphore |
| ZephyrV1.Adapter.SemaphoreGive | src/LLMJVM_ZephyrOS.c:134 | `k_sem_give` is a saturating give |
| ZephyrV1.Adapter.SemaphoreTake | src/LLMJVM_ZephyrOS.c:124 | `k_sem_take` consumes a credit only when it succeeds |
| ZephyrV1.Adapter.CallSchedule | src/LLMJVM_ZephyrOS.c:103 | `LLMJVM_schedule` is counted once and its status is returned |
| ZephyrV1.Adapter.WakeUpTimerCallback | src/LLMJVM_ZephyrOS.c:53-57 | the callback makes exactly the transition of TimerCallbackStep |
| ZephyrV1.Adapter.TimerExpires | src/LLMJVM_ZephyrOS.c:71 | the expiry of the timer registered with the callback makes exactly the transition of TimerExpiryStep |
| ZephyrV1.Adapter.Initialize | src/LLMJVM_ZephyrOS.c:70-78 | the C body makes exactly the transition of InitializeStep and returns OK |
| ZephyrV1.Adapter.VmTaskStarted | src/LLMJVM_ZephyrOS.c:83-85 | returns OK and changes nothing |
| ZephyrV1.Adapter.ScheduleRequest | src/LLMJVM_ZephyrOS.c:90-117 | the C body, with the status read as the first operand of the `||`, makes exactly the transition and result of ScheduleRequestStep |
| ZephyrV1.Adapter.IdleVM | src/LLMJVM_ZephyrOS.c:122-128 | the C body makes exactly the transition and outcome of IdleStep |
| ZephyrV1.Adapter.WakeupVM | src/LLMJVM_ZephyrOS.c:133-137 | the C body makes exactly the transition of WakeupStep |
| ZephyrV1.Adapter.AckWakeup | src/LLMJVM_ZephyrOS.c:142-144 | returns OK and changes nothing |
| ZephyrV1.Adapter.Shutdown | src/LLMJVM_ZephyrOS.c:179-181 | returns OK and changes nothing |

## Left out

- `LLMJVM_IMPL_getTimeNanos` (v2, src/main/c/src/LLMJVM_ZephyrOS.c:276-284): it converts hardware cycles or ticks, and its resolution depends on the hardware.
- `LLMJVM_IMPL_getCurrentTaskID` (both versions): it is only a pointer cast of `k_current_get()`.
- v1 `LLMJVM_IMPL_setApplicationTime`, `LLMJVM_IMPL_getCurrentTime` and `LLMJVM_IMPL_getTimeNanos` (src/LLMJVM_ZephyrOS.c:158-174): they forward to `microej_time_*`, and `microej_time.c` is not part of this model. The clock that v1 `scheduleRequest` reads is the parameter `now`. The call to `microej_time_init` in v1 `initialize` is not modelled.
- Real blocking and concurrency. A `k_sem_take` with no credit is the outcome `Blocked`. A task that a later give would wake is modelled as the give followed by a new idle call. The timer's expiry context and the tasks are interleaved only as whole calls in a trace.
- `K_MSEC` conversion to ticks. Timer durations are kept in milliseconds, and a timer expires no earlier than its start plus its duration.
- The internals of `LLMJVM_schedule`. It belongs to the VM. The model counts its calls and takes its result as a parameter. If the VM reacts by calling `wakeupVM`, that appears in a trace as a separate `Wakeup` event.
- The `__ASSERT` on the callback's schedule result (src/main/c/src/LLMJVM_ZephyrOS.c:59).
- The state of the semaphore after a failed `k_sem_init` (v2). The model treats it as empty.
- Draining the semaphore or cancelling the alarm in `ackWakeup`, and a generation counter against stale timer expiries. The code implements neither, so the model has neither.
