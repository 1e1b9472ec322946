/**
 * What both versions of the Zephyr adapter share: the C integer ranges they
 * compute in, the LLMJVM status codes, and the binary wake-up semaphore
 * (`k_sem_init(&sem, 0U, 1U)`) seen through `k_sem_give` and `k_sem_take`.
 */
module Kernel {

  /** Range of C's `int64_t`. */
  const INT64_MIN: int := -0x8000_0000_0000_0000
  const INT64_MAX: int := 0x7FFF_FFFF_FFFF_FFFF

  predicate InInt64(x: int) {
    INT64_MIN <= x <= INT64_MAX
  }

  /** C's `uint8_t`. */
  newtype uint8 = x: int | 0 <= x < 256

  function Min(a: int, b: int): (m: int)
    ensures m <= a && m <= b && (m == a || m == b)
  {
    if a <= b then a else b
  }

  /** `LLMJVM_OK` and `LLMJVM_ERROR`. */
  datatype Status = OK | ERROR

  /** The limit the wake-up semaphore is created with. */
  const SEM_LIMIT: nat := 1

  /**
   * `k_sem_give`: adds one credit unless the semaphore is already at its
   * limit, in which case the give is lost.
   */
  function SemGive(count: nat): (c: nat)
    ensures 0 < c
    ensures count < SEM_LIMIT ==> c == count + 1
    ensures SEM_LIMIT <= count ==> c == count
  {
    if count < SEM_LIMIT then count + 1 else count
  }

  /**
   * What `k_sem_take(&sem, K_FOREVER)` does for the calling task: with a
   * credit it returns 0 at once and consumes the credit; without one the task
   * blocks, unless the kernel ends the wait with a non-zero code (`abortWait`).
   */
  datatype TakeResult = Took(count: nat) | WouldBlock | Failed

  function SemTake(count: nat, abortWait: bool): (r: TakeResult)
    ensures r.Took? <==> 0 < count
    ensures r.Took? ==> r.count + 1 == count
    ensures r.Failed? <==> count == 0 && abortWait
    ensures r.WouldBlock? <==> count == 0 && !abortWait
  {
    if 0 < count then Took(count - 1)
    else if abortWait then Failed
    else WouldBlock
  }

  /** Any number of gives before a take leave exactly one credit to take. */
  lemma GivesSaturate(count: nat, gives: nat)
    requires count <= SEM_LIMIT && 0 < gives
    ensures GiveN(count, gives) == SEM_LIMIT
    ensures SemTake(GiveN(count, gives), false) == Took(0)
    ensures SemTake(SemTake(GiveN(count, gives), false).count, false) == WouldBlock
  {
  }

  /** `gives` successive calls of `k_sem_give`. */
  function GiveN(count: nat, gives: nat): (c: nat)
    requires count <= SEM_LIMIT
    ensures c <= SEM_LIMIT
    ensures gives == 0 ==> c == count
  {
    if gives == 0 then count else SemGive(GiveN(count, gives - 1))
  }
}
