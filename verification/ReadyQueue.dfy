/** What both ready-queue backends must implement: one FIFO of tasks per priority,
    the task to run being the first of the highest non-empty one. */
module ReadyQueue {
  import opened Lists

  type TaskId = nat

  datatype Option<+T> = None | Some(value: T)

  const MAX_PRIORITY: nat := 256

  type Queues = q: seq<seq<TaskId>> | |q| == MAX_PRIORITY witness seq(MAX_PRIORITY, _ => [])

  const EMPTY: Queues := seq(MAX_PRIORITY, _ => [])

  predicate InRange(p: int) { 0 <= p < MAX_PRIORITY }

  /** `aixos_sched_add_task` for a task of priority `p`. */
  function Add(q: Queues, p: int, t: TaskId): (r: Queues) {
    if InRange(p) then q[p := q[p] + [t]] else q
  }

  /** `aixos_sched_remove_task` for a task queued, if at all, under priority `p`. */
  function Remove(q: Queues, p: int, t: TaskId): (r: Queues) {
    if InRange(p) && t in q[p] then q[p := Without(q[p], t)] else q
  }

  /** `aixos_sched_requeue_task` for a task whose priority went from `was` to `p`. */
  function Requeue(q: Queues, was: int, p: int, t: TaskId): (r: Queues) {
    if InRange(was) && t in q[was] then Add(Remove(q, was, t), p, t) else q
  }

  /** `aixos_sched_rotate_current` for a current task of priority `p`. */
  function Rotate(q: Queues, p: int, t: TaskId): (r: Queues) {
    if InRange(p) && t in q[p] && |q[p]| > 1 then q[p := Without(q[p], t) + [t]] else q
  }

  /** `sched_find_highest`. */
  function Highest(q: Queues): (r: Option<TaskId>) {
    HighestBelow(q, MAX_PRIORITY)
  }

  function HighestBelow(q: Queues, n: nat): (r: Option<TaskId>)
    requires n <= MAX_PRIORITY
  {
    if n == 0 then None
    else if q[n - 1] != [] then Some(q[n - 1][0])
    else HighestBelow(q, n - 1)
  }

  /** The selected task is first in its queue and every higher queue is empty. */
  lemma {:induction false} HighestBelowIsFirst(q: Queues, n: nat)
    requires n <= MAX_PRIORITY
    ensures HighestBelow(q, n).None? <==> forall p :: 0 <= p < n ==> q[p] == []
    ensures HighestBelow(q, n).Some? ==>
              exists p :: 0 <= p < n && q[p] != [] && HighestBelow(q, n) == Some(q[p][0])
                          && forall h :: p < h < n ==> q[h] == []
  {
    if n > 0 && q[n - 1] == [] {
      HighestBelowIsFirst(q, n - 1);
    }
  }
}
