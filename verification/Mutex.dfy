/** The mutex object (ipc.c): the two calls, statement by statement, against MutexModel. */
module Mutexes {
  import opened IpcList
  import opened MutexModel

  /** The current_priority fields of all threads. */
  class ThreadTable {
    var current: Table

    /** rt_thread_control with RT_THREAD_CTRL_CHANGE_PRIORITY; what it does to the ready queues
        is in SchedulerModel. */
    method ChangePriority(t: Tid, priority: int)
      modifies this
      ensures current == old(current)[t := priority]
    {
      current := current[t := priority];
    }
  }

  class MutexObject {
    const flag: Flag
    const threads: ThreadTable
    const waiters: ThreadList

    var value: nat
    var owner: Owner
    var original: int
    var hold: nat

    ghost var gone: int

    ghost function View(): Mutex
      reads this, waiters
    {
      Mutex(value, owner, original, hold, waiters.list, gone)
    }

    /** Everybody who owns the mutex or waits for it is a thread of the table. */
    ghost predicate Known(prio: Table)
      reads this, waiters
    {
      (owner.Thread? ==> owner.tid in prio) && forall t :: t in waiters.list ==> t in prio
    }

    /** rt_mutex_init */
    constructor (flag: Flag, threads: ThreadTable)
      ensures View() == Free() && this.flag == flag && this.threads == threads && fresh(waiters)
    {
      this.flag, this.threads := flag, threads;
      waiters := new ThreadList();
      value, owner, original, hold := 1, Nobody, NO_PRIORITY, 0;
      gone := PRIORITY_MAX - 1;
    }

    /** rt_mutex_take */
    method Take(t: Tid, giveUp: bool) returns (outcome: Outcome)
      requires Shape(View()) && Known(threads.current) && t in threads.current
      modifies this, threads, waiters
      ensures Result(View(), threads.current, outcome) ==
        MutexModel.Take(old(View()), old(threads.current), t, giveUp, flag)
    {
      if owner == Thread(t) {
        if hold < HOLD_MAX {
          hold := hold + 1;
        } else {
          return Overflow;
        }
      } else if value > 0 {
        value := value - 1;
        owner, original := Thread(t), threads.current[t];
        if hold < HOLD_MAX {
          hold := hold + 1;
        } else {
          return Overflow;
        }
      } else {
        if giveUp {
          return NoTime;
        }
        if threads.current[t] < threads.current[owner.tid] {
          threads.ChangePriority(owner.tid, threads.current[t]);
        }
        waiters.Suspend(t, flag, Of(threads.current));
        return Waits;
      }
      outcome := Taken;
    }

    /** rt_mutex_release */
    method Release(t: Tid) returns (outcome: Outcome)
      requires Shape(View()) && Known(threads.current) && t in threads.current
      modifies this, threads, waiters
      ensures Result(View(), threads.current, outcome) ==
        MutexModel.Release(old(View()), old(threads.current), t, flag)
    {
      if Thread(t) != owner {
        return NotOwner;
      }
      hold := hold - 1;
      if hold == 0 {
        if original != threads.current[owner.tid] {
          threads.ChangePriority(owner.tid, original);
        }
        SameEntry(old(threads.current), t, original);
        if waiters.list != [] {
          var next := waiters.list[0];
          owner, original := Thread(next), threads.current[next];
          var top := waiters.HighestPriority(Of(threads.current));
          SameEntry(threads.current, next, top);
          if flag == Fifo && threads.current[next] != top {
            threads.ChangePriority(next, top);
          }
          if hold < HOLD_MAX {
            hold := hold + 1;
          } else {
            return Overflow;
          }
          var resumed := waiters.Resume();
        } else {
          if value < VALUE_MAX {
            value := value + 1;
          } else {
            return Overflow;
          }
          owner, original := Nobody, NO_PRIORITY;
        }
        gone := PRIORITY_MAX - 1;
      }
      outcome := Released;
    }

    /** rt_thread_timeout for a thread in the list. */
    method TimeOut(t: Tid)
      requires t in waiters.list
      modifies this`gone, waiters
      ensures View() == MutexModel.TimeOut(old(View()), threads.current, t)
    {
      waiters.Leave(t);
      gone := Min(gone, Of(threads.current)(t));
    }
  }

  lemma SameEntry(prio: Table, t: Tid, p: int)
    ensures t in prio && prio[t] == p ==> prio[t := p] == prio
  {
  }
}
