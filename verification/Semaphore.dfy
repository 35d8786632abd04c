/** The semaphore object (ipc.c): a 16-bit value and a list of threads.  The ghost field `s` is the
    state of SemaphoreModel, and every method is one action on it.
 */
module Semaphores {
  import opened IpcList
  import opened SemaphoreModel

  datatype Outcome = Taken | TimedOut | Suspended

  class Semaphore {
    const flag: Flag
    const waiters: ThreadList

    var value: nat

    ghost var s: State

    ghost predicate Valid()
      reads this, waiters
    {
      Inv(s) && s.value == value && s.flag == flag && s.list == waiters.list
    }

    /** rt_sem_init */
    constructor (value: nat, flag: Flag)
      requires value < 0x1_0000
      ensures Valid() && fresh(waiters) && s == Init(value, flag)
    {
      this.value, this.flag := value, flag;
      waiters := new ThreadList();
      s := Init(value, flag);
      new;
      InitInv(value, flag);
    }

    /** rt_sem_take, up to the point where the thread goes on or is suspended. */
    method Take(t: Tid, giveUp: bool, prio: Priorities) returns (r: Outcome)
      requires Valid() && t !in s.list
      modifies this`value, this`s, waiters
      ensures Valid() && IsStep(old(s), Action.Take(t, giveUp, prio), s)
      ensures r == if old(value) > 0 then Taken else if giveUp then TimedOut else Suspended
    {
      hide Inv, Enlist;
      ApplyKeeps(s, Action.Take(t, giveUp, prio));
      s := TryTake(s, t, giveUp, prio);
      if value > 0 {
        value := value - 1;
        r := Taken;
      } else if giveUp {
        r := TimedOut;
      } else {
        waiters.Suspend(t, flag, prio);
        r := Suspended;
      }
    }

    /** rt_sem_release; false if the value cannot grow any more. */
    method Release() returns (ok: bool)
      requires Valid()
      modifies this`value, this`s, waiters
      ensures Valid() && IsStep(old(s), Action.Release, s)
      ensures ok <==> old(s).list != [] || old(value) < VALUE_MAX
    {
      hide Inv;
      ApplyKeeps(s, Action.Release);
      s := Put(s);
      ok := true;
      if waiters.list != [] {
        var resumed := waiters.Resume();
      } else if value < VALUE_MAX {
        value := value + 1;
      } else {
        ok := false;
      }
    }

    /** The timer of a waiting thread fires. */
    method TimeOut(t: Tid)
      requires Valid() && t in s.list
      modifies this`s, waiters
      ensures Valid() && IsStep(old(s), Timeout(t), s)
    {
      hide Inv, Removed;
      ApplyKeeps(s, Timeout(t));
      waiters.Leave(t);
      s := Apply(s, Timeout(t));
    }

    /** rt_sem_control with RT_IPC_CMD_RESET */
    method Reset(to: nat)
      requires Valid()
      modifies this`value, this`s, waiters
      ensures Valid() && IsStep(old(s), Action.Reset(to), s)
    {
      hide Inv;
      ApplyKeeps(s, Action.Reset(to));
      waiters.ResumeAll();
      value := to % 0x1_0000;
      s := ResetTo(s, to);
    }
  }
}
