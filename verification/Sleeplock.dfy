/** Sleep locks, shared by any number of processes and by harts that have no
    process yet. A call of a method is what one thread does between taking the
    lock's spinlock and giving it up, by returning or by sleeping. */
module Sleeplock {
  /** A thread, as `myproc` tells it: a process, or a hart running none. */
  datatype Who = Task(pid: nat) | Boot(cpu: nat)

  datatype Pc = Out | Trying | Asleep | Inside

  /** The fields of the lock, and where each thread is with respect to it. */
  datatype St = St(locked: bool, ownerPid: int, ownerCpu: int, threads: map<Who, Pc>)

  /** The check of `releasesleep` and `holdingsleep`. */
  predicate HoldingLocked(s: St, t: Who) {
    && s.locked
    && match t
       case Task(pid) => s.ownerPid == pid
       case Boot(cpu) => s.ownerPid == -1 && s.ownerCpu == cpu
  }

  /** Processes have positive pids; process ids of live threads differ by being keys. */
  predicate ThreadOk(s: St, t: Who) {
    t in s.threads ==>
      && (t.Task? ==> t.pid > 0)
      && (s.threads[t].Inside? <==> HoldingLocked(s, t))
      && (s.threads[t].Asleep? ==> t.Task? && s.locked)
  }

  ghost predicate Inv(s: St) {
    && (forall t: Who {:trigger ThreadOk(s, t)} :: ThreadOk(s, t))
    && (s.locked ==> exists t: Who :: t in s.threads && s.threads[t].Inside?)
    && (!s.locked ==> s.ownerPid == 0 && s.ownerCpu == -1)
  }

  /** At most one thread is inside, and while the spinlock is free a thread
      sleeps only while another is inside. */
  lemma Exclusive(s: St, a: Who, b: Who)
    requires Inv(s) && a in s.threads && b in s.threads
    ensures s.threads[a].Inside? && s.threads[b].Inside? ==> a == b
    ensures s.threads[a].Asleep? ==> exists t: Who :: t in s.threads && t != a && s.threads[t].Inside?
  {
    assert ThreadOk(s, a) && ThreadOk(s, b);
  }

  datatype Tried = Took | Slept | Panic

  class Lock {
    var s: St

    constructor (threads: set<Who>)
      requires forall t | t in threads && t.Task? :: t.pid > 0
      ensures Inv(s) && s.threads.Keys == threads && forall t | t in threads :: s.threads[t].Out?
    {
      s := St(false, 0, -1, map t | t in threads :: Out);
      new;
      forall t: Who ensures ThreadOk(s, t) {}
    }

    /** A thread calls `acquiresleep`. */
    method Arrive(t: Who)
      requires Inv(s) && t in s.threads && s.threads[t].Out?
      modifies this
      ensures Inv(s) && s == old(s).(threads := old(s).threads[t := Trying])
    {
      Moved(s, t, Trying);
      s := s.(threads := s.threads[t := Trying]);
    }

    /** One turn of the loop of `acquiresleep`: takes the lock if it is free; a
        process sleeps if not, and a hart without a process panics in `sleep`. */
    method Try(t: Who) returns (r: Tried)
      requires Inv(s) && t in s.threads && s.threads[t].Trying?
      modifies this
      ensures Inv(s)
      ensures r.Took? <==> !old(s).locked
      ensures r.Slept? <==> old(s).locked && t.Task?
      ensures r.Took? ==> s.threads == old(s).threads[t := Inside] && HoldingLocked(s, t)
      ensures r.Slept? ==> s == old(s).(threads := old(s).threads[t := Asleep])
      ensures r.Panic? ==> s == old(s)
    {
      if s.locked {
        if t.Boot? { return Panic; }
        Moved(s, t, Asleep);
        s := s.(threads := s.threads[t := Asleep]);
        return Slept;
      }
      Taken(s, t);
      s := s.(locked := true);
      s := match t
        case Task(pid) => s.(ownerPid := pid, ownerCpu := -1)
        case Boot(cpu) => s.(ownerPid := -1, ownerCpu := cpu);
      s := s.(threads := s.threads[t := Inside]);
      r := Took;
    }

    /** `kill` makes a sleeper runnable whatever it waits for. */
    method Kill(t: Who)
      requires Inv(s) && t in s.threads && s.threads[t].Asleep?
      modifies this
      ensures Inv(s) && s == old(s).(threads := old(s).threads[t := Trying])
    {
      Moved(s, t, Trying);
      s := s.(threads := s.threads[t := Trying]);
    }

    /** `holdingsleep` is true for the thread inside and for no other. */
    method Holding(t: Who) returns (r: bool)
      requires Inv(s) && t in s.threads
      ensures r <==> s.threads[t].Inside?
    {
      r := HoldingLocked(s, t);
      assert ThreadOk(s, t);
    }

    /** `releasesleep` panics for every thread but the one inside; then the lock
        is free and every sleeper is awake. */
    method Release(t: Who) returns (panic: bool)
      requires Inv(s) && t in s.threads
      modifies this
      ensures Inv(s)
      ensures panic <==> !old(s).threads[t].Inside?
      ensures panic ==> s == old(s)
      ensures !panic ==> s == St(false, 0, -1, Woken(old(s).threads, t))
    {
      assert ThreadOk(s, t);
      if !HoldingLocked(s, t) { return true; }
      s := s.(locked := false, ownerPid := 0, ownerCpu := -1);
      ghost var was := old(s).threads;
      var todo := s.threads.Keys;
      while todo != {}
        invariant todo <= was.Keys == s.threads.Keys && s == St(false, 0, -1, s.threads)
        invariant forall u | u in was :: s.threads[u] == if u !in todo && was[u].Asleep? then Trying else was[u]
      {
        var u :| u in todo;
        if s.threads[u].Asleep? {
          s := s.(threads := s.threads[u := Trying]);
        }
        todo := todo - {u};
      }
      s := s.(threads := s.threads[t := Out]);
      Freed(old(s), t);
      assert s.threads == Woken(was, t);
      panic := false;
    }
  }

  function Woken(threads: map<Who, Pc>, t: Who): map<Who, Pc> {
    map u | u in threads :: if u == t then Out else if threads[u].Asleep? then Trying else threads[u]
  }

  lemma Moved(s: St, t: Who, pc: Pc)
    requires Inv(s) && t in s.threads && !s.threads[t].Inside? && !pc.Inside? && (pc.Asleep? ==> t.Task? && s.locked)
    ensures Inv(s.(threads := s.threads[t := pc]))
  {
    var s' := s.(threads := s.threads[t := pc]);
    forall u: Who ensures ThreadOk(s', u) { assert ThreadOk(s, u); }
    if s.locked {
      var u: Who :| u in s.threads && s.threads[u].Inside?;
      assert s'.threads[u].Inside?;
    }
  }

  lemma Taken(s: St, t: Who)
    requires Inv(s) && t in s.threads && s.threads[t].Trying? && !s.locked
    ensures var pid := if t.Task? then t.pid else -1;
            var cpu := if t.Task? then -1 else t.cpu;
            Inv(St(true, pid, cpu, s.threads[t := Inside]))
  {
    var s' := St(true, if t.Task? then t.pid else -1, if t.Task? then -1 else t.cpu, s.threads[t := Inside]);
    assert ThreadOk(s, t);
    forall u: Who ensures ThreadOk(s', u) { assert ThreadOk(s, u); }
    assert s'.threads[t].Inside?;
  }

  lemma Freed(s: St, t: Who)
    requires Inv(s) && t in s.threads && s.threads[t].Inside?
    ensures Inv(St(false, 0, -1, Woken(s.threads, t)))
  {
    var s' := St(false, 0, -1, Woken(s.threads, t));
    forall u: Who ensures ThreadOk(s', u) {
      assert ThreadOk(s, u) && ThreadOk(s, t);
      if u in s.threads { Exclusive(s, u, t); }
    }
  }
}
