/** Pipes: a ring of 512 bytes between any number of readers and writers. A call
    of a method is what one thread does between taking the pipe's lock and giving
    it up, by returning or by sleeping. */
module Pipe {
  import opened Common

  const PIPESIZE: nat := 512
  const WRAP: nat := 0x1_0000_0000

  /** Where a thread is: in no call; in pipewrite or piperead and about to take
      the lock; or asleep there. `call` numbers the calls; a writer has inserted
      the first i bytes of src. */
  datatype Thread =
    | Idle
    | Writing(call: nat, src: seq<byte>, i: nat)
    | AsleepWriting(call: nat, src: seq<byte>, i: nat)
    | Reading(call: nat, n: int)
    | AsleepReading(call: nat, n: int)

  /** A byte and the call that inserted, respectively removed, it. */
  datatype Entry = Entry(call: nat, b: byte)

  /** The bytes of one call, in order. */
  function Of(log: seq<Entry>, call: nat): seq<byte> {
    if log == [] then []
    else Of(log[..|log| - 1], call) + if log[|log| - 1].call == call then [log[|log| - 1].b] else []
  }

  lemma OfAppend(log: seq<Entry>, e: Entry, call: nat)
    ensures Of(log + [e], call) == Of(log, call) + if e.call == call then [e.b] else []
  {
    assert (log + [e])[..|log|] == log;
  }

  lemma {:induction false} OfNew(log: seq<Entry>, call: nat)
    requires forall i: nat | i < |log| :: log[i].call < call
    ensures Of(log, call) == []
  {
    if log != [] { OfNew(log[..|log| - 1], call); }
  }

  /** The pipe's memory, its threads, and what has gone in and come out since it
      was made. No step depends on `ins`, `outs` or the call numbers. */
  datatype St = St(data: seq<byte>, nread: nat, nwrite: nat, readopen: bool, writeopen: bool,
                   threads: map<nat, Thread>, ins: seq<Entry>, outs: seq<Entry>, calls: nat)

  predicate Sizes(s: St) { |s.data| == PIPESIZE && s.nread < WRAP && s.nwrite < WRAP }

  /** The counters are the true counts, wrapped; the ring holds the bytes between. */
  ghost predicate Stream(s: St) {
    && Sizes(s)
    && |s.outs| <= |s.ins| <= |s.outs| + PIPESIZE
    && s.nread == |s.outs| % WRAP && s.nwrite == |s.ins| % WRAP
    && (forall k: nat {:trigger s.ins[k]} | |s.outs| <= k < |s.ins| :: s.data[k % PIPESIZE] == s.ins[k].b)
    && (forall k: nat {:trigger s.outs[k]} | k < |s.outs| :: s.outs[k].b == s.ins[k].b)
  }

  predicate CallOf(t: Thread, call: nat) { !t.Idle? && t.call == call }

  /** What is true of a thread. A sleeping writer finds the pipe full and readable
      (once `wr`). */
  ghost predicate ThreadOk(s: St, t: nat, wr: bool)
    requires t in s.threads
  {
    match s.threads[t]
    case Idle => true
    case Writing(c, src, i) => c < s.calls && i <= |src| && Of(s.ins, c) == src[..i]
    case AsleepWriting(c, src, i) =>
      && c < s.calls && i < |src| && Of(s.ins, c) == src[..i]
      && (wr ==> |s.ins| == |s.outs| + PIPESIZE && s.readopen)
    case Reading(c, n) => c < s.calls && Of(s.outs, c) == [] && s.readopen
    case AsleepReading(c, n) => c < s.calls && Of(s.outs, c) == [] && s.readopen
  }

  predicate Apart(s: St, t: nat, u: nat)
    requires t in s.threads && u in s.threads
  {
    t != u && !s.threads[t].Idle? && !s.threads[u].Idle? ==> s.threads[t].call != s.threads[u].call
  }

  ghost predicate Base(s: St, wr: bool) {
    && Stream(s)
    && (forall t: nat {:trigger ThreadOk(s, t, wr)} | t in s.threads :: ThreadOk(s, t, wr))
    && (forall t: nat, u: nat {:trigger Apart(s, t, u)} | t in s.threads && u in s.threads :: Apart(s, t, u))
    && (forall k: nat {:trigger s.ins[k]} | k < |s.ins| :: s.ins[k].call < s.calls)
    && (forall k: nat {:trigger s.outs[k]} | k < |s.outs| :: s.outs[k].call < s.calls)
  }

  ghost predicate Inv(s: St) { Base(s, true) }

  predicate AsleepReader(s: St, t: nat) { t in s.threads && s.threads[t].AsleepReading? }

  /** No reader sleeps but on an empty pipe that can be written. */
  ghost predicate Calm(s: St) {
    forall t: nat {:trigger AsleepReader(s, t)} | AsleepReader(s, t) :: |s.ins| == |s.outs| && s.writeopen
  }

  /** A reader sleeps. */
  ghost predicate Sleeper(s: St) { exists t: nat :: AsleepReader(s, t) }

  lemma FullMeans(s: St)
    requires Stream(s)
    ensures s.nwrite == (s.nread + PIPESIZE) % WRAP <==> |s.ins| == |s.outs| + PIPESIZE
    ensures s.nread == s.nwrite <==> |s.ins| == |s.outs|
  {
  }

  lemma Slot(n: nat)
    ensures n % WRAP % PIPESIZE == n % PIPESIZE && (n % WRAP + 1) % WRAP == (n + 1) % WRAP
  {
  }

  /** One byte in, by thread t at byte i of its source. */
  function Inserted(s: St, t: nat, c: nat, src: seq<byte>, i: nat): St
    requires Sizes(s) && i < |src|
  {
    s.(data := s.data[s.nwrite % PIPESIZE := src[i]], nwrite := (s.nwrite + 1) % WRAP,
       ins := s.ins + [Entry(c, src[i])], threads := s.threads[t := Writing(c, src, i + 1)])
  }

  lemma InsertStream(s: St, t: nat, c: nat, src: seq<byte>, i: nat)
    requires Stream(s) && |s.ins| < |s.outs| + PIPESIZE && i < |src|
    ensures Stream(Inserted(s, t, c, src, i))
  {
    var s' := Inserted(s, t, c, src, i);
    Slot(|s.ins|);
    forall k: nat | |s'.outs| <= k < |s'.ins| ensures s'.data[k % PIPESIZE] == s'.ins[k].b {
      if k < |s.ins| {
        assert s.ins[k] == s'.ins[k];
        OtherSlot(k, |s.ins|);
      }
    }
    forall k: nat | k < |s'.outs| ensures s'.outs[k].b == s'.ins[k].b { assert s.outs[k].b == s.ins[k].b; }
  }

  lemma OtherSlot(k: nat, n: nat)
    requires k < n < k + PIPESIZE
    ensures k % PIPESIZE != n % PIPESIZE
  {
  }

  lemma InsertBase(s: St, t: nat, c: nat, src: seq<byte>, i: nat)
    requires Base(s, true) && t in s.threads && s.threads[t] == Writing(c, src, i) && i < |src|
    requires |s.ins| < |s.outs| + PIPESIZE
    ensures Base(Inserted(s, t, c, src, i), true)
  {
    hide Stream;
    hide Of;
    StreamSizes(s);
    var s' := Inserted(s, t, c, src, i);
    assert ThreadOk(s, t, true);
    InsertStream(s, t, c, src, i);
    forall u: nat | u in s'.threads ensures ThreadOk(s', u, true) {
      assert ThreadOk(s, u, true) && Apart(s, t, u);
      if !s.threads[u].Idle? { OfAppend(s.ins, Entry(c, src[i]), s.threads[u].call); }
    }
    forall u: nat, v: nat | u in s'.threads && v in s'.threads ensures Apart(s', u, v) { assert Apart(s, u, v); }
    forall k: nat | k < |s'.ins| ensures s'.ins[k].call < s'.calls { assert k < |s.ins| ==> s.ins[k] == s'.ins[k]; }
  }

  /** One byte out, by thread t. */
  function Removed(s: St, c: nat): St
    requires Sizes(s)
  {
    s.(nread := (s.nread + 1) % WRAP, outs := s.outs + [Entry(c, s.data[s.nread % PIPESIZE])])
  }

  lemma RemoveStream(s: St, c: nat)
    requires Stream(s) && |s.outs| < |s.ins|
    ensures Stream(Removed(s, c)) && s.data[s.nread % PIPESIZE] == s.ins[|s.outs|].b
  {
    var s' := Removed(s, c);
    Slot(|s.outs|);
    var r := |s.outs|;
    assert s.data[r % PIPESIZE] == s.ins[r].b;
    forall k: nat | |s'.outs| <= k < |s'.ins| ensures s'.data[k % PIPESIZE] == s'.ins[k].b {
      assert s.ins[k] == s'.ins[k];
    }
    forall k: nat | k < |s'.outs| ensures s'.outs[k].b == s'.ins[k].b { assert k < r ==> s.outs[k].b == s.ins[k].b; }
  }

  /** While thread t removes bytes it is in no list of its own: it is set idle. */
  lemma RemoveBase(s: St, c: nat, wr: bool)
    requires Base(s, wr) && |s.outs| < |s.ins| && c < s.calls
    requires forall u: nat | u in s.threads :: !CallOf(s.threads[u], c)
    ensures Base(Removed(s, c), false)
  {
    hide Stream;
    hide Of;
    StreamSizes(s);
    var s' := Removed(s, c);
    RemoveStream(s, c);
    forall u: nat | u in s'.threads ensures ThreadOk(s', u, false) {
      assert ThreadOk(s, u, wr);
      assert !CallOf(s.threads[u], c);
      if !s.threads[u].Idle? { OfAppend(s.outs, Entry(c, s.data[s.nread % PIPESIZE]), s.threads[u].call); }
    }
    forall u: nat, v: nat | u in s'.threads && v in s'.threads ensures Apart(s', u, v) { assert Apart(s, u, v); }
    forall k: nat | k < |s'.outs| ensures s'.outs[k].call < s'.calls {
      assert k < |s.outs| ==> s.outs[k] == s'.outs[k];
    }
  }

  lemma StreamSizes(s: St)
    requires Stream(s)
    ensures Sizes(s) && |s.outs| <= |s.ins| <= |s.outs| + PIPESIZE
  {
  }

  // ---- wakeup ----

  function UpReader(x: Thread): Thread { if x.AsleepReading? then Reading(x.call, x.n) else x }

  function UpWriter(x: Thread): Thread { if x.AsleepWriting? then Writing(x.call, x.src, x.i) else x }

  /** wakeup(&pi->nread) and wakeup(&pi->nwrite). */
  function WakeReaders(s: St): St {
    s.(threads := map t | t in s.threads :: UpReader(s.threads[t]))
  }

  function WakeWriters(s: St): St { s.(threads := map t | t in s.threads :: UpWriter(s.threads[t])) }

  lemma WakeReadersBase(s: St)
    requires Base(s, true)
    ensures Inv(WakeReaders(s)) && !Sleeper(WakeReaders(s))
  {
    hide Stream;
    hide Of;
    var s' := WakeReaders(s);
    assert Stream(s') by { SameStream(s, s'); }
    forall u: nat | u in s'.threads ensures ThreadOk(s', u, true) { assert ThreadOk(s, u, true); }
    forall u: nat, v: nat | u in s'.threads && v in s'.threads ensures Apart(s', u, v) { assert Apart(s, u, v); }
  }

  lemma WakeWritersBase(s: St, wr: bool)
    requires Base(s, wr)
    ensures Inv(WakeWriters(s)) && (Calm(s) ==> Calm(WakeWriters(s)))
  {
    hide Stream;
    hide Of;
    var s' := WakeWriters(s);
    assert Stream(s') by { SameStream(s, s'); }
    assert forall u: nat :: AsleepReader(s', u) <==> AsleepReader(s, u);
    forall u: nat | u in s'.threads ensures ThreadOk(s', u, true) { assert ThreadOk(s, u, wr); }
    forall u: nat, v: nat | u in s'.threads && v in s'.threads ensures Apart(s', u, v) { assert Apart(s, u, v); }
  }

  lemma SameStream(s: St, s': St)
    requires Stream(s) && s'.data == s.data && s'.nread == s.nread && s'.nwrite == s.nwrite && s'.ins == s.ins
             && s'.outs == s.outs
    ensures Stream(s')
  {
  }

  /** One thread changes what it is doing. */
  lemma ThreadBase(s: St, t: nat, x: Thread, wr: bool)
    requires Base(s, wr) && t in s.threads
    requires x.Idle? || (!s.threads[t].Idle? && x.call == s.threads[t].call)
    requires ThreadOk(s.(threads := s.threads[t := x]), t, wr)
    ensures Base(s.(threads := s.threads[t := x]), wr)
    ensures Calm(s) && (x.AsleepReading? ==> |s.ins| == |s.outs| && s.writeopen) ==>
              Calm(s.(threads := s.threads[t := x]))
  {
    hide Stream;
    hide Of;
    var s' := s.(threads := s.threads[t := x]);
    assert Stream(s') by { SameStream(s, s'); }
    forall u: nat | u in s'.threads ensures ThreadOk(s', u, wr) { assert ThreadOk(s, u, wr); }
    forall u: nat, v: nat | u in s'.threads && v in s'.threads ensures Apart(s', u, v) { assert Apart(s, u, v); }
    assert forall u: nat | u != t :: AsleepReader(s', u) <==> AsleepReader(s, u);
  }

  /** A new call. */
  lemma NewBase(s: St, t: nat, x: Thread)
    requires Inv(s) && t in s.threads && s.threads[t].Idle?
    requires (x.Writing? && x.i == 0) || (x.Reading? && s.readopen)
    requires x.call == s.calls
    ensures Inv(s.(threads := s.threads[t := x], calls := s.calls + 1))
    ensures Calm(s.(threads := s.threads[t := x], calls := s.calls + 1)) <==> Calm(s)
  {
    hide Stream;
    hide Of;
    var s' := s.(threads := s.threads[t := x], calls := s.calls + 1);
    assert Stream(s') by { SameStream(s, s'); }
    assert forall u: nat :: AsleepReader(s', u) <==> AsleepReader(s, u);
    OfNew(s.ins, s.calls);
    OfNew(s.outs, s.calls);
    forall u: nat | u in s'.threads ensures ThreadOk(s', u, true) { assert ThreadOk(s, u, true); }
    forall u: nat, v: nat | u in s'.threads && v in s'.threads ensures Apart(s', u, v) {
      assert Apart(s, u, v) && ThreadOk(s, u, true) && ThreadOk(s, v, true);
    }
  }

  // ---- the calls ----

  /** What a call did before giving up the lock: Slept, or Ret(result). */
  datatype Outcome = Slept | Ret(r: int)

  /** The write of thread t quits with -1: the read end is closed, or it comes to
      the test at which it is seen to be killed, with no full pipe and no byte that
      cannot be copied in before that. */
  predicate Quits(s: St, t: nat, killedAt: nat, reach: nat)
    requires t in s.threads && s.threads[t].Writing?
  {
    var x := s.threads[t];
    x.i < |x.src|
    && (!s.readopen
        || (x.i + killedAt < |x.src| && |s.ins| + killedAt <= |s.outs| + PIPESIZE
           && (killedAt == 0 || x.i + killedAt <= reach)))
  }

  /** n tests have been passed, and a byte put in after each. */
  predicate Goes(s: St, t: nat, killedAt: nat, reach: nat, n: nat)
    requires t in s.threads && s.threads[t].Writing?
  {
    n > 0 ==> s.readopen && n <= killedAt && |s.ins| + n <= |s.outs| + PIPESIZE && s.threads[t].i + n <= reach
  }

  class PipeObj {
    var s: St

    ghost predicate Valid()
      reads this
    {
      Inv(s)
    }

    /** pipealloc's pipe: empty, both ends open. */
    constructor (threads: set<nat>)
      ensures Valid() && s.threads == (map t | t in threads :: Idle) && s.ins == s.outs == [] && s.readopen
              && s.writeopen && Calm(s) && s.calls == 0
    {
      s := St(seq(PIPESIZE, _ => 0), 0, 0, true, true, map t | t in threads :: Idle, [], [], 0);
    }

    method StartWrite(t: nat, src: seq<byte>)
      requires Valid() && t in s.threads && s.threads[t].Idle?
      modifies this
      ensures Valid() && s ==
                old(s).(threads := old(s).threads[t := Writing(old(s).calls, src, 0)], calls := old(s).calls + 1)
                && (Calm(s) <==> old(Calm(s)))
    {
      NewBase(s, t, Writing(s.calls, src, 0));
      s := s.(threads := s.threads[t := Writing(s.calls, src, 0)], calls := s.calls + 1);
    }

    /** pipewrite from taking the lock to giving it up. The caller is seen to be
        killed at test `killedAt` of its loop, and bytes from `reach` on cannot be
        copied in. On return of r >= 0 exactly src[..r] has gone in, in order; -1
        exactly if the call quits, with the bytes of the tests before in the pipe.
        It then wakes nobody: a reader is left asleep on them exactly if one slept.
        In every other case no reader is left asleep. */
    method Write(t: nat, killedAt: nat, reach: nat) returns (o: Outcome)
      requires Valid() && t in s.threads && s.threads[t].Writing?
      modifies this
      ensures Valid() && s.outs == old(s).outs && s.readopen == old(s).readopen && s.writeopen == old(s).writeopen
      ensures var x := old(s).threads[t];
              && t in s.threads && |old(s).ins| <= |s.ins| && old(s).ins == s.ins[..|old(s).ins|]
              && (o.Slept? ==> s.threads[t].AsleepWriting? && s.threads[t].call == x.call && s.threads[t].src == x.src)
              && (o.Ret? ==> s.threads[t].Idle? && -1 <= o.r <= |x.src|)
              && (o.Ret? && o.r >= 0 ==> Of(s.ins, x.call) == x.src[..o.r])
              && (o.Ret? && 0 <= o.r < |x.src| ==> o.r >= reach)
      ensures o == Ret(-1) <==> Quits(old(s), t, killedAt, reach)
      ensures o == Ret(-1) ==> |s.ins| == |old(s).ins| + (if old(s).readopen then killedAt else 0)
      ensures o == Ret(-1) ==> forall u: nat :: AsleepReader(s, u) <==> old(AsleepReader(s, u))
      ensures o != Ret(-1) ==> !Sleeper(s)
      ensures old(Calm(s)) ==>
                (Calm(s) <==>
                  !(Quits(old(s), t, killedAt, reach) && old(s).readopen && killedAt > 0 && old(Sleeper(s))))
    {
      hide Of;
      hide Base;
      hide Stream;
      var c, src, i := s.threads[t].call, s.threads[t].src, s.threads[t].i;
      WriterAt(s, t);
      CountsOf(s);
      var tests := 0;
      while i < |src|
        invariant t in s.threads && s.threads[t] == Writing(c, src, i) && i <= |src| && Base(s, true)
        invariant s.outs == old(s).outs && s.readopen == old(s).readopen && s.writeopen == old(s).writeopen
        invariant |old(s).ins| <= |s.ins| && old(s).ins == s.ins[..|old(s).ins|] && |s.outs| <= |old(s).ins|
        invariant tests == |s.ins| - |old(s).ins| == i - old(s).threads[t].i && Goes(old(s), t, killedAt, reach, tests)
        invariant forall u: nat :: AsleepReader(s, u) <==> old(AsleepReader(s, u))
        decreases |src| - i
      {
        if !s.readopen || tests >= killedAt {
          QuitBase(s, t);
          s := s.(threads := s.threads[t := Idle]);
          return Ret(-1);
        }
        tests := tests + 1;
        CountsOf(s);
        if s.nwrite == (s.nread + PIPESIZE) % WRAP {
          WakeReadersBase(s);
          s := WakeReaders(s);
          SleepWriteBase(s, t, c, src, i);
          s := s.(threads := s.threads[t := AsleepWriting(c, src, i)]);
          return Slept;
        } else {
          if i >= reach { break; }
          InsertBase(s, t, c, src, i);
          s := Inserted(s, t, c, src, i);
          i := i + 1;
        }
      }
      WakeReadersBase(s);
      s := WakeReaders(s);
      WriterAt(s, t);
      ThreadBase(s, t, Idle, true);
      s := s.(threads := s.threads[t := Idle]);
      o := Ret(i);
    }

    method StartRead(t: nat, n: int)
      requires Valid() && t in s.threads && s.threads[t].Idle? && s.readopen
      modifies this
      ensures Valid() && s ==
                old(s).(threads := old(s).threads[t := Reading(old(s).calls, n)], calls := old(s).calls + 1)
                && (Calm(s) <==> old(Calm(s)))
    {
      NewBase(s, t, Reading(s.calls, n));
      s := s.(threads := s.threads[t := Reading(s.calls, n)], calls := s.calls + 1);
    }

    /** piperead from taking the lock to giving it up. It sleeps only on an empty
        pipe that can still be written; what it returns are the bytes it removed,
        in order, but for one more that is lost if its copyout fails. Bytes from
        `reach` on cannot be copied out. */
    method Read(t: nat, killed: bool, reach: nat) returns (o: Outcome, dst: seq<byte>)
      requires Valid() && t in s.threads && s.threads[t].Reading?
      modifies this
      ensures Valid() && s.ins == old(s).ins && s.readopen == old(s).readopen && s.writeopen == old(s).writeopen
      ensures var x := old(s).threads[t]; var empty := |old(s).ins| == |old(s).outs|;
              && t in s.threads && |old(s).outs| <= |s.outs| && old(s).outs == s.outs[..|old(s).outs|]
              && (o.Slept? <==> empty && s.writeopen && !killed)
              && (o.Slept? ==> s == old(s).(threads := old(s).threads[t := AsleepReading(x.call, x.n)]) && dst == [])
              && (o.Ret? ==> s.threads[t].Idle?)
              && (o.Ret? && o.r == -1 <==> empty && s.writeopen && killed)
              && (o.Ret? && o.r != -1 ==>
                    && o.r == |dst| <= reach && (x.n >= 0 ==> o.r <= x.n) && (x.n < 0 ==> o.r == 0)
                    && dst <= Of(s.outs, x.call) && |Of(s.outs, x.call)| <= o.r + 1
                    && (|Of(s.outs, x.call)| > o.r ==> o.r >= reach)
                    && (o.r < x.n && |Of(s.outs, x.call)| == o.r ==> |s.ins| == |s.outs|))
      ensures old(Calm(s)) ==> Calm(s)
    {
      hide Of;
      hide Base;
      hide Stream;
      dst := [];
      CountsOf(s);
      var c, n := s.threads[t].call, s.threads[t].n;
      ReaderAt(s, t);
      if s.nread == s.nwrite && s.writeopen {
        if killed {
          ThreadBase(s, t, Idle, true);
          s := s.(threads := s.threads[t := Idle]);
          o := Ret(-1);
          return;
        }
        SleepReadBase(s, t, c, n);
        s := s.(threads := s.threads[t := AsleepReading(c, n)]);
        o := Slept;
        return;
      }
      ThreadBase(s, t, Idle, true);
      s := s.(threads := s.threads[t := Idle]);
      var i := 0;
      ghost var wr := true;
      while i < n
        invariant 0 <= i == |dst| <= reach && (i <= n || n < 0) && (n < 0 ==> i == 0) && t in s.threads
                  && s.threads[t].Idle?
        invariant Base(s, wr) && (old(Calm(s)) ==> Calm(s)) && c < s.calls
                  && (forall u: nat | u in s.threads :: !CallOf(s.threads[u], c))
        invariant s.ins == old(s).ins && s.readopen == old(s).readopen && s.writeopen == old(s).writeopen
        invariant |old(s).outs| <= |s.outs| && old(s).outs == s.outs[..|old(s).outs|]
        invariant Of(s.outs, c) == dst
        decreases n - i
      {
        CountsOf2(s, wr);
        if s.nread == s.nwrite { break; }
        var ch := s.data[s.nread % PIPESIZE];
        RemoveBase(s, c, wr);
        RemoveCalm(s, c);
        OfAppend(s.outs, Entry(c, ch), c);
        s := Removed(s, c);
        wr := false;
        if i >= reach { break; }
        dst := dst + [ch];
        i := i + 1;
      }
      CountsOf2(s, wr);
      WakeWritersBase(s, wr);
      s := WakeWriters(s);
      o := Ret(i);
    }

    /** pipeclose, when the last descriptor of that end goes: no thread is in a
        call on it. The page is freed at the second of the two closes. */
    method Close(writable: bool) returns (freed: bool)
      requires Valid()
      requires forall t: nat | t in s.threads :: if writable then !s.threads[t].Writing? && !s.threads[t].AsleepWriting?
                                                 else !s.threads[t].Reading? && !s.threads[t].AsleepReading?
      modifies this
      ensures Valid() && s.ins == old(s).ins && s.outs == old(s).outs
      ensures s.writeopen == (old(s).writeopen && !writable) && s.readopen == (old(s).readopen && writable)
      ensures freed <==> !s.writeopen && !s.readopen
      ensures forall t: nat | t in s.threads :: !s.threads[t].AsleepReading? && !s.threads[t].AsleepWriting?
      ensures Calm(s)
    {
      hide Of;
      hide Stream;
      if writable {
        ClosedBase(s, true);
        s := WakeReaders(s.(writeopen := false));
      } else {
        ClosedBase(s, false);
        s := WakeWriters(s.(readopen := false));
      }
      freed := !s.readopen && !s.writeopen;
    }

    /** A thread woken by kill, which wakes whatever it sleeps on. */
    method Rouse(t: nat)
      requires Valid() && t in s.threads
      modifies this
      ensures Valid() && s == old(s).(threads := old(s).threads[t := UpReader(UpWriter(old(s).threads[t]))])
      ensures old(Calm(s)) ==> Calm(s)
    {
      RouseBase(s, t);
      s := s.(threads := s.threads[t := UpReader(UpWriter(s.threads[t]))]);
    }
  }

  lemma ReaderAt(s: St, t: nat)
    requires Inv(s) && t in s.threads && s.threads[t].Reading?
    ensures var c := s.threads[t].call;
            && c < s.calls && Of(s.outs, c) == [] && s.readopen
            && forall u: nat | u in s.threads && u != t :: !CallOf(s.threads[u], c)
  {
    assert ThreadOk(s, t, true);
    forall u: nat | u in s.threads && u != t ensures !CallOf(s.threads[u], s.threads[t].call) { assert Apart(s, u, t); }
  }

  lemma CountsOf2(s: St, wr: bool)
    requires Base(s, wr)
    ensures Sizes(s) && |s.outs| <= |s.ins|
    ensures s.nread == s.nwrite <==> |s.ins| == |s.outs|
  {
    FullMeans(s);
  }

  lemma SleepReadBase(s: St, t: nat, c: nat, n: int)
    requires Inv(s) && t in s.threads && s.threads[t] == Reading(c, n) && |s.ins| == |s.outs| && s.writeopen
    ensures Inv(s.(threads := s.threads[t := AsleepReading(c, n)]))
    ensures Calm(s) ==> Calm(s.(threads := s.threads[t := AsleepReading(c, n)]))
  {
    hide Stream;
    hide Of;
    assert ThreadOk(s, t, true);
    ThreadBase(s, t, AsleepReading(c, n), true);
  }

  lemma ClosedBase(s: St, writable: bool)
    requires Inv(s)
    requires forall t: nat | t in s.threads :: if writable then !s.threads[t].Writing? && !s.threads[t].AsleepWriting?
                                               else !s.threads[t].Reading? && !s.threads[t].AsleepReading?
    ensures writable ==> Inv(WakeReaders(s.(writeopen := false)))
    ensures !writable ==> Inv(WakeWriters(s.(readopen := false)))
  {
    hide Stream;
    hide Of;
    var s' := if writable then s.(writeopen := false) else s.(readopen := false);
    assert Stream(s') by { SameStream(s, s'); }
    forall u: nat | u in s'.threads ensures ThreadOk(s', u, writable) { assert ThreadOk(s, u, true); }
    forall u: nat, v: nat | u in s'.threads && v in s'.threads ensures Apart(s', u, v) { assert Apart(s, u, v); }
    if writable { WakeReadersBase(s'); } else { WakeWritersBase(s', false); }
  }

  lemma RouseBase(s: St, t: nat)
    requires Inv(s) && t in s.threads
    ensures Inv(s.(threads := s.threads[t := UpReader(UpWriter(s.threads[t]))]))
    ensures Calm(s) ==> Calm(s.(threads := s.threads[t := UpReader(UpWriter(s.threads[t]))]))
  {
    hide Stream;
    hide Of;
    assert ThreadOk(s, t, true);
    ThreadBase(s, t, UpReader(UpWriter(s.threads[t])), true);
  }

  lemma WriterAt(s: St, t: nat)
    requires Base(s, true) && t in s.threads && s.threads[t].Writing?
    ensures s.threads[t].i <= |s.threads[t].src| && Of(s.ins, s.threads[t].call) == s.threads[t].src[..s.threads[t].i]
  {
    assert ThreadOk(s, t, true);
  }

  lemma CountsOf(s: St)
    requires Base(s, true)
    ensures Sizes(s) && |s.outs| <= |s.ins| <= |s.outs| + PIPESIZE
    ensures s.nwrite == (s.nread + PIPESIZE) % WRAP <==> |s.ins| == |s.outs| + PIPESIZE
    ensures s.nread == s.nwrite <==> |s.ins| == |s.outs|
  {
    FullMeans(s);
  }

  /** The early return changes nothing but the thread. */
  lemma QuitBase(s: St, t: nat)
    requires Base(s, true) && t in s.threads && s.threads[t].Writing?
    ensures Inv(s.(threads := s.threads[t := Idle]))
  {
    ThreadBase(s, t, Idle, true);
  }

  /** Where a byte can be removed no reader sleeps, in a calm pipe. */
  lemma RemoveCalm(s: St, c: nat)
    requires Sizes(s) && |s.outs| < |s.ins|
    ensures Calm(s) ==> Calm(Removed(s, c))
  {
    assert forall u: nat :: AsleepReader(Removed(s, c), u) <==> AsleepReader(s, u);
  }

  lemma SleepWriteBase(s: St, t: nat, c: nat, src: seq<byte>, i: nat)
    requires Inv(s) && t in s.threads && s.threads[t] == Writing(c, src, i) && i < |src|
    requires |s.ins| == |s.outs| + PIPESIZE && s.readopen
    ensures Inv(s.(threads := s.threads[t := AsleepWriting(c, src, i)]))
  {
    hide Stream;
    hide Of;
    assert ThreadOk(s, t, true);
    ThreadBase(s, t, AsleepWriting(c, src, i), true);
  }

  // ---- what the invariant means ----

  function Bytes(log: seq<Entry>): seq<byte> { seq(|log|, i requires 0 <= i < |log| => log[i].b) }

  /** The bytes between the counters, from nread on. */
  function Buffered(s: St): seq<byte>
    requires Sizes(s)
  {
    seq((s.nwrite - s.nread) % WRAP, i requires 0 <= i => s.data[(s.nread + i) % PIPESIZE])
  }

  /** Bytes removed followed by bytes buffered are the bytes inserted, in order,
      however often the 32-bit counters have wrapped. */
  lemma StreamConserved(s: St)
    requires Stream(s)
    ensures Bytes(s.outs) + Buffered(s) == Bytes(s.ins) && |Buffered(s)| <= PIPESIZE
  {
    var w, r := |s.ins|, |s.outs|;
    Difference(r, w);
    forall k: nat | k < w ensures (Bytes(s.outs) + Buffered(s))[k] == s.ins[k].b {
      if k < r {
        assert s.outs[k].b == s.ins[k].b;
      } else {
        RingAt(r, k - r);
        assert s.data[k % PIPESIZE] == s.ins[k].b;
      }
    }
  }

  lemma Difference(r: nat, w: nat)
    requires r <= w <= r + PIPESIZE
    ensures (w % WRAP - r % WRAP) % WRAP == w - r
  {
  }

  lemma RingAt(r: nat, i: nat)
    ensures (r % WRAP + i) % PIPESIZE == (r + i) % PIPESIZE
  {
  }

  /** With the lock free, a sleeping writer means a full pipe that can be read; in
      a calm pipe a sleeping reader means an empty one that can be written. */
  lemma SleepersMean(s: St, t: nat)
    requires Inv(s) && t in s.threads
    ensures s.threads[t].AsleepWriting? ==> s.nwrite == (s.nread + PIPESIZE) % WRAP && s.readopen
    ensures Calm(s) && s.threads[t].AsleepReading? ==> s.nread == s.nwrite && s.writeopen
  {
    assert ThreadOk(s, t, true);
    assert s.threads[t].AsleepReading? ==> AsleepReader(s, t);
    FullMeans(s);
  }

  /** The exception is real: a reader sleeps on the empty pipe, and a writer puts
      one byte in and at its next test is seen to be killed. */
  method KilledWriter() returns (p: PipeObj)
    ensures fresh(p) && p.Valid() && AsleepReader(p.s, 0) && p.s.nread != p.s.nwrite && !Calm(p.s)
  {
    p := new PipeObj({0, 1});
    p.StartRead(0, 1);
    var o, dst := p.Read(0, false, 1);
    assert AsleepReader(p.s, 0);
    p.StartWrite(1, [7, 8]);
    assert AsleepReader(p.s, 0);
    o := p.Write(1, 1, 2);
    FullMeans(p.s);
  }
}
