/** The threads that use the buffer cache. Each is somewhere between bget and the
    end of brelse; a buffer's count is the number of threads that are there with
    it, so while one of them has it nobody makes it stand for another block. */
module BcacheUse {
  import opened Common
  import opened Bcache

  /** A thread after bget: before acquiresleep returns, holding the sleep lock, or
      in brelse after giving it up. */
  datatype Use =
    | Waiting(b: nat, blockno: nat)
    | Inside(b: nat, blockno: nat)
    | Leaving(b: nat, blockno: nat)

  ghost function At(users: map<nat, Use>, b: nat): set<nat> { set t | t in users && users[t].b == b }

  ghost function In(users: map<nat, Use>, b: nat): set<nat> {
    set t | t in users && users[t].Inside? && users[t].b == b
  }

  /** The count is that of the threads with the buffer, and its sleep lock is held
      by the one of them that is inside. */
  ghost predicate Counted(buf: seq<Buf>, users: map<nat, Use>, b: nat)
    requires b < |buf|
  {
    buf[b].refcnt == |At(users, b)| && |In(users, b)| == if buf[b].held then 1 else 0
  }

  /** The buffer a thread got stands for its block. */
  predicate Stands(buf: seq<Buf>, dev: nat, x: Use) {
    x.b < |buf| && x.blockno != 0 && buf[x.b].key == Key(dev, x.blockno)
  }

  ghost predicate AllCounted(buf: seq<Buf>, users: map<nat, Use>) {
    forall b: nat {:trigger Counted(buf, users, b)} | b < |buf| :: Counted(buf, users, b)
  }

  ghost predicate AllStand(buf: seq<Buf>, dev: nat, users: map<nat, Use>) {
    forall t: nat {:trigger users[t]} | t in users :: Stands(buf, dev, users[t])
  }

  /** One thread comes, goes, or goes on. */
  lemma OneMoves(users: map<nat, Use>, users': map<nat, Use>, t: nat, b: nat)
    requires forall u: nat | u != t :: (u in users <==> u in users') && (u in users ==> users'[u] == users[u])
    ensures |At(users', b)| + (if t in users && users[t].b == b then 1 else 0) == |At(users, b)| +
              (if t in users' && users'[t].b == b then 1 else 0)
    ensures |In(users', b)| + (if t in users && users[t].Inside? && users[t].b == b then 1 else 0)
            == |In(users, b)| + (if t in users' && users'[t].Inside? && users'[t].b == b then 1 else 0)
  {
    OneOff(At(users, b), At(users', b), t);
    OneOff(In(users, b), In(users', b), t);
  }

  lemma OneOff(a: set<nat>, b: set<nat>, t: nat)
    requires forall x: nat | x != t :: x in a <==> x in b
    ensures |b| + (if t in a then 1 else 0) == |a| + (if t in b then 1 else 0)
  {
    assert a - {t} == b - {t};
    TakeOut(a, t);
    TakeOut(b, t);
  }

  lemma TakeOut(a: set<nat>, t: nat)
    ensures |a| == |a - {t}| + if t in a then 1 else 0
  {
    if t in a { assert a == (a - {t}) + {t}; } else { assert a == a - {t}; }
  }

  /** A step of thread t that changes its buffer b and no other. */
  lemma StepKeeps(buf: seq<Buf>, buf': seq<Buf>, dev: nat, users: map<nat, Use>, users': map<nat, Use>, t: nat, b: nat)
    requires AllCounted(buf, users) && AllStand(buf, dev, users) && b < |buf| && |buf'| == |buf|
    requires forall u: nat | u != t :: (u in users <==> u in users') && (u in users ==> users'[u] == users[u])
    requires (t in users ==> users[t].b == b) && (t in users' ==> users'[t].b == b && Stands(buf', dev, users'[t]))
    requires forall c: nat | c < |buf| && c != b ::
               buf'[c].refcnt == buf[c].refcnt && buf'[c].held == buf[c].held && buf'[c].key == buf[c].key
    requires buf'[b].key == buf[b].key || buf[b].refcnt == 0
    requires buf'[b].refcnt + (if t in users then 1 else 0) == buf[b].refcnt + if t in users' then 1 else 0
    requires (if buf'[b].held then 1 else 0) + (if t in users && users[t].Inside? then 1 else 0)
             == (if buf[b].held then 1 else 0) + if t in users' && users'[t].Inside? then 1 else 0
    ensures AllCounted(buf', users') && AllStand(buf', dev, users')
  {
    hide At;
    hide In;
    forall c: nat | c < |buf'| ensures Counted(buf', users', c) {
      assert Counted(buf, users, c);
      OneMoves(users, users', t, c);
    }
    forall u: nat | u in users' ensures Stands(buf', dev, users'[u]) {
      if u != t {
        assert Stands(buf, dev, users[u]);
        if users[u].b == b { Uses(buf, users, u); }
      }
    }
  }

  /** A buffer that a thread has is in use; one that is held has a thread inside. */
  lemma Uses(buf: seq<Buf>, users: map<nat, Use>, t: nat)
    requires AllCounted(buf, users) && t in users && users[t].b < |buf|
    ensures buf[users[t].b].refcnt > 0
    ensures users[t].Inside? ==> buf[users[t].b].held
    ensures !users[t].Inside? && buf[users[t].b].held ==> buf[users[t].b].refcnt > 1
  {
    var b := users[t].b;
    assert Counted(buf, users, b);
    assert t in At(users, b);
    assert At(users, b) == (At(users, b) - {t}) + {t};
    if users[t].Inside? {
      assert t in In(users, b);
    } else if buf[b].held {
      assert In(users, b) <= At(users, b) - {t};
      SubsetSize(In(users, b), At(users, b) - {t});
    }
  }

  /** At most one thread has a buffer's contents, and any two threads that got the
      same block have the same buffer. */
  lemma Exclusive(buf: seq<Buf>, dev: nat, users: map<nat, Use>, t: nat, u: nat)
    requires AllCounted(buf, users) && AllStand(buf, dev, users) && t in users && u in users && t != u
    requires forall b: nat, c: nat | b < |buf| && c < |buf| :: Alone(buf, b, c)
    ensures users[t].b == users[u].b <==> users[t].blockno == users[u].blockno
    ensures users[t].Inside? && users[u].Inside? ==> users[t].blockno != users[u].blockno && users[t].b != users[u].b
  {
    var b, c := users[t].b, users[u].b;
    assert Stands(buf, dev, users[t]) && Stands(buf, dev, users[u]);
    assert Alone(buf, b, c);
    if users[t].Inside? && users[u].Inside? && b == c {
      assert Counted(buf, users, b);
      assert {t, u} <= In(users, b);
      SubsetSize({t, u}, In(users, b));
    }
  }

  class Threads {
    const cache: Cache
    ghost var users: map<nat, Use>

    ghost predicate Valid()
      reads this, cache
    {
      cache.Valid() && |cache.buf| == NBUF && AllCounted(cache.buf, users) && AllStand(cache.buf, cache.dev, users)
      && forall t: nat {:trigger users[t]} | t in users :: users[t].blockno in cache.disk
    }

    constructor (cache: Cache)
      requires cache.Valid() && forall b: nat | b < NBUF :: !cache.buf[b].held && cache.buf[b].refcnt == 0
      ensures Valid() && this.cache == cache && users == map[]
    {
      this.cache, users := cache, map[];
      new;
      forall b: nat | b < NBUF ensures Counted(cache.buf, users, b) { assert At(users, b) == {} && In(users, b) == {}; }
    }

    /** bget: -1 stands for the panic, and then every buffer is in some thread's use. */
    method Get(ghost t: nat, blockno: nat) returns (b: int)
      requires Valid() && t !in users && blockno != 0 && blockno in cache.disk
      modifies this, cache`buf
      ensures Valid()
      ensures b == -1 ==>
                users == old(users) && cache.buf == old(cache.buf) && forall c: nat | c < NBUF :: At(users, c) != {}
      ensures b != -1 ==> 0 <= b < NBUF && users == old(users)[t := Waiting(b, blockno)]
    {
      hide Inv;
      hide AllCounted;
      hide AllStand;
      ghost var buf, was := cache.buf, users;
      b := cache.Bget(blockno);
      if b == -1 {
        AllUsed(buf, users);
        return;
      }
      users := users[t := Waiting(b, blockno)];
      IdleFree(buf, was, b);
      StepKeeps(buf, cache.buf, cache.dev, was, users, t, b);
    }

    /** acquiresleep returns in thread t. */
    method Enter(ghost t: nat, b: nat)
      requires Valid() && t in users && users[t].Waiting? && users[t].b == b && b < NBUF && !cache.buf[b].held
      modifies this, cache`buf
      ensures Valid() && users == old(users)[t := Inside(b, old(users)[t].blockno)] && !cache.buf[b].dirty
    {
      hide Inv;
      hide AllCounted;
      hide AllStand;
      ghost var buf, was := cache.buf, users;
      Uses(buf, users, t);
      StandsAt(buf, cache.dev, users, t);
      cache.Lock(b);
      users := users[t := Inside(b, users[t].blockno)];
      StepKeeps(buf, cache.buf, cache.dev, was, users, t, b);
    }

    /** The rest of bread in the thread inside: whatever was written last to the
        block it asked for, with any other threads in between. */
    method Read(ghost t: nat, b: nat) returns (data: Data)
      requires Valid() && t in users && users[t].Inside? && users[t].b == b && b < NBUF && !cache.buf[b].dirty
      modifies cache`buf
      ensures Valid() && data == cache.disk[users[t].blockno]
      ensures cache.buf == old(cache.buf)[b := old(cache.buf)[b].(valid := true, data := data)]
    {
      hide Inv;
      hide AllCounted;
      hide AllStand;
      ghost var buf := cache.buf;
      Uses(buf, users, t);
      StandsAt(buf, cache.dev, users, t);
      data := cache.Load(b);
      StepKeeps(buf, cache.buf, cache.dev, users, users, t, b);
    }

    /** The thread inside changes the data and writes it: the disk has it at the
        block it asked for. */
    method Write(ghost t: nat, b: nat, data: Data)
      requires Valid() && t in users && users[t].Inside? && users[t].b == b && b < NBUF && cache.buf[b].valid
      modifies cache`buf, cache`disk
      ensures Valid() && cache.disk == old(cache.disk)[users[t].blockno := data]
      ensures cache.buf == old(cache.buf)[b := old(cache.buf)[b].(data := data, dirty := false)]
    {
      hide Inv;
      hide AllCounted;
      hide AllStand;
      ghost var buf := cache.buf;
      Uses(buf, users, t);
      StandsAt(buf, cache.dev, users, t);
      cache.Change(b, data);
      cache.Bwrite(b);
      StepKeeps(buf, cache.buf, cache.dev, users, users, t, b);
    }

    /** releasesleep in brelse. */
    method Exit(ghost t: nat, b: nat)
      requires Valid() && t in users && users[t].Inside? && users[t].b == b && b < NBUF && !cache.buf[b].dirty
      modifies this, cache`buf
      ensures Valid() && users == old(users)[t := Leaving(b, old(users)[t].blockno)]
    {
      hide Inv;
      hide AllCounted;
      hide AllStand;
      ghost var buf, was := cache.buf, users;
      Uses(buf, users, t);
      StandsAt(buf, cache.dev, users, t);
      cache.Unlock(b);
      users := users[t := Leaving(b, users[t].blockno)];
      StepKeeps(buf, cache.buf, cache.dev, was, users, t, b);
    }

    /** The end of brelse, when others may be inside or waiting. */
    method Leave(ghost t: nat, b: nat)
      requires Valid() && t in users && users[t].Leaving? && users[t].b == b && b < NBUF
      modifies this, cache
      ensures Valid() && users == old(users) - {t} && cache.disk == old(cache.disk)
    {
      hide Inv;
      hide AllCounted;
      hide AllStand;
      ghost var buf, was := cache.buf, users;
      Uses(buf, users, t);
      StandsAt(buf, cache.dev, users, t);
      cache.Brelse(b);
      users := users - {t};
      StepKeeps(buf, cache.buf, cache.dev, was, users, t, b);
    }
  }

  lemma StandsAt(buf: seq<Buf>, dev: nat, users: map<nat, Use>, t: nat)
    requires AllStand(buf, dev, users) && t in users
    ensures Stands(buf, dev, users[t])
  {
  }

  lemma IdleFree(buf: seq<Buf>, users: map<nat, Use>, b: nat)
    requires AllCounted(buf, users) && b < |buf|
    ensures buf[b].refcnt == 0 ==> !buf[b].held
  {
    assert Counted(buf, users, b);
    SubsetSize(In(users, b), At(users, b));
  }

  lemma AllUsed(buf: seq<Buf>, users: map<nat, Use>)
    requires AllCounted(buf, users) && forall c: nat | c < |buf| :: buf[c].refcnt > 0
    ensures forall c: nat | c < |buf| :: At(users, c) != {}
  {
    forall c: nat | c < |buf| ensures At(users, c) != {} { assert Counted(buf, users, c); }
  }
}
