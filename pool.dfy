/** The SFTP connection pool: a bounded first-in first-out buffer of idle
    connections.  Connections are numbered in the order the factory makes them;
    whether a creation fails and whether a pooled connection is still alive are
    inputs. */
module Pool {
  import opened Text

  const DefaultMaxCapacity: int := 10

  /** The capacity a requested capacity gives: 0 means the default. */
  function Capacity(maxCap: nat): (c: nat)
    ensures maxCap == 0 ==> c == DefaultMaxCapacity
    ensures maxCap != 0 ==> c == maxCap
    ensures c > 0
  {
    if maxCap == 0 then DefaultMaxCapacity else maxCap
  }

  class SftpPool {
    /** Idle connections, oldest first. */
    var idle: seq<nat>
    const maxCapacity: nat
    /** Connections made by the factory so far (also the next number). */
    var created: nat
    /** Connections closed, in order. */
    var closed: seq<nat>

    ghost predicate Valid()
      reads this
    {
      0 < maxCapacity && |idle| <= maxCapacity &&
      (forall k :: 0 <= k < |idle| ==> idle[k] < created)
    }

    constructor (capacity: nat)
      requires capacity > 0
      ensures Valid() && idle == [] && maxCapacity == capacity && created == 0 && closed == []
    {
      idle, maxCapacity, created, closed := [], capacity, 0, [];
    }

    /** The factory: the next connection, or nothing when creation fails. */
    method Create(ok: bool) returns (c: Option<nat>)
      modifies this`created
      ensures ok ==> c == Some(old(created)) && created == old(created) + 1
      ensures !ok ==> c.None? && created == old(created)
    {
      if ok {
        c := Some(created);
        created := created + 1;
      } else {
        c := None;
      }
    }

    /** Get: the oldest idle connection when it is alive; a dead one is closed
        and replaced by a new one; an empty pool makes a new one. */
    method Get(alive: bool, createOk: bool) returns (c: Option<nat>)
      requires Valid()
      modifies this
      ensures Valid()
      ensures old(idle) != [] ==> idle == old(idle)[1..]
      ensures old(idle) == [] ==> idle == []
      ensures old(idle) != [] && alive ==> c == Some(old(idle)[0]) && created == old(created) && closed == old(closed)
      ensures old(idle) != [] && !alive ==> closed == old(closed) + [old(idle)[0]]
      ensures old(idle) == [] ==> closed == old(closed)
      ensures (old(idle) == [] || !alive) && createOk ==> c == Some(old(created)) && created == old(created) + 1
      ensures (old(idle) == [] || !alive) && !createOk ==> c.None? && created == old(created)
    {
      if |idle| > 0 {
        var client := idle[0];
        idle := idle[1..];
        if !alive {
          closed := closed + [client];
          c := Create(createOk);
          return;
        }
        return Some(client);
      }
      c := Create(createOk);
    }

    /** Put: the connection joins the back of the pool, or is closed when the
        pool is full. */
    method Put(client: nat)
      requires Valid() && client < created
      modifies this
      ensures Valid() && created == old(created)
      ensures |old(idle)| < maxCapacity ==> idle == old(idle) + [client] && closed == old(closed)
      ensures |old(idle)| >= maxCapacity ==> idle == old(idle) && closed == old(closed) + [client]
    {
      if |idle| < maxCapacity {
        idle := idle + [client];
      } else {
        closed := closed + [client];
      }
    }
  }

  /** NewSFTPPool: half the capacity is created up front; the first failed
      creation fails the whole construction.  createOk says which of the
      creations succeed. */
  method NewPool(maxCap: nat, createOk: seq<bool>) returns (p: SftpPool?)
    ensures p == null <==> exists k :: 0 <= k < Capacity(maxCap) / 2 && !Succeeds(createOk, k)
    ensures p != null ==> fresh(p) && p.Valid() && p.maxCapacity == Capacity(maxCap) &&
                          p.idle == Numbers(Capacity(maxCap) / 2) && p.created == Capacity(maxCap) / 2 && p.closed == []
  {
    var cap := Capacity(maxCap);
    p := new SftpPool(cap);
    var i := 0;
    while i < cap / 2
      invariant 0 <= i <= cap / 2
      invariant fresh(p) && p.Valid() && p.maxCapacity == cap && p.closed == []
      invariant p.idle == Numbers(i) && p.created == i
      invariant forall k :: 0 <= k < i ==> Succeeds(createOk, k)
    {
      var c := p.Create(Succeeds(createOk, i));
      if c.None? {
        assert !Succeeds(createOk, i);
        return null;
      }
      p.idle := p.idle + [c.value];
      i := i + 1;
    }
  }

  /** Whether the k-th creation succeeds. */
  predicate Succeeds(createOk: seq<bool>, k: nat) {
    k < |createOk| && createOk[k]
  }

  /** 0, 1, ..., n - 1. */
  function Numbers(n: nat): (r: seq<nat>)
    ensures |r| == n && forall k :: 0 <= k < n ==> r[k] == k
  {
    if n == 0 then [] else Numbers(n - 1) + [n - 1]
  }

  /** The server's pools have capacity 5 and so start with two connections; the
      third Get finds the pool empty and creates a connection; returning three
      connections fills the pool to three. */
  method PoolScenario() returns (first: Option<nat>, second: Option<nat>, third: Option<nat>, idleAfter: seq<nat>)
    ensures first == Some(0) && second == Some(1) && third == Some(2) && idleAfter == [0, 1, 2]
  {
    assert Capacity(5) / 2 == 2;
    assert Succeeds([true, true], 0) && Succeeds([true, true], 1);
    var p := NewPool(5, [true, true]);
    first := p.Get(true, true);
    second := p.Get(true, true);
    third := p.Get(true, true);
    p.Put(first.value);
    p.Put(second.value);
    p.Put(third.value);
    idleAfter := p.idle;
  }

  /** A dead pooled connection is closed and replaced, and the pool never grows
      beyond its capacity: a full pool closes what is returned to it. */
  method DeadAndFull() returns (got: Option<nat>, closedAfter: seq<nat>, idleSize: nat)
    ensures got == Some(2) && closedAfter == [0, 3] && idleSize == 2
  {
    var p := new SftpPool(2);
    var a := p.Create(true);
    var b := p.Create(true);
    p.Put(a.value);
    got := p.Get(false, true);
    p.Put(b.value);
    p.Put(got.value);
    var extra := p.Create(true);
    p.Put(extra.value);
    closedAfter := p.closed;
    idleSize := |p.idle|;
  }
}
