/** The per-endpoint connection pool of packages/core/src/client/connection-pool.ts. */
module ConnectionPool {
  import opened Common
  import opened Arithmetic
  import opened Codec
  import opened Connection
  import opened ConnectionObject

  /** What a pooled connection is made with; the client has checked the codec's limits before. */
  datatype PoolOptions = PoolOptions(
    maxConnections: int,
    connectionOptions: ConnectionOptions,
    serializer: Serializer,
    compression: Option<Compression>,
    maxBodyLength: nat,
    maxDecompressedBodyLength: nat)

  datatype PoolError = MaxConnectionsNotPositive

  datatype Stats = Stats(total: nat, idle: nat, connecting: nat, connected: nat, reconnecting: nat, closed: nat)

  function CountState(states: seq<ConnectionState>, state: ConnectionState): nat {
    if states == [] then 0
    else CountState(states[..|states| - 1], state) + if states[|states| - 1] == state then 1 else 0
  }

  class RpcConnectionPool {
    const options: PoolOptions
    var connections: seq<RpcConnection>
    var nextIndex: nat
    ghost var served: nat

    /** `served` counts the calls of `getConnection` so far. */
    ghost predicate Valid()
      reads this
    {
      && options.maxConnections > 0
      && |connections| == Min(served, options.maxConnections)
      && nextIndex == if served < options.maxConnections then 0 else served % options.maxConnections
    }

    constructor (options: PoolOptions)
      requires options.maxConnections > 0
      ensures Valid() && this.options == options && served == 0
    {
      this.options := options;
      connections, nextIndex, served := [], 0, 0;
    }

    /** The constructor as its callers see it: it throws unless `maxConnections` is positive. */
    static method Create(options: PoolOptions) returns (r: Result<RpcConnectionPool, PoolError>)
      ensures r.Success? <==> options.maxConnections > 0
      ensures r.Success? ==> fresh(r.value) && r.value.Valid() && r.value.options == options && r.value.served == 0
    {
      if options.maxConnections <= 0 {
        return Failure(MaxConnectionsNotPositive);
      }
      var pool := new RpcConnectionPool(options);
      r := Success(pool);
    }

    /** Call number j (from 0) gets connection j mod max, and the pool never grows past max. */
    method GetConnection(now: int) returns (connection: RpcConnection)
      requires Valid()
      modifies this
      ensures Valid() && served == old(served) + 1
      ensures |connections| <= options.maxConnections
      ensures old(connections) <= connections
      ensures connections == old(connections) || (connections == old(connections) + [connection] && fresh(connection))
      ensures old(served) % options.maxConnections < |connections|
      ensures connection == connections[old(served) % options.maxConnections]
    {
      NextIndex(served, options.maxConnections);
      if served <= options.maxConnections {
        SmallRemainder(served, options.maxConnections);
      }
      served := served + 1;
      if |connections| < options.maxConnections {
        connection := new RpcConnection(options.connectionOptions, options.serializer, options.compression,
                                        options.maxBodyLength, options.maxDecompressedBodyLength, now);
        connections := connections + [connection];
        return;
      }
      connection := connections[nextIndex];
      nextIndex := (nextIndex + 1) % |connections|;
    }

    ghost function States(): seq<ConnectionState>
      reads this, connections
    {
      seq(|connections|, i requires 0 <= i < |connections| reads this, connections => connections[i].state)
    }

    /** Every connection is counted once, under its own state. */
    method GetStats() returns (r: Stats)
      ensures r.total == |connections|
      ensures r.idle + r.connecting + r.connected + r.reconnecting + r.closed == r.total
      ensures r.idle == CountState(States(), Idle) && r.connecting == CountState(States(), Connecting)
      ensures r.connected == CountState(States(), Connected) && r.reconnecting == CountState(States(), Reconnecting)
      ensures r.closed == CountState(States(), Closed)
    {
      r := Stats(|connections|, 0, 0, 0, 0, 0);
      for i := 0 to |connections|
        invariant r.total == |connections|
        invariant r.idle + r.connecting + r.connected + r.reconnecting + r.closed == i
        invariant var seen := States()[..i];
                  && r.idle == CountState(seen, Idle) && r.connecting == CountState(seen, Connecting)
                  && r.connected == CountState(seen, Connected) && r.reconnecting == CountState(seen, Reconnecting)
                  && r.closed == CountState(seen, Closed)
      {
        assert States()[..i + 1][..i] == States()[..i] && States()[..i + 1][i] == connections[i].state;
        match connections[i].state {
          case Idle => r := r.(idle := r.idle + 1);
          case Connecting => r := r.(connecting := r.connecting + 1);
          case Connected => r := r.(connected := r.connected + 1);
          case Reconnecting => r := r.(reconnecting := r.reconnecting + 1);
          case Closed => r := r.(closed := r.closed + 1);
        }
      }
      assert States()[..|connections|] == States();
    }

    /** Idle until a connection has been asked for; from then on the state of the connection that call 0 was given. */
    method GetState() returns (state: ConnectionState)
      requires Valid()
      ensures served == 0 ==> state == Idle
      ensures served > 0 ==> connections != [] && state == connections[0].state
    {
      state := if |connections| == 0 then Idle else connections[0].state;
    }
  }

  /** Counting on by one: the remainder goes up, or starts over with one turn more behind it. */
  lemma NextRemainder(served: nat, max: int, q: nat, r: nat)
    requires max > 0 && q == served / max && r == served % max
    ensures r + 1 < max ==> (served + 1) / max == q && (served + 1) % max == r + 1
    ensures r + 1 == max ==> (served + 1) / max == q + 1 && (served + 1) % max == 0
  {
    QuotientBracket(served, max);
    assert served == q * max + r;
    if r + 1 == max {
      Distribute(q, 1, max);
      RemainderIs(served + 1, max, q + 1);
    } else {
      RemainderIs(served + 1, max, q);
    }
  }

  lemma NextIndex(served: nat, max: int)
    requires max > 0
    ensures (served + 1) % max == (served % max + 1) % max
  {
    NextRemainder(served, max, served / max, served % max);
    SmallRemainder(served % max + 1, max);
  }

  /** How often connection i has been handed out in `served` calls. */
  function Uses(served: nat, max: nat, i: nat): nat
    requires max > 0
  {
    if served == 0 then 0
    else Uses(served - 1, max, i) + if (served - 1) % max == i then 1 else 0
  }

  lemma {:induction false} UsesAre(served: nat, max: nat, i: nat)
    requires max > 0 && i < max
    ensures Uses(served, max, i) == served / max + if i < served % max then 1 else 0
    decreases served
  {
    if served == 0 {
      SmallRemainder(0, max);
    } else {
      UsesAre(served - 1, max, i);
      NextRemainder(served - 1, max, (served - 1) / max, (served - 1) % max);
    }
  }

  /** The connections that exist have been handed out equally often, give or take one. */
  lemma UsesDifferByAtMostOne(served: nat, max: nat, i: nat, j: nat)
    requires max > 0 && i < Min(served, max) && j < Min(served, max)
    ensures -1 <= Uses(served, max, i) - Uses(served, max, j) <= 1
    ensures Uses(served, max, i) >= 1
  {
    UsesAre(served, max, i);
    UsesAre(served, max, j);
    QuotientAtLeast(served, max, 1);
    if served < max {
      SmallRemainder(served, max);
    }
  }
}
