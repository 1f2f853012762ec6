/**
 The subscription fetcher's cache of HTTP clients, one per host, each pinned to the
 addresses that were validated when it was built. A mutex is held for the whole of
 `client_for`, so concurrent fetches form a sequence of requests.
 */
module ClientCache {
  import opened Wrappers

  type Address = nat

  const CLIENT_CACHE_MAX_HOSTS := 64

  /** What a client will connect to: nothing pinned, or one host pinned to these addresses. */
  datatype Pinning = Unpinned | Pinned(host: string, ips: seq<Address>)

  /** A built client: its pinning, and a number telling its connection pool from others. */
  datatype Client = Client(pinning: Pinning, pool: nat)

  datatype PinnedClient = PinnedClient(ips: seq<Address>, client: Client)

  type Cache = map<string, PinnedClient>

  /** A call: the host, its validated addresses, and the pool a build gets, or `None` if building fails. */
  datatype Request = Request(host: string, ips: seq<Address>, pool: Option<nat>)

  datatype FetchError = Connection

  /** The address a host text denotes, if it is one. Such hosts are connected to directly. */
  type Literals = string -> Option<Address>

  function PinningFor(literal: Literals, host: string, ips: seq<Address>): Pinning {
    if literal(host).Some? then Unpinned else Pinned(host, ips)
  }

  predicate Hit(cache: Cache, q: Request) {
    q.host in cache && cache[q.host].ips == q.ips
  }

  function Store(cache: Cache, q: Request, client: Client): Cache {
    var room: Cache := if |cache| >= CLIENT_CACHE_MAX_HOSTS then map[] else cache;
    room[q.host := PinnedClient(q.ips, client)]
  }

  /** The cache after a request. */
  function After(literal: Literals, cache: Cache, q: Request): Cache {
    if Hit(cache, q) || q.pool.None? then cache
    else Store(cache, q, Client(PinningFor(literal, q.host, q.ips), q.pool.value))
  }

  /** The client a request gets. */
  function Answer(literal: Literals, cache: Cache, q: Request): Result<Client, FetchError> {
    if Hit(cache, q) then Ok(cache[q.host].client) else Rebuilt(literal, q)
  }

  /** What a fetcher without a cache returns. */
  function Rebuilt(literal: Literals, q: Request): Result<Client, FetchError> {
    if q.pool.None? then Err(Connection)
    else Ok(Client(PinningFor(literal, q.host, q.ips), q.pool.value))
  }

  // ----------------------------------------------------------- the invariant

  /** The addresses a client connects to for a host, when a lookup outside it would give `dns`. */
  function Dials(literal: Literals, client: Client, host: string, dns: string -> seq<Address>): seq<Address> {
    if literal(host).Some? then [literal(host).value]
    else if client.pinning.Pinned? && client.pinning.host == host then client.pinning.ips
    else dns(host)
  }

  /** The entry's client was built for its key and its recorded addresses. */
  ghost predicate EntryOk(literal: Literals, host: string, entry: PinnedClient) {
    && (literal(host).None? ==> entry.client.pinning == Pinned(host, entry.ips))
    && (literal(host).Some? ==> entry.client.pinning == Unpinned)
  }

  ghost predicate Valid(literal: Literals, cache: Cache) {
    && |cache| <= 64
    && forall host :: host in cache ==> EntryOk(literal, host, cache[host])
  }

  lemma StoreGrowsByOne(cache: Cache, host: string, entry: PinnedClient)
    ensures |cache[host := entry]| <= |cache| + 1
  {
    assert cache[host := entry].Keys == cache.Keys + {host};
    if host in cache {
      assert cache.Keys + {host} == cache.Keys;
    }
  }

  lemma AfterKeepsValid(literal: Literals, cache: Cache, q: Request)
    requires Valid(literal, cache)
    ensures Valid(literal, After(literal, cache, q))
  {
    if !Hit(cache, q) && q.pool.Some? {
      var entry := PinnedClient(q.ips, Client(PinningFor(literal, q.host, q.ips), q.pool.value));
      var room: Cache := if |cache| >= CLIENT_CACHE_MAX_HOSTS then map[] else cache;
      StoreGrowsByOne(room, q.host, entry);
    }
  }

  class ClientCache {
    const literal: Literals
    var entries: Cache

    constructor (literal: Literals)
      ensures this.literal == literal && entries == map[] && Valid(literal, entries)
    {
      this.literal := literal;
      entries := map[];
    }

    /** `client_for`: look up, else build, make room, insert. */
    method ClientFor(host: string, ips: seq<Address>, pool: Option<nat>) returns (r: Result<Client, FetchError>)
      requires Valid(literal, entries)
      modifies this`entries
      ensures entries == After(literal, old(entries), Request(host, ips, pool))
      ensures r == Answer(literal, old(entries), Request(host, ips, pool))
      ensures Valid(literal, entries)
      ensures r.Ok? && literal(host).None? ==> r.value.pinning == Pinned(host, ips)
      ensures r.Ok? && literal(host).Some? ==> r.value.pinning == Unpinned
      ensures r.Ok? ==> host in entries && entries[host] == PinnedClient(ips, r.value)
      ensures r.Err? <==> pool.None? && !(host in old(entries) && old(entries)[host].ips == ips)
      ensures r.Err? ==> entries == old(entries)
    {
      AfterKeepsValid(literal, entries, Request(host, ips, pool));
      if host in entries && entries[host].ips == ips {
        assert EntryOk(literal, host, entries[host]);
        return Ok(entries[host].client);
      }
      if pool.None? {
        return Err(Connection);
      }
      var client := Client(PinningFor(literal, host, ips), pool.value);
      if |entries| >= CLIENT_CACHE_MAX_HOSTS {
        entries := map[];
      }
      entries := entries[host := PinnedClient(ips, client)];
      r := Ok(client);
    }
  }

  // ------------------------------------------------------------- whole runs

  /** The cache after the first `n` requests, starting empty. */
  ghost function CacheAt(literal: Literals, qs: seq<Request>, n: nat): Cache
    requires n <= |qs|
  {
    if n == 0 then map[] else After(literal, CacheAt(literal, qs, n - 1), qs[n - 1])
  }

  ghost function AnswerAt(literal: Literals, qs: seq<Request>, i: nat): Result<Client, FetchError>
    requires i < |qs|
  {
    Answer(literal, CacheAt(literal, qs, i), qs[i])
  }

  /** Never more than 64 hosts, and every entry built for exactly its host and addresses. */
  lemma {:induction false} RunKeepsValid(literal: Literals, qs: seq<Request>, n: nat)
    requires n <= |qs|
    ensures Valid(literal, CacheAt(literal, qs, n))
  {
    if n > 0 {
      RunKeepsValid(literal, qs, n - 1);
      AfterKeepsValid(literal, CacheAt(literal, qs, n - 1), qs[n - 1]);
    }
  }

  /** Whatever came before, a request gets a client pinned to exactly its own addresses: the
      one a rebuild would give, up to its pool. It fails only when the rebuild fails too. */
  lemma AgreesWithRebuild(literal: Literals, qs: seq<Request>, i: nat)
    requires i < |qs|
    ensures AnswerAt(literal, qs, i).Ok? && literal(qs[i].host).None? ==>
      AnswerAt(literal, qs, i).value.pinning == Pinned(qs[i].host, qs[i].ips)
    ensures AnswerAt(literal, qs, i).Ok? && literal(qs[i].host).Some? ==>
      AnswerAt(literal, qs, i).value.pinning == Unpinned
    ensures Rebuilt(literal, qs[i]).Ok? ==>
      AnswerAt(literal, qs, i).Ok? && AnswerAt(literal, qs, i).value.pinning == Rebuilt(literal, qs[i]).value.pinning
    ensures AnswerAt(literal, qs, i).Err? <==>
      var cache := CacheAt(literal, qs, i);
      qs[i].pool.None? && !(qs[i].host in cache && cache[qs[i].host].ips == qs[i].ips)
  {
    RunKeepsValid(literal, qs, i);
    var cache := CacheAt(literal, qs, i);
    if Hit(cache, qs[i]) {
      assert EntryOk(literal, qs[i].host, cache[qs[i].host]);
    }
  }

  /**
   Whatever a lookup would say at the time of the connection, the client that answers a
   request connects exactly to the addresses validated for that request, or to the
   address its host is. So does every client in the cache for its own host.
   */
  lemma DialsOnlyValidated(literal: Literals, qs: seq<Request>, i: nat, dns: string -> seq<Address>)
    requires i < |qs|
    ensures AnswerAt(literal, qs, i).Ok? ==>
      var dialled := Dials(literal, AnswerAt(literal, qs, i).value, qs[i].host, dns);
      dialled == if literal(qs[i].host).Some? then [literal(qs[i].host).value] else qs[i].ips
    ensures forall host :: host in CacheAt(literal, qs, i) && literal(host).None? ==>
      Dials(literal, CacheAt(literal, qs, i)[host].client, host, dns) == CacheAt(literal, qs, i)[host].ips
  {
    AgreesWithRebuild(literal, qs, i);
    RunKeepsValid(literal, qs, i);
  }

  /** The client was built by a request of the run for the same host and the same addresses. */
  ghost predicate BuiltBy(qs: seq<Request>, j: nat, host: string, ips: seq<Address>, client: Client) {
    j < |qs| && qs[j].host == host && qs[j].ips == ips && qs[j].pool == Some(client.pool)
  }

  lemma {:induction false} EntryOrigin(literal: Literals, qs: seq<Request>, n: nat, host: string) returns (j: nat)
    requires n <= |qs| && host in CacheAt(literal, qs, n)
    ensures j < n
    ensures BuiltBy(qs, j, host, CacheAt(literal, qs, n)[host].ips, CacheAt(literal, qs, n)[host].client)
  {
    var before := CacheAt(literal, qs, n - 1);
    if host in before && before[host] == CacheAt(literal, qs, n)[host] {
      j := EntryOrigin(literal, qs, n - 1, host);
    } else {
      j := n - 1;
    }
  }

  /** No client comes from another host or from addresses that were not validated for this request. */
  lemma AnswerOrigin(literal: Literals, qs: seq<Request>, i: nat) returns (j: nat)
    requires i < |qs| && AnswerAt(literal, qs, i).Ok?
    ensures j <= i && BuiltBy(qs, j, qs[i].host, qs[i].ips, AnswerAt(literal, qs, i).value)
  {
    if Hit(CacheAt(literal, qs, i), qs[i]) {
      j := EntryOrigin(literal, qs, i, qs[i].host);
    } else {
      j := i;
    }
  }

  // -------------------------------------------------------- reuse of a pool

  /** The request empties a full cache. */
  predicate Clears(cache: Cache, q: Request) {
    !Hit(cache, q) && q.pool.Some? && |cache| >= 64
  }

  /** The request pins the host to other addresses. */
  predicate Repins(q: Request, host: string, ips: seq<Address>) {
    q.host == host && q.ips != ips && q.pool.Some?
  }

  /** An entry lasts exactly until the cache is cleared or its host is pinned anew. */
  lemma EntryStaysExactlyWhen(literal: Literals, cache: Cache, q: Request, host: string)
    requires host in cache
    ensures (host in After(literal, cache, q) && After(literal, cache, q)[host].ips == cache[host].ips)
       <==> !Clears(cache, q) && !Repins(q, host, cache[host].ips)
    ensures !Clears(cache, q) && !Repins(q, host, cache[host].ips) ==> After(literal, cache, q)[host] == cache[host]
  {
  }

  /** Until then, every request for the same host and addresses gets the same pool. */
  lemma PoolIsReused(literal: Literals, qs: seq<Request>, i: nat, j: nat)
    requires i < j < |qs| && AnswerAt(literal, qs, i).Ok?
    requires qs[j].host == qs[i].host && qs[j].ips == qs[i].ips
    requires forall k :: i < k < j ==> !Clears(CacheAt(literal, qs, k), qs[k]) && !Repins(qs[k], qs[i].host, qs[i].ips)
    ensures AnswerAt(literal, qs, j) == AnswerAt(literal, qs, i)
  {
    EntryLasts(literal, qs, i, j);
  }

  lemma {:induction false} EntryLasts(literal: Literals, qs: seq<Request>, i: nat, j: nat)
    requires i < j < |qs| && AnswerAt(literal, qs, i).Ok?
    requires forall k :: i < k < j ==> !Clears(CacheAt(literal, qs, k), qs[k]) && !Repins(qs[k], qs[i].host, qs[i].ips)
    ensures qs[i].host in CacheAt(literal, qs, j)
    ensures CacheAt(literal, qs, j)[qs[i].host] == PinnedClient(qs[i].ips, AnswerAt(literal, qs, i).value)
    decreases j
  {
    if i < j - 1 {
      EntryLasts(literal, qs, i, j - 1);
      EntryStaysExactlyWhen(literal, CacheAt(literal, qs, j - 1), qs[j - 1], qs[i].host);
    }
  }
}
