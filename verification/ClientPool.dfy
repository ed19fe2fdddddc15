/**
 StdKvClientPool (sdk/couchbase-core/src/kvclientpool.rs): a fixed set of babysitters, each of which may
 have a client at the moment, and a published list of the clients that are there, from which callers
 pick in turn with an atomic counter.
 */
module ClientPool {
  import opened Wrappers
  import opened Arithmetic

  type BabysitterId = nat
  type ClientId = nat

  const USIZE_LIMIT: nat := 0x1_0000_0000_0000_0000

  datatype Entry = Entry(babysitter: BabysitterId, client: Option<ClientId>)

  // ---------------------------------------------------------------- the fast list

  /** The clients that are present, in the order of their babysitters. */
  function PresentClients(entries: seq<Entry>): seq<ClientId> {
    if entries == [] then []
    else
      var n := |entries| - 1;
      PresentClients(entries[..n]) + if entries[n].client.Some? then [entries[n].client.value] else []
  }

  /** The first babysitter with the given id gets the new client; an unknown id changes nothing. */
  function Changed(entries: seq<Entry>, id: BabysitterId, client: Option<ClientId>): (r: seq<Entry>)
    ensures |r| == |entries|
    ensures forall i :: 0 <= i < |r| ==> r[i].babysitter == entries[i].babysitter
  {
    if entries == [] then []
    else if entries[0].babysitter == id then [Entry(id, client)] + entries[1..]
    else [entries[0]] + Changed(entries[1..], id, client)
  }

  lemma {:induction false} ChangedAt(entries: seq<Entry>, id: BabysitterId, client: Option<ClientId>, i: nat)
    requires i < |entries| && entries[i].babysitter == id
    requires forall j :: 0 <= j < i ==> entries[j].babysitter != id
    ensures Changed(entries, id, client) == entries[i := Entry(id, client)]
  {
    if i > 0 {
      ChangedAt(entries[1..], id, client, i - 1);
      assert entries == [entries[0]] + entries[1..];
    } else {
      assert entries == [entries[0]] + entries[1..];
    }
  }

  lemma {:induction false} ChangedNowhere(entries: seq<Entry>, id: BabysitterId, client: Option<ClientId>)
    requires forall j :: 0 <= j < |entries| ==> entries[j].babysitter != id
    ensures Changed(entries, id, client) == entries
  {
    if entries != [] {
      ChangedNowhere(entries[1..], id, client);
      assert entries == [entries[0]] + entries[1..];
    }
  }

  // ---------------------------------------------------------------- the pool

  class Pool {
    var entries: seq<Entry>
    var fast: seq<ClientId>
    var nextIndex: nat

    /** Until close the published list is exactly the present clients. */
    ghost predicate Valid()
      reads this
    {
      fast == PresentClients(entries) && nextIndex < USIZE_LIMIT
    }

    constructor (babysitters: seq<BabysitterId>)
      ensures Valid() && |entries| == |babysitters| && nextIndex == 0
      ensures forall i :: 0 <= i < |entries| ==> entries[i] == Entry(babysitters[i], None)
    {
      entries := seq(|babysitters|, i requires 0 <= i < |babysitters| => Entry(babysitters[i], None));
      fast, nextIndex := [], 0;
      new;
      NobodyPresent(entries);
    }

    /** One turn of the state-change loop: find the babysitter, store its client, rebuild and publish the list. */
    method OnStateChange(id: BabysitterId, client: Option<ClientId>)
      requires Valid()
      modifies this`entries, this`fast
      ensures Valid()
      ensures entries == Changed(old(entries), id, client)
    {
      var i := Find(id);
      if i < |entries| {
        ChangedAt(entries, id, client, i);
        entries := entries[i := Entry(id, client)];
      } else {
        ChangedNowhere(entries, id, client);
      }
      fast := Collect();
    }

    method Find(id: BabysitterId) returns (i: nat)
      ensures i <= |entries|
      ensures i < |entries| ==> entries[i].babysitter == id
      ensures forall j :: 0 <= j < i ==> entries[j].babysitter != id
    {
      i := 0;
      while i < |entries| && entries[i].babysitter != id
        invariant i <= |entries|
        invariant forall j :: 0 <= j < i ==> entries[j].babysitter != id
      {
        i := i + 1;
      }
    }

    method Collect() returns (clients: seq<ClientId>)
      ensures clients == PresentClients(entries)
    {
      clients := [];
      for k := 0 to |entries|
        invariant clients == PresentClients(entries[..k])
      {
        assert entries[..k + 1][..k] == entries[..k];
        if entries[k].client.Some? {
          clients := clients + [entries[k].client.value];
        }
      }
      assert entries[..|entries|] == entries;
    }

    /** The fast path of get_client; None sends the caller to the slow path. */
    method GetClient() returns (r: Option<ClientId>)
      requires Valid()
      modifies this`nextIndex
      ensures Valid()
      ensures fast == [] ==> r == None && nextIndex == old(nextIndex)
      ensures fast != [] ==>
                r == Some(fast[Pick(old(nextIndex), |fast|)]) && nextIndex == (old(nextIndex) + 1) % USIZE_LIMIT
    {
      if fast == [] {
        return None;
      }
      PickBeforeWrap(nextIndex, |fast|);
      r := Some(fast[nextIndex % |fast|]);
      nextIndex := (nextIndex + 1) % USIZE_LIMIT;
    }
  }

  lemma {:induction false} NobodyPresent(entries: seq<Entry>)
    requires forall i :: 0 <= i < |entries| ==> entries[i].client.None?
    ensures PresentClients(entries) == []
  {
    if entries != [] {
      NobodyPresent(entries[..|entries| - 1]);
    }
  }

  predicate HasClient(entries: seq<Entry>, i: nat, client: ClientId) {
    i < |entries| && entries[i].client == Some(client)
  }

  /** A client is published exactly when some babysitter has it. */
  lemma {:induction false} PublishedIffPresent(entries: seq<Entry>, client: ClientId)
    ensures client in PresentClients(entries) <==> exists i: nat :: HasClient(entries, i, client)
  {
    if entries != [] {
      var n := |entries| - 1;
      PublishedIffPresent(entries[..n], client);
      if client in PresentClients(entries[..n]) {
        var i: nat :| HasClient(entries[..n], i, client);
        assert HasClient(entries, i, client);
      } else {
        forall i: nat | i < n
          ensures !HasClient(entries, i, client)
        {
          assert !HasClient(entries[..n], i, client);
        }
        assert entries[n].client == Some(client) ==> HasClient(entries, n, client);
      }
    }
  }

  /** The list is in the order of the babysitters: the clients of the first ones, then those of the others. */
  lemma {:induction false} PresentInOrder(a: seq<Entry>, b: seq<Entry>)
    ensures PresentClients(a + b) == PresentClients(a) + PresentClients(b)
  {
    if b == [] {
      assert a + b == a;
    } else {
      var n := |b| - 1;
      PresentInOrder(a, b[..n]);
      assert (a + b)[..|a + b| - 1] == a + b[..n];
    }
  }

  lemma PresentOne(entry: Entry)
    ensures PresentClients([entry]) == if entry.client.Some? then [entry.client.value] else []
  {
    assert [entry][..0] == [];
  }

  // ---------------------------------------------------------------- fairness

  /** The position that a counter value picks from a list of n, the counter wrapping around. */
  function Pick(x: nat, n: nat): nat
    requires n > 0
  {
    x % USIZE_LIMIT % n
  }

  lemma PickBeforeWrap(x: nat, n: nat)
    requires n > 0 && x < USIZE_LIMIT
    ensures Pick(x, n) == x % n
  {
    DivModOf(x, 0, x, USIZE_LIMIT);
  }

  /** How many of m consecutive picks from counter value c hit position j of a list of n. */
  function Hits(c: nat, m: nat, n: nat, j: nat): nat
    requires n > 0
  {
    if m == 0 then 0 else Hits(c, m - 1, n, j) + if Pick(c + m - 1, n) == j then 1 else 0
  }

  /** The numbers below y that are j modulo n: one for every full round, and one if the last round got past j. */
  function Below(y: nat, n: nat, j: nat): nat
    requires n > 0
  {
    y / n + if y % n > j then 1 else 0
  }

  lemma BelowStep(y: nat, n: nat, j: nat)
    requires j < n
    ensures Below(y + 1, n, j) == Below(y, n, j) + if y % n == j then 1 else 0
  {
    if n == 1 {
    } else {
      DivModOf(1, 0, 1, n);
      DivModOfSum(y, 1, n);
    }
  }

  /** A list length that divides the counter's range does not notice the wrap-around. */
  lemma WrapInvisible(x: nat, n: nat, limit: nat)
    requires n > 0 && limit > 0 && limit % n == 0
    ensures x % limit % n == x % n
  {
    var a, b := x / limit, x % limit;
    assert x == a * limit + b;
    MultipleMod(a, limit, n);
    DivModOfSum(a * limit, b, n);
  }

  predicate Undisturbed(c: nat, m: nat, n: nat)
    requires n > 0
  {
    c + m <= USIZE_LIMIT || USIZE_LIMIT % n == 0
  }

  lemma UndisturbedPick(c: nat, m: nat, n: nat)
    requires n > 0 && m > 0 && Undisturbed(c, m, n)
    ensures Pick(c + m - 1, n) == (c + m - 1) % n
  {
    if c + m <= USIZE_LIMIT {
      PickBeforeWrap(c + m - 1, n);
    } else {
      WrapInvisible(c + m - 1, n, USIZE_LIMIT);
    }
  }

  lemma {:induction false} HitsCounted(c: nat, m: nat, n: nat, j: nat)
    requires j < n && Undisturbed(c, m, n)
    ensures Hits(c, m, n, j) == Below(c + m, n, j) - Below(c, n, j)
  {
    if m > 0 {
      HitsCounted(c, m - 1, n, j);
      UndisturbedPick(c, m, n);
      BelowStep(c + m - 1, n, j);
    }
  }

  /** Of m consecutive picks from counter value c, position j of a list of n gets m/n, rounded down or up. */
  predicate Fair(c: nat, m: nat, n: nat, j: nat)
    requires n > 0
  {
    m / n <= Hits(c, m, n, j) <= m / n + (if m % n == 0 then 0 else 1)
  }

  ghost predicate AlwaysFair(n: nat)
    requires n > 0
  {
    forall c: nat, m: nat, j: nat :: j < n ==> Fair(c, m, n, j)
  }

  /**
   Fairness: m consecutive picks from an unchanged list of n clients hit each of them m/n times, rounded
   down or up, as long as the counter does not wrap, or always if n divides its range. Concurrent callers
   draw distinct consecutive counter values, so this is about every interleaving of them.
   */
  lemma PicksAreFair(c: nat, m: nat, n: nat, j: nat)
    requires j < n && Undisturbed(c, m, n)
    ensures Fair(c, m, n, j)
  {
    HitsCounted(c, m, n, j);
    DivModOfSum(c, m, n);
  }

  predicate Misses(c: nat, i: nat, n: nat, j: nat)
    requires n > 0
  {
    Pick(c + i, n) != j
  }

  /** Picks that all miss a position give it no hits. */
  lemma {:induction false} NoHits(c: nat, m: nat, n: nat, j: nat)
    requires n > 0 && forall i: nat :: i < m ==> Misses(c, i, n, j)
    ensures Hits(c, m, n, j) == 0
  {
    if m > 0 {
      NoHits(c, m - 1, n, j);
      assert Misses(c, m - 1, n, j);
    }
  }

  /** If n does not divide the range, the last value of the counter does not pick the last position. */
  lemma LastValueMissesLastPosition(n: nat, limit: nat)
    requires 0 < n <= limit && limit % n != 0
    ensures (limit - 1) % n != n - 1
  {
    DivModOf(1, 0, 1, n);
    DivModOfSum(limit - 1, 1, n);
  }

  /** Just behind the wrap-around the picks start again at the first position. */
  lemma PickAfterWrap(i: nat, n: nat)
    requires 0 < i < n <= USIZE_LIMIT
    ensures Pick(USIZE_LIMIT - 1 + i, n) == i - 1
  {
    DivModOf(USIZE_LIMIT - 1 + i, 1, i - 1, USIZE_LIMIT);
    DivModOf(i - 1, 0, i - 1, n);
  }

  /** A full turn of n picks that starts at the last value of the counter skips the last position. */
  lemma WrapSkips(n: nat)
    requires 0 < n <= USIZE_LIMIT && USIZE_LIMIT % n != 0
    ensures Hits(USIZE_LIMIT - 1, n, n, n - 1) == 0
  {
    var c: nat, last: nat := USIZE_LIMIT - 1, n - 1;
    forall i: nat | i < n
      ensures Misses(c, i, n, last)
    {
      if i == 0 {
        PickBeforeWrap(c, n);
        LastValueMissesLastPosition(n, USIZE_LIMIT);
      } else {
        PickAfterWrap(i, n);
      }
    }
    NoHits(c, n, n, last);
  }

  /** Three picks from three clients can skip one of them. */
  lemma WrapCanSkip()
    ensures Hits(USIZE_LIMIT - 1, 3, 3, 2) == 0
  {
    WrapSkips(3);
  }

  /** The exact condition: picking is fair from every counter value exactly when the list length divides its range. */
  lemma FairIffLengthDividesRange(n: nat)
    requires 0 < n <= USIZE_LIMIT
    ensures AlwaysFair(n) <==> USIZE_LIMIT % n == 0
  {
    if USIZE_LIMIT % n == 0 {
      forall c: nat, m: nat, j: nat | j < n
        ensures Fair(c, m, n, j)
      {
        PicksAreFair(c, m, n, j);
      }
    } else {
      WrapSkips(n);
      DivModOf(n, 1, 0, n);
      assert !Fair(USIZE_LIMIT - 1, n, n, n - 1);
    }
  }
}
