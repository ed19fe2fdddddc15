/**
 The vbucket map and the router (sdk/couchbase-core/src/vbucketmap.rs and vbucketrouter.rs).  A key
 is hashed to a vbucket, the map gives the index of the server that holds a copy of it, and the server
 list gives the endpoint.  The CRC-32 of a key is an uninterpreted 32-bit function.
 */
module Routing {
  import opened Wrappers
  import opened Common
  import opened Arithmetic

  type Byte = b: int | 0 <= b < 0x100
  type Checksum = c: int | 0 <= c < 0x1_0000_0000
  type Hash = seq<Byte> -> Checksum

  /** `entries` are the rows of 16-bit server indices; -1 means no server. */
  datatype VbucketMap = VbucketMap(entries: seq<seq<int>>, numReplicas: nat)

  datatype RoutingInfo = RoutingInfo(vbucketInfo: Option<VbucketMap>, serverList: seq<Endpoint>, bucketSelected: bool)

  datatype RoutingError =
    | NoBucket
    | NoVbucketMap
    | InvalidReplica(requested: nat, numServers: nat)
    | InvalidVbucket(vb: nat, numVbuckets: nat)
    | NoServerAssigned(vb: nat)
    | Panic  // remainder by zero

  /** The number of entries is cast to 16 bits before it is used as a divisor. */
  function Divisor(m: VbucketMap): nat {
    |m.entries| % 0x1_0000
  }

  function VbucketByKey(m: VbucketMap, hash: Hash, key: seq<Byte>): Result<nat, RoutingError> {
    if Divisor(m) == 0 then Err(Panic) else Ok(hash(key) / 0x1_0000 % 0x8000 % Divisor(m))
  }

  /** The replica count is cast to 32 bits and one is added with wrap-around. */
  function NumServers(m: VbucketMap): nat {
    (m.numReplicas + 1) % 0x1_0000_0000
  }

  function NodeByVbucket(m: VbucketMap, vb: nat, serverIndex: nat): Result<int, RoutingError> {
    if serverIndex > NumServers(m) then Err(InvalidReplica(serverIndex, NumServers(m)))
    else if vb >= |m.entries| then Err(InvalidVbucket(vb, |m.entries|))
    else if serverIndex < |m.entries[vb]| then Ok(m.entries[vb][serverIndex])
    else Ok(-1)
  }

  function DispatchByKey(info: RoutingInfo, hash: Hash, key: seq<Byte>, serverIndex: nat)
    : Result<(Endpoint, nat), RoutingError>
  {
    if !info.bucketSelected then Err(NoBucket)
    else
      match info.vbucketInfo
      case None => Err(NoVbucketMap)
      case Some(m) =>
        match VbucketByKey(m, hash, key)
        case Err(e) => Err(e)
        case Ok(vb) =>
          match NodeByVbucket(m, vb, serverIndex)
          case Err(e) => Err(e)
          case Ok(j) =>
            if 0 <= j < |info.serverList| then Ok((info.serverList[j], vb)) else Err(NoServerAssigned(vb))
  }

  // ---------------------------------------------------------------- the bits of the checksum

  /** A checksum taken apart: its top bit, the fifteen bits below it, and its lower half. */
  ghost predicate Bits(checksum: Checksum, top: nat, mid: nat, low: nat) {
    && top < 2 && mid < 0x8000 && low < 0x1_0000
    && checksum == top * 0x8000_0000 + mid * 0x1_0000 + low
  }

  lemma BitsExist(checksum: Checksum) returns (top: nat, mid: nat, low: nat)
    ensures Bits(checksum, top, mid, low)
  {
    var upper := checksum / 0x1_0000;
    top, mid, low := upper / 0x8000, upper % 0x8000, checksum % 0x1_0000;
  }

  /** The vbucket of a key is the fifteen middle bits of its checksum modulo the number of rows, cast to 16 bits. */
  lemma VbucketOfBits(m: VbucketMap, hash: Hash, key: seq<Byte>, top: nat, mid: nat, low: nat)
    requires Bits(hash(key), top, mid, low) && |m.entries| % 0x1_0000 != 0
    ensures VbucketByKey(m, hash, key) == Ok(mid % (|m.entries| % 0x1_0000))
    ensures |m.entries| < 0x1_0000 ==> VbucketByKey(m, hash, key) == Ok(mid % |m.entries|)
  {
    DivModOf(hash(key), top * 0x8000 + mid, low, 0x1_0000);
    DivModOf(top * 0x8000 + mid, top, mid, 0x8000);
  }

  /** The vbucket of a key is always a row of the map, whatever the number of rows, unless the cast makes it zero. */
  lemma VbucketInRange(m: VbucketMap, hash: Hash, key: seq<Byte>)
    ensures VbucketByKey(m, hash, key) == Err(Panic) <==> |m.entries| % 0x1_0000 == 0
    ensures VbucketByKey(m, hash, key).Ok? ==> VbucketByKey(m, hash, key).value < |m.entries|
  {
    if |m.entries| % 0x1_0000 != 0 {
      var top, mid, low := BitsExist(hash(key));
      VbucketOfBits(m, hash, key, top, mid, low);
      assert mid % (|m.entries| % 0x1_0000) < |m.entries| % 0x1_0000 <= |m.entries|;
    }
  }

  /** Does the checksum choose row `vb` of the map? */
  ghost predicate Chooses(m: VbucketMap, checksum: Checksum, vb: nat) {
    && |m.entries| % 0x1_0000 != 0 && vb < |m.entries|
    && exists top: nat, mid: nat, low: nat :: Bits(checksum, top, mid, low) && IsRowOf(mid, |m.entries|, vb)
  }

  predicate IsRowOf(mid: nat, rows: nat, vb: nat)
    requires rows % 0x1_0000 != 0
  {
    vb == mid % (rows % 0x1_0000)
  }

  lemma ChosenRow(m: VbucketMap, hash: Hash, key: seq<Byte>, vb: nat)
    ensures Chooses(m, hash(key), vb) <==> VbucketByKey(m, hash, key) == Ok(vb)
  {
    VbucketInRange(m, hash, key);
    if Chooses(m, hash(key), vb) {
      ChosenIsComputed(m, hash, key, vb);
    } else if VbucketByKey(m, hash, key) == Ok(vb) {
      ComputedIsChosen(m, hash, key, vb);
    }
  }

  lemma ChosenIsComputed(m: VbucketMap, hash: Hash, key: seq<Byte>, vb: nat)
    requires Chooses(m, hash(key), vb)
    ensures VbucketByKey(m, hash, key) == Ok(vb)
  {
    var top: nat, mid: nat, low: nat :| Bits(hash(key), top, mid, low) && IsRowOf(mid, |m.entries|, vb);
    VbucketOfBits(m, hash, key, top, mid, low);
  }

  lemma ComputedIsChosen(m: VbucketMap, hash: Hash, key: seq<Byte>, vb: nat)
    requires VbucketByKey(m, hash, key) == Ok(vb)
    ensures Chooses(m, hash(key), vb)
  {
    VbucketInRange(m, hash, key);
    var top, mid, low := BitsExist(hash(key));
    VbucketOfBits(m, hash, key, top, mid, low);
    assert IsRowOf(mid, |m.entries|, vb);
  }

  // ---------------------------------------------------------------- dispatch

  /** Does the map name server `j` for this key and copy? */
  ghost predicate Names(m: VbucketMap, hash: Hash, key: seq<Byte>, serverIndex: nat, vb: nat, j: int) {
    && Chooses(m, hash(key), vb)
    && serverIndex < |m.entries[vb]| && serverIndex <= (m.numReplicas + 1) % 0x1_0000_0000
    && m.entries[vb][serverIndex] == j
  }

  /** Dispatch answers exactly when the map names a server that the server list has, and InvalidVbucket never arises. */
  lemma DispatchExactly(info: RoutingInfo, hash: Hash, key: seq<Byte>, serverIndex: nat, e: Endpoint, vb: nat)
    ensures DispatchByKey(info, hash, key, serverIndex) == Ok((e, vb)) <==>
            (info.bucketSelected && info.vbucketInfo.Some?
             && exists j :: Names(info.vbucketInfo.value, hash, key, serverIndex, vb, j)
                            && 0 <= j < |info.serverList| && info.serverList[j] == e)
    ensures var r := DispatchByKey(info, hash, key, serverIndex); r.Err? ==> !r.error.InvalidVbucket?
  {
    if info.vbucketInfo.Some? {
      var m := info.vbucketInfo.value;
      VbucketInRange(m, hash, key);
      ChosenRow(m, hash, key, vb);
      if DispatchByKey(info, hash, key, serverIndex) == Ok((e, vb)) {
        assert Names(m, hash, key, serverIndex, vb, m.entries[vb][serverIndex]);
      }
    }
  }

  /** Which error arises when; in all other cases the answer is an endpoint or that no server is assigned. */
  lemma ErrorsExactly(info: RoutingInfo, hash: Hash, key: seq<Byte>, serverIndex: nat)
    ensures var r := DispatchByKey(info, hash, key, serverIndex);
            && (r == Err(NoBucket) <==> !info.bucketSelected)
            && (r == Err(NoVbucketMap) <==> info.bucketSelected && info.vbucketInfo.None?)
            && (info.bucketSelected && info.vbucketInfo.Some? ==>
                  var m := info.vbucketInfo.value;
                  var servers := (m.numReplicas + 1) % 0x1_0000_0000;
                  && (r == Err(Panic) <==> |m.entries| % 0x1_0000 == 0)
                  && (|m.entries| % 0x1_0000 != 0 ==>
                        && (r == Err(InvalidReplica(serverIndex, servers)) <==> serverIndex > servers)
                        && (serverIndex <= servers ==>
                              r.Ok? || exists vb :: r == Err(NoServerAssigned(vb)) && Chooses(m, hash(key), vb))))
  {
    if info.vbucketInfo.Some? {
      var m := info.vbucketInfo.value;
      VbucketInRange(m, hash, key);
      if VbucketByKey(m, hash, key).Ok? {
        ChosenRow(m, hash, key, VbucketByKey(m, hash, key).value);
      }
    }
  }

  /** A row without an entry for the copy says that no server is assigned, like an entry of -1. */
  lemma NoServerIff(m: VbucketMap, vb: nat, serverIndex: nat)
    requires vb < |m.entries| && forall i :: 0 <= i < |m.entries[vb]| ==> m.entries[vb][i] >= -1
    ensures NodeByVbucket(m, vb, serverIndex) == Ok(-1) <==>
            && serverIndex <= (m.numReplicas + 1) % 0x1_0000_0000
            && (serverIndex < |m.entries[vb]| ==> m.entries[vb][serverIndex] < 0)
    ensures NodeByVbucket(m, vb, serverIndex).Ok? ==> NodeByVbucket(m, vb, serverIndex).value >= -1
  {}

  /** The map refuses first an index beyond the number of servers and then a vbucket that it has no row for. */
  lemma RefusedIff(m: VbucketMap, vb: nat, serverIndex: nat)
    ensures var r := NodeByVbucket(m, vb, serverIndex);
            var servers := (m.numReplicas + 1) % 0x1_0000_0000;
            && (r.Err? <==> serverIndex > servers || vb >= |m.entries|)
            && (r == Err(InvalidReplica(serverIndex, servers)) <==> serverIndex > servers)
            && (r == Err(InvalidVbucket(vb, |m.entries|)) <==> serverIndex <= servers && vb >= |m.entries|)
  {}

  /** An index equal to the number of servers passes the test: a row that is too long is then dispatched to. */
  lemma OneIndexTooManyPasses(hash: Hash, key: seq<Byte>, server: Endpoint)
    ensures var m := VbucketMap([[-1, 0]], 0);
            NumServers(m) == 1 && DispatchByKey(RoutingInfo(Some(m), [server], true), hash, key, 1) == Ok((server, 0))
  {
    var m := VbucketMap([[-1, 0]], 0);
    VbucketInRange(m, hash, key);
    assert Divisor(m) == 1;
  }
}
