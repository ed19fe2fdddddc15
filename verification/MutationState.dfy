/**
 MutationState (sdk/couchbase/src/mutation_state.rs): for every bucket and vbucket the newest mutation
 token seen, with a JSON form that groups by bucket and prints the vbucket and its uuid in decimal.
 */
module MutationState {
  import opened Wrappers
  import opened Common
  import opened Decimal

  datatype Token = Token(vbid: nat, vbuuid: nat, seqno: nat)

  datatype MutationToken = MutationToken(token: Token, bucket: string)

  datatype Key = Key(bucket: string, vbid: nat)

  type State = map<Key, Token>

  function KeyOf(t: MutationToken): Key {
    Key(t.bucket, t.token.vbid)
  }

  // ---------------------------------------------------------------- pushing tokens

  /** push_token: a token replaces an older one of the same vbucket. */
  function Push(s: State, t: MutationToken): State {
    var key := KeyOf(t);
    if key in s && s[key].seqno >= t.token.seqno then s else s[key := t.token]
  }

  function PushAll(s: State, ts: seq<MutationToken>): State {
    if ts == [] then s else Push(PushAll(s, ts[..|ts| - 1]), ts[|ts| - 1])
  }

  function FromTokens(ts: seq<MutationToken>): State {
    PushAll(map[], ts)
  }

  method FromVec(ts: seq<MutationToken>) returns (s: State)
    ensures s == FromTokens(ts)
  {
    s := map[];
    for i := 0 to |ts|
      invariant s == FromTokens(ts[..i])
    {
      s := Push(s, ts[i]);
      assert ts[..i + 1][..i] == ts[..i];
    }
    assert ts[..|ts|] == ts;
  }

  lemma {:induction false} PushAllConcat(s: State, a: seq<MutationToken>, b: seq<MutationToken>)
    ensures PushAll(s, a + b) == PushAll(PushAll(s, a), b)
  {
    if b == [] {
      assert a + b == a;
    } else {
      assert (a + b)[..|a + b| - 1] == a + b[..|b| - 1];
      PushAllConcat(s, a, b[..|b| - 1]);
    }
  }

  /** Is position i the first token of the key with the greatest sequence number? */
  ghost predicate FirstGreatest(ts: seq<MutationToken>, key: Key, i: nat) {
    && i < |ts| && KeyOf(ts[i]) == key
    && (forall j :: 0 <= j < i && KeyOf(ts[j]) == key ==> ts[j].token.seqno < ts[i].token.seqno)
    && (forall j :: i <= j < |ts| && KeyOf(ts[j]) == key ==> ts[j].token.seqno <= ts[i].token.seqno)
  }

  lemma {:induction false} KeysAreThoseSeen(ts: seq<MutationToken>, key: Key)
    ensures key in FromTokens(ts) <==> exists i :: 0 <= i < |ts| && KeyOf(ts[i]) == key
  {
    if ts != [] {
      var n := |ts| - 1;
      KeysAreThoseSeen(ts[..n], key);
      if key in FromTokens(ts[..n]) {
        var i :| 0 <= i < n && KeyOf(ts[..n][i]) == key;
        assert KeyOf(ts[i]) == key;
      } else {
        assert forall i :: 0 <= i < n ==> KeyOf(ts[..n][i]) != key;
      }
    }
  }

  /** One more token moves the first greatest position only if it is strictly newer. */
  lemma FirstGreatestSnoc(ts: seq<MutationToken>, key: Key, i: nat)
    requires ts != [] && FirstGreatest(ts[..|ts| - 1], key, i)
    ensures var n := |ts| - 1;
            FirstGreatest(ts, key, if KeyOf(ts[n]) == key && ts[n].token.seqno > ts[i].token.seqno then n else i)
  {
    var n := |ts| - 1;
    assert forall j :: 0 <= j < n ==> ts[..n][j] == ts[j];
  }

  /** The state holds, for each bucket and vbucket seen, the first token with the greatest sequence number. */
  lemma {:induction false} PerKeyMaximum(ts: seq<MutationToken>, key: Key) returns (i: nat)
    requires key in FromTokens(ts)
    ensures FirstGreatest(ts, key, i) && FromTokens(ts)[key] == ts[i].token
  {
    var n := |ts| - 1;
    if key in FromTokens(ts[..n]) {
      i := PerKeyMaximum(ts[..n], key);
      FirstGreatestSnoc(ts, key, i);
      if KeyOf(ts[n]) == key && ts[n].token.seqno > ts[i].token.seqno {
        i := n;
      }
    } else {
      i := n;
      KeysAreThoseSeen(ts[..n], key);
      assert forall j :: 0 <= j < n ==> KeyOf(ts[..n][j]) != key && ts[..n][j] == ts[j];
    }
  }

  /** Sequence numbers do not depend on the order of the tokens. */
  lemma OrderDoesNotMatter(ts: seq<MutationToken>, us: seq<MutationToken>, key: Key)
    requires forall t :: t in ts <==> t in us
    ensures key in FromTokens(ts) <==> key in FromTokens(us)
    ensures key in FromTokens(ts) ==> FromTokens(ts)[key].seqno == FromTokens(us)[key].seqno
  {
    SeqnoAtMost(ts, us, key);
    SeqnoAtMost(us, ts, key);
  }

  lemma SeqnoAtMost(ts: seq<MutationToken>, us: seq<MutationToken>, key: Key)
    requires forall t :: t in ts ==> t in us
    ensures key in FromTokens(ts) ==> key in FromTokens(us) && FromTokens(ts)[key].seqno <= FromTokens(us)[key].seqno
  {
    if key in FromTokens(ts) {
      var i := PerKeyMaximum(ts, key);
      assert ts[i] in us;
      KeysAreThoseSeen(us, key);
      var k := PerKeyMaximum(us, key);
    }
  }

  // ---------------------------------------------------------------- listing tokens

  /** Key and token agree on the vbucket. */
  predicate KeysAgree(s: State) {
    forall k :: k in s ==> s[k].vbid == k.vbid
  }

  /** They agree, and the numbers fit their types. */
  predicate WellFormed(s: State) {
    KeysAgree(s) && forall k :: k in s ==> k.vbid <= U16_MAX && s[k].vbuuid <= U64_MAX
  }

  predicate InRange(ts: seq<MutationToken>) {
    forall i :: 0 <= i < |ts| ==> ts[i].token.vbid <= U16_MAX && ts[i].token.vbuuid <= U64_MAX
  }

  lemma {:induction false} BuiltStatesAreWellFormed(ts: seq<MutationToken>)
    requires InRange(ts)
    ensures WellFormed(FromTokens(ts))
  {
    if ts != [] {
      BuiltStatesAreWellFormed(ts[..|ts| - 1]);
    }
  }

  /** `ts` lists the entries of the state with the given keys, each once, in some order. */
  ghost predicate ListsKeys(ts: seq<MutationToken>, s: State, keys: set<Key>) {
    && (forall i :: 0 <= i < |ts| ==> KeyOf(ts[i]) in keys && KeyOf(ts[i]) in s && s[KeyOf(ts[i])] == ts[i].token)
    && (forall i, j :: 0 <= i < j < |ts| ==> KeyOf(ts[i]) != KeyOf(ts[j]))
    && (forall k :: k in keys ==> exists i :: 0 <= i < |ts| && KeyOf(ts[i]) == k)
  }

  ghost predicate Lists(ts: seq<MutationToken>, s: State) {
    ListsKeys(ts, s, s.Keys)
  }

  method Tokens(s: State) returns (ts: seq<MutationToken>)
    requires KeysAgree(s)
    ensures Lists(ts, s)
  {
    ts := [];
    var todo := s.Keys;
    while todo != {}
      invariant todo <= s.Keys && ListsKeys(ts, s, s.Keys - todo)
    {
      var k :| k in todo;
      ListOneMore(ts, s, s.Keys - todo, k);
      todo := todo - {k};
      ts := ts + [MutationToken(s[k], k.bucket)];
      assert s.Keys - todo == s.Keys - (todo + {k}) + {k};
    }
    assert s.Keys - todo == s.Keys;
  }

  lemma ListOneMore(ts: seq<MutationToken>, s: State, keys: set<Key>, k: Key)
    requires KeysAgree(s) && ListsKeys(ts, s, keys) && k in s && k !in keys
    ensures ListsKeys(ts + [MutationToken(s[k], k.bucket)], s, keys + {k})
  {
    var longer := ts + [MutationToken(s[k], k.bucket)];
    assert KeyOf(longer[|ts|]) == k;
    forall q | q in keys
      ensures exists i :: 0 <= i < |longer| && KeyOf(longer[i]) == q
    {
      var i :| 0 <= i < |ts| && KeyOf(ts[i]) == q;
      assert KeyOf(longer[i]) == q;
    }
  }

  /** Pushing any listing of a state gives the state back. */
  lemma ListingRefolds(ts: seq<MutationToken>, s: State)
    requires Lists(ts, s)
    ensures FromTokens(ts) == s
  {
    forall k
      ensures k in FromTokens(ts) <==> k in s
      ensures k in s ==> FromTokens(ts)[k] == s[k]
    {
      KeysAreThoseSeen(ts, k);
      if k in FromTokens(ts) {
        var i := PerKeyMaximum(ts, k);
      }
    }
  }

  /** Folding a concatenation is re-folding the tokens of the first part, in any order, with the second. */
  lemma FoldInStages(a: seq<MutationToken>, b: seq<MutationToken>, listing: seq<MutationToken>)
    requires Lists(listing, FromTokens(a))
    ensures FromTokens(a + b) == FromTokens(listing + b)
  {
    ListingRefolds(listing, FromTokens(a));
    PushAllConcat(map[], a, b);
    PushAllConcat(map[], listing, b);
  }

  // ---------------------------------------------------------------- JSON

  type Vbuckets = map<string, (nat, string)>  // printed vbucket -> sequence number, printed uuid

  type Json = map<string, Vbuckets>

  predicate HasEntry(doc: Json, bucket: string, vb: string, seqno: nat, uuid: string) {
    bucket in doc && vb in doc[bucket] && doc[bucket][vb] == (seqno, uuid)
  }

  predicate InDoc(doc: Json, bucket: string, vb: string) {
    bucket in doc && vb in doc[bucket]
  }

  /** The document holds the printed form of the entries with the given keys and nothing else. */
  ghost predicate EncodesKeys(doc: Json, s: State, keys: set<Key>) {
    && (forall k :: k in keys ==> k in s && HasEntry(doc, k.bucket, Print(k.vbid), s[k].seqno, Print(s[k].vbuuid)))
    && (forall b, v {:trigger InDoc(doc, b, v)} :: InDoc(doc, b, v) ==> exists n :: Key(b, n) in keys && Print(n) == v)
  }

  ghost predicate Encodes(doc: Json, s: State) {
    EncodesKeys(doc, s, s.Keys)
  }

  function WithEntry(doc: Json, k: Key, t: Token): Json {
    var bucket: Vbuckets := if k.bucket in doc then doc[k.bucket] else map[];
    doc[k.bucket := bucket[Print(k.vbid) := (t.seqno, Print(t.vbuuid))]]
  }

  /** Serialize: regroup by bucket, in any order. */
  method Serialize(s: State) returns (doc: Json)
    ensures Encodes(doc, s)
  {
    doc := map[];
    var todo := s.Keys;
    while todo != {}
      invariant todo <= s.Keys && EncodesKeys(doc, s, s.Keys - todo)
    {
      var k :| k in todo;
      EncodeOneMore(doc, s, s.Keys - todo, k);
      todo := todo - {k};
      doc := WithEntry(doc, k, s[k]);
      assert s.Keys - todo == s.Keys - (todo + {k}) + {k};
    }
    assert s.Keys - todo == s.Keys;
  }

  lemma EncodeOneMore(doc: Json, s: State, keys: set<Key>, k: Key)
    requires EncodesKeys(doc, s, keys) && k !in keys && k in s
    ensures EncodesKeys(WithEntry(doc, k, s[k]), s, keys + {k})
  {
    var doc' := WithEntry(doc, k, s[k]);
    forall q | q in keys
      ensures HasEntry(doc', q.bucket, Print(q.vbid), s[q].seqno, Print(s[q].vbuuid))
    {
      assert HasEntry(doc, q.bucket, Print(q.vbid), s[q].seqno, Print(s[q].vbuuid));
      if q.bucket == k.bucket && Print(q.vbid) == Print(k.vbid) {
        PrintInjective(q.vbid, k.vbid);
      }
    }
    forall b, v | InDoc(doc', b, v)
      ensures exists n :: Key(b, n) in keys + {k} && Print(n) == v
    {
      if b == k.bucket && v == Print(k.vbid) {
        assert Key(b, k.vbid) in keys + {k};
      } else {
        assert InDoc(doc, b, v);
      }
    }
  }

  datatype ParseError = BadNumber

  predicate Parses(vb: string, uuid: string) {
    Parse(vb, U16_MAX).Some? && Parse(uuid, U64_MAX).Some?
  }

  function ParsedKey(bucket: string, vb: string): Key
    requires Parse(vb, U16_MAX).Some?
  {
    Key(bucket, Parse(vb, U16_MAX).value)
  }

  function ParsedToken(vb: string, entry: (nat, string)): Token
    requires Parses(vb, entry.1)
  {
    Token(Parse(vb, U16_MAX).value, Parse(entry.1, U64_MAX).value, entry.0)
  }

  ghost predicate DecodedFrom(doc: Json, s: State, k: Key, v: string)
    requires k in s
  {
    k.bucket in doc && v in doc[k.bucket] && Parses(v, doc[k.bucket][v].1)
    && ParsedKey(k.bucket, v) == k && s[k] == ParsedToken(v, doc[k.bucket][v])
  }

  predicate Holds(s: State, k: Key) {
    k in s
  }

  /** Every token was parsed from one of the given entries, and each of these left a token under its key. */
  ghost predicate DecodesEntries(doc: Json, s: State, entries: set<(string, string)>) {
    && (forall k {:trigger Holds(s, k)} :: Holds(s, k) ==>
          exists v :: (k.bucket, v) in entries && DecodedFrom(doc, s, k, v))
    && (forall b, v :: (b, v) in entries ==> b in doc && v in doc[b] && Parses(v, doc[b][v].1) && ParsedKey(b, v) in s)
  }

  ghost function Entries(doc: Json): set<(string, string)> {
    set b, v | b in doc && v in doc[b] :: (b, v)
  }

  ghost predicate Decodes(doc: Json, s: State) {
    DecodesEntries(doc, s, Entries(doc))
  }

  ghost predicate AllParse(doc: Json) {
    forall b, v :: b in doc && v in doc[b] ==> Parses(v, doc[b][v].1)
  }

  /** Deserialize: any entry that does not parse makes the whole document invalid. */
  method Deserialize(doc: Json) returns (r: Result<State, ParseError>)
    ensures r.Ok? <==> AllParse(doc)
    ensures r.Ok? ==> Decodes(doc, r.value)
  {
    var s: State := map[];
    var buckets := doc.Keys;
    ghost var entries: set<(string, string)> := {};
    while buckets != {}
      invariant buckets <= doc.Keys
      invariant forall b, v :: (b, v) in entries <==> b in doc && v in doc[b] && b !in buckets
      invariant DecodesEntries(doc, s, entries)
    {
      var b :| b in buckets;
      buckets := buckets - {b};
      var ok;
      ok, s, entries := DeserializeBucket(doc, b, s, entries);
      if !ok {
        return Err(BadNumber);
      }
    }
    assert entries == Entries(doc) by {
      assert forall p :: p in entries ==> p == (p.0, p.1);
      assert forall p :: p in Entries(doc) ==> p == (p.0, p.1);
    }
    r := Ok(s);
  }

  /** What is read from a document, however it came about, has agreeing keys. */
  lemma DecodedKeysAgree(doc: Json, s: State)
    requires Decodes(doc, s)
    ensures KeysAgree(s)
  {
    forall k | k in s
      ensures s[k].vbid == k.vbid
    {
      assert Holds(s, k);
    }
  }

  method DeserializeBucket(doc: Json, b: string, s0: State, ghost entries0: set<(string, string)>)
    returns (ok: bool, s: State, ghost entries: set<(string, string)>)
    requires b in doc && DecodesEntries(doc, s0, entries0)
    requires forall v :: (b, v) !in entries0
    ensures ok ==> DecodesEntries(doc, s, entries)
    ensures ok ==> forall c, v :: (c, v) in entries <==> (c, v) in entries0 || (c == b && v in doc[b])
    ensures !ok ==> !AllParse(doc)
  {
    s, entries := s0, entries0;
    var vbs := doc[b].Keys;
    while vbs != {}
      invariant vbs <= doc[b].Keys
      invariant forall c, v :: (c, v) in entries <==> (c, v) in entries0 || (c == b && v in doc[b] && v !in vbs)
      invariant DecodesEntries(doc, s, entries)
    {
      var v :| v in vbs;
      vbs := vbs - {v};
      if !Parses(v, doc[b][v].1) {
        return false, s, entries;
      }
      DecodeOneMore(doc, s, entries, b, v);
      s := s[ParsedKey(b, v) := ParsedToken(v, doc[b][v])];
      entries := entries + {(b, v)};
    }
    ok := true;
  }

  lemma DecodeOneMore(doc: Json, s: State, entries: set<(string, string)>, b: string, v: string)
    requires DecodesEntries(doc, s, entries) && b in doc && v in doc[b] && Parses(v, doc[b][v].1)
    ensures DecodesEntries(doc, s[ParsedKey(b, v) := ParsedToken(v, doc[b][v])], entries + {(b, v)})
  {
    var s', entries' := s[ParsedKey(b, v) := ParsedToken(v, doc[b][v])], entries + {(b, v)};
    forall k | Holds(s', k)
      ensures exists w :: (k.bucket, w) in entries' && DecodedFrom(doc, s', k, w)
    {
      if k == ParsedKey(b, v) {
        assert (k.bucket, v) in entries' && DecodedFrom(doc, s', k, v);
      } else {
        assert Holds(s, k);
        var w :| (k.bucket, w) in entries && DecodedFrom(doc, s, k, w);
        assert (k.bucket, w) in entries' && DecodedFrom(doc, s', k, w);
      }
    }
  }

  /** Round trip: whatever order either side works in, parsing the printed form of a state gives the state. */
  lemma DecodeOfEncode(doc: Json, s: State, s': State)
    requires WellFormed(s) && Encodes(doc, s) && Decodes(doc, s')
    ensures s' == s
  {
    AllKeysDecoded(doc, s, s');
    AllEntriesDecoded(doc, s, s');
    SameEntries(s, s');
  }

  lemma SameEntries(s: State, s': State)
    requires s.Keys <= s'.Keys && forall k :: k in s' ==> k in s && s'[k] == s[k]
    ensures s' == s
  {
  }

  lemma AllKeysDecoded(doc: Json, s: State, s': State)
    requires WellFormed(s) && Encodes(doc, s) && Decodes(doc, s')
    ensures s.Keys <= s'.Keys
  {
    forall k | k in s.Keys
      ensures k in s'.Keys
    {
      EncodedKeyDecoded(doc, s, s', k);
    }
  }

  lemma AllEntriesDecoded(doc: Json, s: State, s': State)
    requires WellFormed(s) && Encodes(doc, s) && Decodes(doc, s')
    ensures forall k :: k in s' ==> k in s && s'[k] == s[k]
  {
    forall k | k in s'
      ensures k in s && s'[k] == s[k]
    {
      DecodedEntry(doc, s, s', k);
    }
  }

  lemma EncodedKeyDecoded(doc: Json, s: State, s': State, k: Key)
    requires WellFormed(s) && Encodes(doc, s) && Decodes(doc, s') && k in s
    ensures k in s'
  {
    assert HasEntry(doc, k.bucket, Print(k.vbid), s[k].seqno, Print(s[k].vbuuid));
    assert (k.bucket, Print(k.vbid)) in Entries(doc);
    ParsePrint(k.vbid, U16_MAX);
  }

  lemma DecodedEntry(doc: Json, s: State, s': State, k: Key)
    requires WellFormed(s) && Encodes(doc, s) && Decodes(doc, s') && k in s'
    ensures k in s && s'[k] == s[k]
  {
    assert Holds(s', k);
    var v :| (k.bucket, v) in Entries(doc) && DecodedFrom(doc, s', k, v);
    assert InDoc(doc, k.bucket, v);
    var n :| Key(k.bucket, n) in s && Print(n) == v;
    ParsePrint(n, U16_MAX);
    assert Key(k.bucket, n) == k;
    assert HasEntry(doc, k.bucket, Print(k.vbid), s[k].seqno, Print(s[k].vbuuid));
    ParsePrint(s[k].vbuuid, U64_MAX);
  }

  lemma EncodedParses(doc: Json, s: State)
    requires WellFormed(s) && Encodes(doc, s)
    ensures AllParse(doc)
  {
    forall b, v | b in doc && v in doc[b]
      ensures Parses(v, doc[b][v].1)
    {
      assert InDoc(doc, b, v);
      var n :| Key(b, n) in s && Print(n) == v;
      assert HasEntry(doc, b, Print(n), s[Key(b, n)].seqno, Print(s[Key(b, n)].vbuuid));
      ParsePrint(n, U16_MAX);
      ParsePrint(s[Key(b, n)].vbuuid, U64_MAX);
    }
  }

  // ---------------------------------------------------------------- any document

  /** A document is accepted exactly if every vbucket is spelled as a 16-bit number and every uuid as a 64-bit one. */
  lemma AcceptedIff(doc: Json)
    ensures AllParse(doc) <==> forall b, v :: b in doc && v in doc[b] ==> SpelledRight(v, doc[b][v].1)
  {
    forall b, v | b in doc && v in doc[b]
      ensures Parses(v, doc[b][v].1) <==> SpelledRight(v, doc[b][v].1)
    {
      ParsesIff(v, doc[b][v].1);
    }
  }

  ghost predicate SpelledRight(vb: string, uuid: string) {
    && (exists n: nat :: n <= 0xFFFF && IsDecimal(vb, n))
    && (exists n: nat :: n <= 0xFFFF_FFFF_FFFF_FFFF && IsDecimal(uuid, n))
  }

  lemma ParsesIff(vb: string, uuid: string)
    ensures Parses(vb, uuid) <==> SpelledRight(vb, uuid)
  {
    SomeIffSpelled(vb, U16_MAX);
    SomeIffSpelled(uuid, U64_MAX);
  }

  lemma SomeIffSpelled(s: string, max: nat)
    ensures Parse(s, max).Some? <==> exists n: nat :: n <= max && IsDecimal(s, n)
  {
    if Parse(s, max).Some? {
      ParseExactly(s, max, Parse(s, max).value);
    } else if exists n: nat :: n <= max && IsDecimal(s, n) {
      var n: nat :| n <= max && IsDecimal(s, n);
      ParseExactly(s, max, n);
    }
  }

  /** Every token read from a document is spelled by one of its entries, field by field. */
  lemma DecodedIsSpelled(doc: Json, s: State, k: Key) returns (v: string)
    requires Decodes(doc, s) && k in s
    ensures k.bucket in doc && v in doc[k.bucket] && IsDecimal(v, k.vbid) && s[k].vbid == k.vbid
    ensures s[k].seqno == doc[k.bucket][v].0 && IsDecimal(doc[k.bucket][v].1, s[k].vbuuid)
  {
    assert Holds(s, k);
    v :| (k.bucket, v) in Entries(doc) && DecodedFrom(doc, s, k, v);
    ParseExactly(v, U16_MAX, k.vbid);
    ParseExactly(doc[k.bucket][v].1, U64_MAX, s[k].vbuuid);
  }

  /** Serializing and deserializing any state built from tokens gives it back. */
  method RoundTrip(ts: seq<MutationToken>) returns (r: Result<State, ParseError>)
    requires InRange(ts)
    ensures r == Ok(FromTokens(ts))
  {
    var s := FromVec(ts);
    BuiltStatesAreWellFormed(ts);
    var doc := Serialize(s);
    EncodedParses(doc, s);
    r := Deserialize(doc);
    DecodeOfEncode(doc, s, r.value);
  }
}
