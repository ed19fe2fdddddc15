/**
 Connection strings (sdk/couchbase-connstr/src/lib.rs): the two regular expressions of `parse`, written out
 as scanners with the preference order of the matcher, the option list, and the printed form of a spec.
 Percent- and plus-decoding of option text is a parameter.
 */
module ConnStr {
  import opened Wrappers
  import opened Common
  import opened Decimal

  datatype Address = Address(host: string, port: Option<nat>)

  datatype ConnSpec = ConnSpec(scheme: Option<string>, hosts: seq<Address>, options: map<string, seq<string>>)

  datatype Error = BadPort(text: string)

  type Pair = (string, string)

  // ---------------------------------------------------------------- scanning

  /** A greedy character class: the length of the longest prefix made of such characters. */
  function Span(s: string, chars: char -> bool): (n: nat)
    ensures n <= |s|
    ensures forall i :: 0 <= i < n ==> chars(s[i])
    ensures n < |s| ==> !chars(s[n])
  {
    if s == "" || !chars(s[0]) then 0 else 1 + Span(s[1..], chars)
  }

  /** Every prefix of such characters that cannot be extended is the one that Span finds. */
  lemma SpanIs(s: string, chars: char -> bool, n: nat)
    requires n <= |s| && forall i :: 0 <= i < n ==> chars(s[i])
    requires n < |s| ==> !chars(s[n])
    ensures Span(s, chars) == n
  {
    var m := Span(s, chars);
    assert m < |s| ==> !chars(s[m]);
  }

  lemma StopsAt(s: string, chars: char -> bool, n: nat)
    requires n <= |s| && (n < |s| ==> !chars(s[n]))
    ensures Span(s, chars) <= n
  {
  }

  predicate UserChar(c: char) { c != '/' && c != '?' && c != ':' }
  predicate PasswordChar(c: char) { c != '/' && c != '?' && c != ':' && c != '@' }
  predicate HostsChar(c: char) { c != '/' && c != '?' }
  predicate PathChar(c: char) { c != '?' }
  predicate LineChar(c: char) { c != '\n' }
  predicate InBracket(c: char) { c != ']' }
  predicate ClosingBracket(c: char) { c == ']' }
  predicate NameChar(c: char) { c != ';' && c != ',' && c != ':' }
  predicate PairChar(c: char) { c != '&' }
  predicate KeyChar(c: char) { c != '=' }

  predicate SeparatorAt(s: string, i: nat) {
    i + 3 <= |s| && s[i] == ':' && s[i + 1] == '/' && s[i + 2] == '/'
  }

  predicate OneLine(s: string) {
    forall i :: 0 <= i < |s| ==> LineChar(s[i])
  }

  /** `((.*)://)?`: the last separator below n that has no line break before it. */
  function LastSeparator(s: string, n: nat): (r: Option<nat>)
    requires n <= |s|
    ensures r.Some? ==> r.value < n && SeparatorAt(s, r.value) && OneLine(s[..r.value])
    ensures forall i :: (if r.Some? then r.value + 1 else 0) <= i < n && SeparatorAt(s, i) ==> !OneLine(s[..i])
  {
    if n == 0 then None
    else if SeparatorAt(s, n - 1) && OneLine(s[..n - 1]) then Some(n - 1)
    else LastSeparator(s, n - 1)
  }

  /** The position just behind the last '@', or 0. */
  function AfterLastAt(s: string): (n: nat)
    ensures n <= |s| && (n > 0 ==> s[n - 1] == '@')
    ensures forall i :: n <= i < |s| ==> s[i] != '@'
  {
    if s == "" then 0 else if s[|s| - 1] == '@' then |s| else AfterLastAt(s[..|s| - 1])
  }

  /** `(([^/?:]*)(:([^/?:@]*))?@)?`: how much of the text is user information. */
  function UserInfo(s: string): (n: nat)
    ensures n <= |s|
  {
    var a := Span(s, UserChar);
    if a < |s| && s[a] == ':' then
      var b := a + 1 + Span(s[a + 1..], PasswordChar);
      if b < |s| && s[b] == '@' then b + 1 else AfterLastAt(s[..a])
    else AfterLastAt(s[..a])
  }

  /** A user, optionally a colon and a password, and an at sign. */
  ghost predicate IsUserInfo(s: string) {
    |s| > 0 && s[|s| - 1] == '@' &&
    exists a :: 0 <= a < |s| && IsUserAndPassword(s, a)
  }

  ghost predicate IsUserAndPassword(s: string, a: nat)
    requires a < |s|
  {
    (forall i :: 0 <= i < a ==> s[i] != '/' && s[i] != '?' && s[i] != ':') &&
    (a < |s| - 1 ==> s[a] == ':') &&
    (forall i :: a < i < |s| - 1 ==> s[i] != '/' && s[i] != '?' && s[i] != ':' && s[i] != '@')
  }

  /** What is skipped is user information, and no longer prefix is. */
  lemma UserInfoIsLongest(s: string)
    ensures UserInfo(s) > 0 ==> IsUserInfo(s[..UserInfo(s)])
    ensures forall n :: UserInfo(s) < n <= |s| ==> !IsUserInfo(s[..n])
  {
    UserInfoMatches(s);
    forall n | UserInfo(s) < n <= |s|
      ensures !IsUserInfo(s[..n])
    {
      if IsUserInfo(s[..n]) {
        var a :| 0 <= a < n && IsUserAndPassword(s[..n], a);
        NoLongerUserInfo(s, n, a);
      }
    }
  }

  lemma UserInfoMatches(s: string)
    ensures UserInfo(s) > 0 ==> IsUserInfo(s[..UserInfo(s)])
  {
    var n := UserInfo(s);
    if n > 0 {
      var a := Span(s, UserChar);
      if n <= a {
        assert IsUserAndPassword(s[..n], n - 1);
      } else {
        forall i | a < i < n - 1
          ensures PasswordChar(s[i])
        {
          assert s[i] == s[a + 1..][i - a - 1];
        }
        assert IsUserAndPassword(s[..n], a);
      }
    }
  }

  lemma UserRun(s: string, n: nat)
    requires n <= |s| && forall i :: 0 <= i < n ==> UserChar(s[i])
    ensures Span(s, UserChar) >= n
  {
  }

  lemma NoLongerUserInfo(s: string, n: nat, a: nat)
    requires a < n <= |s| && s[n - 1] == '@' && IsUserAndPassword(s[..n], a)
    ensures n <= UserInfo(s)
  {
    var t := s[..n];
    assert forall i :: 0 <= i < n ==> t[i] == s[i];
    if a < n - 1 {
      WithPassword(s, n, a);
    } else {
      UserRun(s, n);
      assert s[..Span(s, UserChar)][n - 1] == '@';
    }
  }

  lemma WithPassword(s: string, n: nat, a: nat)
    requires a + 1 < n <= |s| && s[n - 1] == '@' && s[a] == ':'
    requires (forall i :: 0 <= i < a ==> UserChar(s[i])) && (forall i :: a < i < n - 1 ==> PasswordChar(s[i]))
    ensures UserInfo(s) == n
  {
    SpanIs(s, UserChar, a);
    var u := s[a + 1..];
    assert u[n - a - 2] == '@' && forall i :: 0 <= i < n - a - 2 ==> u[i] == s[a + 1 + i];
    SpanIs(u, PasswordChar, n - a - 2);
  }

  // ---------------------------------------------------------------- hosts

  /** `(\[[^]]+]+)|([^;,:]+)`: the length of the host at the start of the text, 0 if there is none. */
  function HostLength(s: string): (n: nat)
    ensures n <= |s|
  {
    if s == "" then 0
    else
      var a := 1 + Span(s[1..], InBracket);
      if s[0] == '[' && a > 1 && a < |s| then a + Span(s[a..], ClosingBracket) else Span(s, NameChar)
  }

  /** An opening bracket, something that is not a closing one up to k, and all the closing ones up to n. */
  predicate IsBracketed(s: string, k: nat, n: nat) {
    2 <= k < n <= |s| && s[0] == '[' &&
    (forall i :: 1 <= i < k ==> s[i] != ']') &&
    (forall i :: k <= i < n ==> s[i] == ']') &&
    (n < |s| ==> s[n] != ']')
  }

  predicate IsName(s: string, n: nat) {
    n <= |s| && (forall i :: 0 <= i < n ==> NameChar(s[i])) && (n < |s| ==> !NameChar(s[n]))
  }

  /** A host is a bracketed literal if the text starts with one, and otherwise the longest run up to a delimiter. */
  lemma HostExactly(s: string, n: nat)
    ensures HostLength(s) == n <==>
      if exists k, m :: IsBracketed(s, k, m) then exists k :: IsBracketed(s, k, n) else IsName(s, n)
  {
    if exists k, m :: IsBracketed(s, k, m) {
      var k, m :| IsBracketed(s, k, m);
      BracketedLength(s, k, m);
      if exists k' :: IsBracketed(s, k', n) {
        var k' :| IsBracketed(s, k', n);
        BracketedLength(s, k', n);
      }
    } else {
      NotBracketed(s);
      if IsName(s, n) {
        SpanIs(s, NameChar, n);
      }
    }
  }

  lemma BracketedLength(s: string, k: nat, n: nat)
    requires IsBracketed(s, k, n)
    ensures HostLength(s) == n
  {
    assert s[1..][k - 1] == ']' && forall i :: 0 <= i < k - 1 ==> s[1..][i] == s[i + 1];
    SpanIs(s[1..], InBracket, k - 1);
    assert forall i :: 0 <= i < |s| - k ==> s[k..][i] == s[i + k];
    SpanIs(s[k..], ClosingBracket, n - k);
  }

  lemma NotBracketed(s: string)
    requires forall k, n :: !IsBracketed(s, k, n)
    ensures HostLength(s) == Span(s, NameChar)
  {
    if s != "" {
      var k := 1 + Span(s[1..], InBracket);
      if s[0] == '[' && k > 1 && k < |s| {
        assert forall i :: 1 <= i < k ==> s[i] == s[1..][i - 1];
        assert s[k] == s[1..][k - 1];
        var n := k + Span(s[k..], ClosingBracket);
        assert forall i :: k <= i < |s| ==> s[i] == s[k..][i - k];
        assert IsBracketed(s, k, n);
      }
    }
  }

  /** `(:([0-9]*))?`: the length of the port part, colon included. */
  function PortLength(s: string): (n: nat)
    ensures n <= |s|
    ensures n > 0 ==> AllDigits(s[1..n])
  {
    if s != "" && s[0] == ':' then 1 + Span(s[1..], IsDigit) else 0
  }

  /** `(;,)?` */
  function GapLength(s: string): (n: nat)
    ensures n <= |s|
  {
    if |s| >= 2 && s[0] == ';' && s[1] == ',' then 2 else 0
  }

  function PortOf(s: string): Result<Option<nat>, Error> {
    var n := PortLength(s);
    if n == 0 then Ok(None)
    else
      match Parse(s[1..n], U16_MAX)
      case Some(p) => Ok(Some(p))
      case None => Err(BadPort(s[1..n]))
  }

  function Prepend(front: seq<Address>, r: Result<seq<Address>, Error>): Result<seq<Address>, Error> {
    match r
    case Ok(back) => Ok(front + back)
    case Err(_) => r
  }

  /** What the host expression does at the start of a text: nothing, or a match and what follows it. */
  datatype Scan = NoHost | Found(address: Address, rest: string) | Refused(error: Error)

  function ScanHost(s: string): (r: Scan)
    ensures r.Found? ==> |r.rest| < |s|
  {
    var n := HostLength(s);
    if n == 0 then NoHost
    else
      var t := s[n..];
      match PortOf(t)
      case Err(e) => Refused(e)
      case Ok(port) =>
        var u := t[PortLength(t)..];
        Found(Address(s[..n], port), u[GapLength(u)..])
  }

  /** All matches of the host expression, one after the other; text that matches nowhere is passed over. */
  function Hosts(s: string): Result<seq<Address>, Error>
    decreases |s|
  {
    if s == "" then Ok([])
    else
      match ScanHost(s)
      case NoHost => Hosts(s[1..])
      case Refused(e) => Err(e)
      case Found(address, rest) => Prepend([address], Hosts(rest))
  }

  /** The loop of `parse` over the host matches. */
  method ParseHosts(text: string) returns (r: Result<seq<Address>, Error>)
    ensures r == Hosts(text)
  {
    var rest := text;
    var addresses: seq<Address> := [];
    PrependNothing(Hosts(text));
    while rest != ""
      invariant Hosts(text) == Prepend(addresses, Hosts(rest))
      decreases |rest|
    {
      match ScanHost(rest)
      case NoHost =>
        rest := rest[1..];
      case Refused(e) =>
        return Err(e);
      case Found(address, behind) =>
        PrependTwice(addresses, [address], Hosts(behind));
        addresses := addresses + [address];
        rest := behind;
    }
    assert addresses + [] == addresses;
    return Ok(addresses);
  }

  lemma PrependNothing(r: Result<seq<Address>, Error>)
    ensures Prepend([], r) == r
  {
    if r.Ok? {
      assert [] + r.value == r.value;
    }
  }

  lemma PrependTwice(a: seq<Address>, b: seq<Address>, r: Result<seq<Address>, Error>)
    ensures Prepend(a, Prepend(b, r)) == Prepend(a + b, r)
  {
    if r.Ok? {
      assert a + (b + r.value) == a + b + r.value;
    }
  }

  // ---------------------------------------------------------------- options

  function Cut(piece: string, decode: string -> string): Pair {
    var n := Span(piece, KeyChar);
    (decode(piece[..n]), decode(if n < |piece| then piece[n + 1..] else ""))
  }

  /** The key-value pairs of a query: pieces between ampersands, empty ones left out, cut at the first equals sign. */
  function Pairs(q: string, decode: string -> string): seq<Pair>
    decreases |q|
  {
    if q == "" then []
    else
      var n := Span(q, PairChar);
      (if n == 0 then [] else [Cut(q[..n], decode)]) + if n < |q| then Pairs(q[n + 1..], decode) else []
  }

  /** The values given for a key, in order. */
  function ValuesOf(pairs: seq<Pair>, key: string): seq<string> {
    if pairs == [] then []
    else
      var n := |pairs| - 1;
      ValuesOf(pairs[..n], key) + if pairs[n].0 == key then [pairs[n].1] else []
  }

  /** The fold of `parse` over the pairs. */
  method CollectOptions(pairs: seq<Pair>) returns (options: map<string, seq<string>>)
    ensures forall k :: k in options <==> ValuesOf(pairs, k) != []
    ensures forall k :: k in options ==> options[k] == ValuesOf(pairs, k)
  {
    options := map[];
    for i := 0 to |pairs|
      invariant forall k :: k in options <==> ValuesOf(pairs[..i], k) != []
      invariant forall k :: k in options ==> options[k] == ValuesOf(pairs[..i], k)
    {
      var (k, v) := pairs[i];
      assert pairs[..i + 1][..i] == pairs[..i];
      options := options[k := (if k in options then options[k] else []) + [v]];
    }
    assert pairs[..|pairs|] == pairs;
  }

  /** The same map as a value. */
  function Collected(pairs: seq<Pair>): map<string, seq<string>> {
    map k | k in (set p | p in pairs :: p.0) :: ValuesOf(pairs, k)
  }

  lemma {:induction false} ValuesOfKnownKey(pairs: seq<Pair>, key: string)
    ensures ValuesOf(pairs, key) != [] <==> exists p :: p in pairs && p.0 == key
  {
    if pairs != [] {
      var n := |pairs| - 1;
      ValuesOfKnownKey(pairs[..n], key);
      assert pairs == pairs[..n] + [pairs[n]];
    }
  }

  // ---------------------------------------------------------------- parsing

  datatype Parts = Parts(scheme: Option<string>, hosts: string, query: string)

  /** The captures of the outer expression that `parse` uses. */
  function Split(s: string): Parts {
    var sep := LastSeparator(s, |s|);
    match sep
    case Some(i) => Authority(s[i + 3..]).(scheme := Some(s[..i]))
    case None => Authority(s)
  }

  /** `(/([^?]*))?` */
  function SkipPath(s: string): string {
    if s != "" && s[0] == '/' then s[1 + Span(s[1..], PathChar)..] else s
  }

  /** `(\?(.*))?` */
  function QueryPart(s: string): string {
    if s != "" && s[0] == '?' then s[1..1 + Span(s[1..], LineChar)] else ""
  }

  function Authority(s: string): Parts {
    var t := s[UserInfo(s)..];
    var n := Span(t, HostsChar);
    Parts(None, t[..n], QueryPart(SkipPath(t[n..])))
  }

  function ParseSpec(s: string, decode: string -> string): Result<ConnSpec, Error> {
    var parts := Split(s);
    match Hosts(parts.hosts)
    case Err(e) => Err(e)
    case Ok(hosts) => Ok(ConnSpec(parts.scheme, hosts, Collected(Pairs(parts.query, decode))))
  }

  method ParseConnStr(s: string, decode: string -> string) returns (r: Result<ConnSpec, Error>)
    ensures r == ParseSpec(s, decode)
  {
    var parts := Split(s);
    var hosts := ParseHosts(parts.hosts);
    if hosts.Err? {
      return Err(hosts.error);
    }
    var pairs := Pairs(parts.query, decode);
    var options := CollectOptions(pairs);
    forall k
      ensures k in options <==> k in Collected(pairs)
    {
      ValuesOfKnownKey(pairs, k);
    }
    assert options == Collected(pairs);
    return Ok(ConnSpec(parts.scheme, hosts.value, options));
  }

  // ---------------------------------------------------------------- printing

  function PrintAddress(a: Address): string {
    a.host + PortText(a.port)
  }

  function PortText(port: Option<nat>): string {
    if port.Some? then ":" + Print(port.value) else ""
  }

  function Join(pieces: seq<string>, sep: string): string {
    if pieces == [] then ""
    else if |pieces| == 1 then pieces[0]
    else pieces[0] + sep + Join(pieces[1..], sep)
  }

  function Texts(hosts: seq<Address>): seq<string> {
    seq(|hosts|, i requires 0 <= i < |hosts| => PrintAddress(hosts[i]))
  }

  function PrintHosts(hosts: seq<Address>): string {
    Join(Texts(hosts), ",")
  }

  function PairTexts(key: string, values: seq<string>): seq<string> {
    seq(|values|, i requires 0 <= i < |values| => key + "=" + values[i])
  }

  function PrintValues(key: string, values: seq<string>): string {
    Join(PairTexts(key, values), "&")
  }

  /** The fold of Display over the option map, in whatever order the map yields its keys. */
  function PrintOptions(order: seq<string>, options: map<string, seq<string>>): string
    requires forall k :: k in order ==> k in options
  {
    if order == [] then ""
    else
      var n := |order| - 1;
      var acc := PrintOptions(order[..n], options);
      var values := PrintValues(order[n], options[order[n]]);
      if acc == "" then values else acc + "&" + values
  }

  ghost predicate Enumerates(order: seq<string>, options: map<string, seq<string>>) {
    Distinct(order) && forall k :: k in order <==> k in options
  }

  /** The parts put together; no question mark if no option text came out. */
  function Text(scheme: Option<string>, hosts: string, query: string): string {
    (if scheme.Some? then scheme.value + "://" else "") + hosts + if query != "" then "?" + query else ""
  }

  function PrintSpec(spec: ConnSpec, order: seq<string>): string
    requires Enumerates(order, spec.options)
  {
    Text(spec.scheme, PrintHosts(spec.hosts), PrintOptions(order, spec.options))
  }

  // ---------------------------------------------------------------- which specs survive

  predicate Name(h: string) {
    h != "" && h[0] != '[' && forall i :: 0 <= i < |h| ==> NameChar(h[i])
  }

  /** A bracketed literal, as section 3.2.2 of RFC 3986 has it. */
  predicate Literal(h: string) {
    |h| >= 3 && h[0] == '[' && h[|h| - 1] == ']' && forall i :: 1 <= i < |h| - 1 ==> InBracket(h[i])
  }

  predicate GoodAddress(a: Address) {
    (Name(a.host) || Literal(a.host)) &&
    (forall i :: 0 <= i < |a.host| ==> AuthorityChar(a.host[i])) &&
    (a.port.Some? ==> a.port.value <= U16_MAX)
  }

  predicate GoodHosts(hosts: seq<Address>) {
    forall i :: 0 <= i < |hosts| ==> GoodAddress(hosts[i])
  }

  predicate AuthorityChar(c: char) { c != '/' && c != '?' && c != '@' }

  /** No scheme separator and no line break anywhere. */
  predicate Plain(s: string) {
    OneLine(s) && forall i :: 0 <= i < |s| ==> !SeparatorAt(s, i)
  }

  predicate GoodText(s: string) {
    Plain(s) && forall i :: 0 <= i < |s| ==> s[i] != '&' && s[i] != '+' && s[i] != '%'
  }

  predicate GoodKey(s: string) {
    GoodText(s) && forall i :: 0 <= i < |s| ==> KeyChar(s[i])
  }

  predicate GoodOptions(options: map<string, seq<string>>) {
    forall k :: k in options ==> GoodKey(k) && GoodValues(options[k])
  }

  predicate GoodValues(values: seq<string>) {
    forall i :: 0 <= i < |values| ==> GoodText(values[i])
  }

  /** Decoding changes only text with an escape in it. */
  ghost predicate Decoder(decode: string -> string) {
    forall s :: GoodText(s) ==> decode(s) == s
  }

  predicate GoodSpec(spec: ConnSpec) {
    (spec.scheme.Some? ==> OneLine(spec.scheme.value)) &&
    GoodHosts(spec.hosts) &&
    GoodOptions(spec.options)
  }

  // ---------------------------------------------------------------- hosts, back and forth

  lemma NameLength(h: string, rest: string)
    requires Name(h) && (rest != "" ==> !NameChar(rest[0]))
    ensures HostLength(h + rest) == |h|
  {
    SpanIs(h + rest, NameChar, |h|);
  }

  lemma LiteralLength(h: string, rest: string)
    requires Literal(h) && (rest != "" ==> rest[0] != ']')
    ensures HostLength(h + rest) == |h|
  {
    var s := h + rest;
    var n := |h| - 1;
    assert forall i :: 0 <= i < n - 1 ==> s[1..][i] == h[i + 1];
    assert s[1..][n - 1] == ']';
    SpanIs(s[1..], InBracket, n - 1);
    assert s[n..][0] == ']' && s[n..][1..] == rest;
    SpanIs(s[n..], ClosingBracket, 1);
  }

  /** The end of the text, a comma or a semicolon. */
  predicate AtDelimiter(s: string) {
    s != "" ==> s[0] == ',' || s[0] == ';'
  }

  lemma PortBack(port: Option<nat>, rest: string)
    requires port.Some? ==> port.value <= U16_MAX
    requires AtDelimiter(rest)
    ensures var s := PortText(port) + rest; PortOf(s) == Ok(port) && s[PortLength(s)..] == rest
  {
    if port.Some? {
      var digits := Print(port.value);
      var s := ":" + digits + rest;
      assert s[1..] == digits + rest;
      SpanIs(s[1..], IsDigit, |digits|);
      assert s[1..1 + |digits|] == digits;
      ParsePrint(port.value, U16_MAX);
    }
  }

  lemma HostLengthBack(h: string, rest: string)
    requires Name(h) || Literal(h)
    requires rest != "" ==> rest[0] == ':' || rest[0] == ',' || rest[0] == ';'
    ensures HostLength(h + rest) == |h|
  {
    if Name(h) {
      NameLength(h, rest);
    } else {
      LiteralLength(h, rest);
    }
  }

  /** A printed address in front of the end or a delimiter is read back, and nothing but delimiters is used up. */
  lemma AddressBack(a: Address, rest: string)
    requires GoodAddress(a) && AtDelimiter(rest)
    ensures ScanHost(PrintAddress(a) + rest) == Found(a, rest[GapLength(rest)..])
  {
    Regroup(a.host, PortText(a.port), rest);
    HostAndPortBack(a.host, a.port, rest);
  }

  lemma HostAndPortBack(h: string, port: Option<nat>, rest: string)
    requires (Name(h) || Literal(h)) && (port.Some? ==> port.value <= U16_MAX) && AtDelimiter(rest)
    ensures ScanHost(h + (PortText(port) + rest)) == Found(Address(h, port), rest[GapLength(rest)..])
  {
    HostLengthBack(h, PortText(port) + rest);
    PortBack(port, rest);
    ScanParts(h, PortText(port) + rest, port, rest);
  }

  lemma Regroup(x: string, y: string, z: string)
    ensures x + y + z == x + (y + z)
  {
  }

  lemma ScanParts(h: string, t: string, port: Option<nat>, rest: string)
    requires h != "" && HostLength(h + t) == |h|
    requires PortOf(t) == Ok(port) && t[PortLength(t)..] == rest
    ensures ScanHost(h + t) == Found(Address(h, port), rest[GapLength(rest)..])
  {
    var s := h + t;
    assert s[|h|..] == t && s[..|h|] == h;
  }

  lemma OneMoreHost(a: Address, rest: string)
    requires GoodAddress(a) && AtDelimiter(rest)
    ensures Hosts(PrintAddress(a) + rest) == Prepend([a], Hosts(rest))
  {
    AddressBack(a, rest);
    assert PrintAddress(a) != "";
    GapSkipped(rest);
  }

  /** A delimiter where a host could begin is passed over. */
  lemma DelimiterSkipped(c: char, rest: string)
    requires !NameChar(c)
    ensures Hosts([c] + rest) == Hosts(rest)
  {
    var s := [c] + rest;
    assert HostLength(s) == 0;
    assert s[1..] == rest;
  }

  lemma CommaSkipped(rest: string)
    ensures Hosts("," + rest) == Hosts(rest)
  {
    DelimiterSkipped(',', rest);
  }

  /** What the expression takes along behind a host is delimiters only. */
  lemma GapSkipped(s: string)
    ensures Hosts(s[GapLength(s)..]) == Hosts(s)
  {
    if GapLength(s) == 2 {
      assert s == [';'] + s[1..] && s[1..] == [','] + s[2..];
      DelimiterSkipped(';', s[1..]);
      DelimiterSkipped(',', s[2..]);
    }
  }

  /** Any run of commas, semicolons and colons in front of the next host is passed over. */
  lemma {:induction false} DelimitersSkipped(delimiters: string, rest: string)
    requires AllDelimiters(delimiters)
    ensures Hosts(delimiters + rest) == Hosts(rest)
  {
    if delimiters == "" {
      assert delimiters + rest == rest;
    } else {
      var more := delimiters[1..];
      FirstDelimiter(delimiters, rest);
      DelimitersSkipped(more, rest);
      DelimiterSkipped(delimiters[0], more + rest);
    }
  }

  predicate AllDelimiters(s: string) {
    forall i :: 0 <= i < |s| ==> !NameChar(s[i])
  }

  lemma FirstDelimiter(delimiters: string, rest: string)
    requires AllDelimiters(delimiters) && delimiters != ""
    ensures AllDelimiters(delimiters[1..]) && !NameChar(delimiters[0])
    ensures delimiters + rest == [delimiters[0]] + (delimiters[1..] + rest)
  {}

  /** Hosts may be separated by any mix of commas and semicolons. */
  lemma AnySeparators(a: Address, separators: string, rest: string)
    requires GoodAddress(a) && separators != ""
    requires forall i :: 0 <= i < |separators| ==> separators[i] == ',' || separators[i] == ';'
    ensures Hosts(PrintAddress(a) + (separators + rest)) == Prepend([a], Hosts(rest))
  {
    OneMoreHost(a, separators + rest);
    DelimitersSkipped(separators, rest);
  }

  /** The port text is all digits behind the colon: without digits or above 65535 it is refused. */
  lemma PortOfDigits(digits: string, rest: string)
    requires AllDigits(digits) && (rest != "" ==> !IsDigit(rest[0]))
    ensures PortOf(":" + digits + rest) ==
            if digits == "" || Value(digits) > 65535 then Err(BadPort(digits)) else Ok(Some(Value(digits)))
  {
    var s := ":" + digits + rest;
    assert s[1..] == digits + rest;
    SpanIs(s[1..], IsDigit, |digits|);
    assert s[1..1 + |digits|] == digits;
    assert digits != "" ==> IsDigit(digits[0]);
  }

  /** A bad port makes the whole string an error. */
  lemma BadPortRefused(h: string, digits: string, rest: string)
    requires (Name(h) || Literal(h)) && AllDigits(digits) && (rest != "" ==> !IsDigit(rest[0]))
    requires digits == "" || Value(digits) > 65535
    ensures Hosts(h + (":" + digits + rest)) == Err(BadPort(digits))
  {
    var t := ":" + digits + rest;
    PortOfDigits(digits, rest);
    HostLengthBack(h, t);
    var s := h + t;
    assert s[|h|..] == t && s != "";
  }

  lemma PrintHostsCons(hosts: seq<Address>)
    requires hosts != []
    ensures PrintHosts(hosts)
      == PrintAddress(hosts[0]) + if |hosts| == 1 then "" else "," + PrintHosts(hosts[1..])
  {
    assert Texts(hosts)[1..] == Texts(hosts[1..]);
  }

  lemma LastHost(a: Address)
    requires GoodAddress(a)
    ensures Hosts(PrintAddress(a)) == Ok([a])
  {
    OneMoreHost(a, "");
    assert PrintAddress(a) + "" == PrintAddress(a);
    assert [a] + [] == [a];
  }

  lemma HostAndMore(a: Address, more: string)
    requires GoodAddress(a)
    ensures Hosts(PrintAddress(a) + ("," + more)) == Prepend([a], Hosts(more))
  {
    OneMoreHost(a, "," + more);
    CommaSkipped(more);
  }

  lemma MoreHosts(hosts: seq<Address>)
    requires hosts != [] && GoodHosts(hosts)
    ensures GoodHosts(hosts[1..]) && Prepend([hosts[0]], Ok(hosts[1..])) == Ok(hosts)
  {
    assert hosts == [hosts[0]] + hosts[1..];
  }

  /** The printed host list is read back in order. */
  lemma {:induction false} HostsBack(hosts: seq<Address>)
    requires GoodHosts(hosts)
    ensures Hosts(PrintHosts(hosts)) == Ok(hosts)
  {
    if |hosts| == 1 {
      LastHost(hosts[0]);
      assert Texts(hosts) == [PrintAddress(hosts[0])] && hosts == [hosts[0]];
    } else if hosts != [] {
      PrintHostsCons(hosts);
      MoreHosts(hosts);
      HostAndMore(hosts[0], PrintHosts(hosts[1..]));
      HostsBack(hosts[1..]);
    }
  }

  // ---------------------------------------------------------------- options, back and forth

  function FirstPair(piece: string, decode: string -> string): seq<Pair> {
    if piece == "" then [] else [Cut(piece, decode)]
  }

  lemma PairsOfOne(piece: string, decode: string -> string)
    requires forall i :: 0 <= i < |piece| ==> PairChar(piece[i])
    ensures Pairs(piece, decode) == FirstPair(piece, decode)
  {
    SpanIs(piece, PairChar, |piece|);
    assert piece[..|piece|] == piece;
  }

  lemma PairsOfMore(piece: string, rest: string, decode: string -> string)
    requires forall i :: 0 <= i < |piece| ==> PairChar(piece[i])
    ensures Pairs(piece + "&" + rest, decode) == FirstPair(piece, decode) + Pairs(rest, decode)
  {
    var s := piece + "&" + rest;
    SpanIs(s, PairChar, |piece|);
    assert s[..|piece|] == piece && s[|piece| + 1..] == rest;
  }

  /** An ampersand separates: what is on its two sides is read independently. */
  lemma {:induction false} PairsConcat(x: string, y: string, decode: string -> string)
    ensures Pairs(x + "&" + y, decode) == Pairs(x, decode) + Pairs(y, decode)
    decreases |x|
  {
    var n := Span(x, PairChar);
    var piece := x[..n];
    if n < |x| {
      var rest := x[n + 1..];
      assert x == piece + "&" + rest;
      assert x + "&" + y == piece + "&" + (rest + "&" + y);
      PairsOfMore(piece, rest + "&" + y, decode);
      PairsOfMore(piece, rest, decode);
      PairsConcat(rest, y, decode);
      Associative(FirstPair(piece, decode), Pairs(rest, decode), Pairs(y, decode));
    } else {
      assert x == piece;
      PairsOfOne(x, decode);
      PairsOfMore(x, y, decode);
    }
  }

  lemma Associative(a: seq<Pair>, b: seq<Pair>, c: seq<Pair>)
    ensures a + (b + c) == a + b + c
  {
  }

  lemma PairBack(key: string, value: string, decode: string -> string)
    requires GoodKey(key) && GoodText(value) && Decoder(decode)
    ensures Pairs(key + "=" + value, decode) == [(key, value)]
  {
    var s := key + "=" + value;
    PairsOfOne(s, decode);
    SpanIs(s, KeyChar, |key|);
    assert s[..|key|] == key && s[|key| + 1..] == value;
  }

  /** A piece with an equals sign is cut at the first one, and both sides are decoded. */
  lemma PairWithValue(key: string, value: string, decode: string -> string)
    requires forall i :: 0 <= i < |key| ==> PairChar(key[i]) && KeyChar(key[i])
    requires forall i :: 0 <= i < |value| ==> PairChar(value[i])
    ensures Pairs(key + "=" + value, decode) == [(decode(key), decode(value))]
  {
    var s := key + "=" + value;
    PairsOfOne(s, decode);
    SpanIs(s, KeyChar, |key|);
    assert s[..|key|] == key && s[|key| + 1..] == value;
  }

  /** A piece without one is a key with an empty value, and an empty piece is nothing. */
  lemma PairWithoutValue(key: string, decode: string -> string)
    requires forall i :: 0 <= i < |key| ==> PairChar(key[i]) && KeyChar(key[i])
    ensures Pairs(key, decode) == if key == "" then [] else [(decode(key), decode(""))]
  {
    PairsOfOne(key, decode);
    SpanIs(key, KeyChar, |key|);
    assert key[..|key|] == key;
  }

  function PairsOf(key: string, values: seq<string>): seq<Pair> {
    seq(|values|, i requires 0 <= i < |values| => (key, values[i]))
  }

  lemma PrintValuesCons(key: string, values: seq<string>)
    requires values != []
    ensures PrintValues(key, values)
      == if |values| == 1 then key + "=" + values[0] else key + "=" + values[0] + "&" + PrintValues(key, values[1..])
  {
    assert PairTexts(key, values)[1..] == PairTexts(key, values[1..]);
  }

  lemma PairsOfCons(key: string, values: seq<string>)
    requires values != []
    ensures PairsOf(key, values) == [(key, values[0])] + PairsOf(key, values[1..])
  {
  }

  lemma {:induction false} ValuesBack(key: string, values: seq<string>, decode: string -> string)
    requires GoodKey(key) && GoodValues(values) && Decoder(decode)
    ensures Pairs(PrintValues(key, values), decode) == PairsOf(key, values)
  {
    if values != [] {
      PairsOfCons(key, values);
      PrintValuesCons(key, values);
      PairBack(key, values[0], decode);
      if |values| > 1 {
        MoreValues(values);
        ValuesBack(key, values[1..], decode);
        PairsConcat(key + "=" + values[0], PrintValues(key, values[1..]), decode);
      }
    }
  }

  lemma MoreValues(values: seq<string>)
    requires GoodValues(values) && values != []
    ensures GoodValues(values[1..])
  {
  }

  function AllPairs(order: seq<string>, options: map<string, seq<string>>): seq<Pair>
    requires forall k :: k in order ==> k in options
  {
    if order == [] then []
    else
      var n := |order| - 1;
      AllPairs(order[..n], options) + PairsOf(order[n], options[order[n]])
  }

  lemma {:induction false} OptionsBack(order: seq<string>, options: map<string, seq<string>>, decode: string -> string)
    requires forall k :: k in order ==> k in options
    requires GoodOptions(options) && Decoder(decode)
    ensures Pairs(PrintOptions(order, options), decode) == AllPairs(order, options)
  {
    if order != [] {
      var n := |order| - 1;
      OptionsBack(order[..n], options, decode);
      ValuesBack(order[n], options[order[n]], decode);
      PairsConcat(PrintOptions(order[..n], options), PrintValues(order[n], options[order[n]]), decode);
    }
  }

  lemma {:induction false} ValuesOfConcat(a: seq<Pair>, b: seq<Pair>, key: string)
    ensures ValuesOf(a + b, key) == ValuesOf(a, key) + ValuesOf(b, key)
  {
    if b == [] {
      assert a + b == a;
    } else {
      var n := |b| - 1;
      ValuesOfConcat(a, b[..n], key);
      assert (a + b)[..|a| + n] == a + b[..n];
    }
  }

  lemma {:induction false} ValuesOfOneKey(key: string, values: seq<string>, other: string)
    ensures ValuesOf(PairsOf(key, values), other) == if key == other then values else []
  {
    if values != [] {
      var n := |values| - 1;
      ValuesOfOneKey(key, values[..n], other);
      assert PairsOf(key, values)[..n] == PairsOf(key, values[..n]);
      assert values == values[..n] + [values[n]];
    }
  }

  predicate Distinct(order: seq<string>) {
    forall i, j :: 0 <= i < j < |order| ==> order[i] != order[j]
  }

  lemma LastIsNew(order: seq<string>)
    requires order != [] && Distinct(order)
    ensures var n := |order| - 1;
      Distinct(order[..n]) && order[n] !in order[..n] && forall k :: k in order <==> k in order[..n] || k == order[n]
  {
    assert order == order[..|order| - 1] + [order[|order| - 1]];
  }

  lemma {:induction false} ValuesOfAll(order: seq<string>, options: map<string, seq<string>>, key: string)
    requires forall k :: k in order ==> k in options
    requires Distinct(order)
    ensures ValuesOf(AllPairs(order, options), key) == if key in order then options[key] else []
  {
    if order != [] {
      var n := |order| - 1;
      LastIsNew(order);
      ValuesOfAll(order[..n], options, key);
      ValuesOfConcat(AllPairs(order[..n], options), PairsOf(order[n], options[order[n]]), key);
      ValuesOfOneKey(order[n], options[order[n]], key);
    }
  }

  /** The options that have a value. */
  function Given(options: map<string, seq<string>>): map<string, seq<string>> {
    map k | k in options && options[k] != [] :: options[k]
  }

  lemma CollectedBack(order: seq<string>, options: map<string, seq<string>>)
    requires Enumerates(order, options)
    ensures Collected(AllPairs(order, options)) == Given(options)
  {
    var pairs := AllPairs(order, options);
    forall k
      ensures k in Collected(pairs) <==> k in Given(options)
      ensures k in Given(options) ==> ValuesOf(pairs, k) == options[k]
    {
      ValuesOfAll(order, options, k);
      ValuesOfKnownKey(pairs, k);
    }
  }

  // ---------------------------------------------------------------- any string

  /** In front of the hosts exactly the user information is skipped, whatever path and query hold. */
  lemma UserInfoIs(user: string, hosts: string, tail: string)
    requires user == "" || IsUserInfo(user)
    requires AuthorityText(hosts) && (tail != "" ==> tail[0] == '/' || tail[0] == '?')
    ensures UserInfo(user + (hosts + tail)) == |user|
  {
    var s := user + (hosts + tail);
    var n := UserInfo(s);
    UserInfoIsLongest(s);
    assert s[..|user|] == user;
    if n > |user| {
      EndsBeforeTail(user, hosts, tail, n);
    }
  }

  lemma EndsBeforeTail(user: string, hosts: string, tail: string, n: nat)
    requires AuthorityText(hosts) && (tail != "" ==> tail[0] == '/' || tail[0] == '?')
    requires n <= |user + (hosts + tail)| && IsUserInfo((user + (hosts + tail))[..n])
    ensures n <= |user|
  {
    var s := user + (hosts + tail);
    var p := |user| + |hosts|;
    var t := s[..n];
    var a :| 0 <= a < n && IsUserAndPassword(t, a);
    assert forall i :: |user| <= i < p ==> s[i] == hosts[i - |user|] && AuthorityChar(hosts[i - |user|]);
    assert t[n - 1] == s[n - 1] == '@';
    assert tail != "" ==> s[p] == tail[0];
  }

  /** The tail of an authority: perhaps a path, perhaps a query, and what follows it on other lines. */
  function Tail(path: Option<string>, query: Option<string>, rest: string): string {
    (if path.Some? then "/" + path.value else "") + if query.Some? then "?" + query.value + rest else ""
  }

  lemma QueryOf(query: Option<string>, rest: string)
    requires (query.Some? ==> OneLine(query.value)) && (rest != "" ==> rest[0] == '\n')
    ensures QueryPart(if query.Some? then "?" + query.value + rest else "") ==
            if query.Some? then query.value else ""
  {
    if query.Some? {
      var v := "?" + query.value + rest;
      assert v[1..] == query.value + rest;
      SpanIs(v[1..], LineChar, |query.value|);
      assert v[1..1 + |query.value|] == query.value;
    }
  }

  lemma PathSkipped(path: Option<string>, query: Option<string>, rest: string)
    requires path.Some? ==> forall i :: 0 <= i < |path.value| ==> PathChar(path.value[i])
    ensures SkipPath(Tail(path, query, rest)) == if query.Some? then "?" + query.value + rest else ""
  {
    var u := Tail(path, query, rest);
    var v := if query.Some? then "?" + query.value + rest else "";
    if path.Some? {
      assert u[1..] == path.value + v;
      SpanIs(u[1..], PathChar, |path.value|);
      assert u[1 + |path.value|..] == v;
    }
  }

  lemma HostsUpTo(hosts: string, tail: string)
    requires AuthorityText(hosts) && (tail != "" ==> tail[0] == '/' || tail[0] == '?')
    ensures var s := hosts + tail; Span(s, HostsChar) == |hosts| && s[..|hosts|] == hosts && s[|hosts|..] == tail
  {
    SpanIs(hosts + tail, HostsChar, |hosts|);
  }

  /**
   Every text of the general form is cut where the form says: user information is dropped, the hosts end at the
   first slash or question mark, the path is dropped, and the query ends with its line.
   */
  lemma AuthorityOf(user: string, hosts: string, path: Option<string>, query: Option<string>, rest: string)
    requires (user == "" || IsUserInfo(user)) && AuthorityText(hosts)
    requires path.Some? ==> forall i :: 0 <= i < |path.value| ==> PathChar(path.value[i])
    requires (query.Some? ==> OneLine(query.value)) && (rest != "" ==> rest[0] == '\n')
    ensures Authority(user + (hosts + Tail(path, query, rest))) ==
            Parts(None, hosts, if query.Some? then query.value else "")
  {
    var tail := Tail(path, query, rest);
    var s := user + (hosts + tail);
    UserInfoIs(user, hosts, tail);
    assert s[|user|..] == hosts + tail;
    HostsUpTo(hosts, tail);
    PathSkipped(path, query, rest);
    QueryOf(query, rest);
  }

  /** The same behind a scheme. */
  lemma SplitOf(
    scheme: string, user: string, hosts: string, path: Option<string>, query: Option<string>, rest: string)
    requires OneLine(scheme) && (user == "" || IsUserInfo(user)) && AuthorityText(hosts)
    requires path.Some? ==> forall i :: 0 <= i < |path.value| ==> PathChar(path.value[i])
    requires (query.Some? ==> OneLine(query.value)) && (rest != "" ==> rest[0] == '\n')
    requires var text := user + (hosts + Tail(path, query, rest));
             forall i :: 0 <= i < |text| ==> !SeparatorAt(text, i)
    ensures Split(scheme + "://" + (user + (hosts + Tail(path, query, rest)))) ==
            Parts(Some(scheme), hosts, if query.Some? then query.value else "")
  {
    SplitWithScheme(scheme, user + (hosts + Tail(path, query, rest)));
    AuthorityOf(user, hosts, path, query, rest);
  }

  // ---------------------------------------------------------------- the whole string

  lemma PlainConcat(x: string, c: char, y: string)
    requires Plain(x) && Plain(y) && c != '/' && c != ':' && c != '\n'
    ensures Plain(x + [c] + y)
  {
    var s := x + [c] + y;
    forall i | 0 <= i < |s|
      ensures !SeparatorAt(s, i)
    {
      if SeparatorAt(s, i) {
        if i < |x| {
          assert SeparatorAt(x, i);
        } else if i > |x| {
          assert SeparatorAt(y, i - |x| - 1);
        }
      }
    }
  }

  lemma {:induction false} PlainValues(key: string, values: seq<string>)
    requires GoodKey(key) && GoodValues(values)
    ensures Plain(PrintValues(key, values))
  {
    if values != [] {
      PlainConcat(key, '=', values[0]);
      PrintValuesCons(key, values);
      if |values| > 1 {
        PlainValues(key, values[1..]);
        PlainConcat(key + "=" + values[0], '&', PrintValues(key, values[1..]));
      }
    }
  }

  lemma {:induction false} PlainOptions(order: seq<string>, options: map<string, seq<string>>)
    requires forall k :: k in order ==> k in options
    requires GoodOptions(options)
    ensures Plain(PrintOptions(order, options))
  {
    if order != [] {
      var n := |order| - 1;
      PlainOptions(order[..n], options);
      PlainValues(order[n], options[order[n]]);
      PlainConcat(PrintOptions(order[..n], options), '&', PrintValues(order[n], options[order[n]]));
    }
  }

  predicate AuthorityText(s: string) {
    forall i :: 0 <= i < |s| ==> AuthorityChar(s[i])
  }

  lemma {:induction false} HostsAreAuthorityText(hosts: seq<Address>)
    requires GoodHosts(hosts)
    ensures AuthorityText(PrintHosts(hosts))
  {
    if hosts != [] {
      AddressIsAuthorityText(hosts[0]);
      if |hosts| > 1 {
        HostsAreAuthorityText(hosts[1..]);
        assert Texts(hosts)[1..] == Texts(hosts[1..]);
      }
    }
  }

  lemma AddressIsAuthorityText(a: Address)
    requires GoodAddress(a)
    ensures AuthorityText(PrintAddress(a))
  {
    if a.port.Some? {
      assert forall i :: 0 <= i < |Print(a.port.value)| ==> IsDigit(Print(a.port.value)[i]);
    }
  }

  /** Text without an at sign before the query holds no user information. */
  lemma NoUserInfo(hosts: string, tail: string)
    requires AuthorityText(hosts) && (tail != "" ==> tail[0] == '?')
    ensures UserInfo(hosts + tail) == 0
  {
    var s := hosts + tail;
    var a := Span(s, UserChar);
    StopsAt(s, UserChar, |hosts|);
    assert forall i :: 0 <= i < |hosts| ==> s[i] == hosts[i] && AuthorityChar(hosts[i]);
    if a < |hosts| && s[a] == ':' {
      NoPassword(hosts, tail, a);
    }
    assert forall i :: 0 <= i < a ==> s[..a][i] == hosts[i];
  }

  lemma NoPassword(hosts: string, tail: string, a: nat)
    requires AuthorityText(hosts) && (tail != "" ==> tail[0] == '?') && a < |hosts|
    ensures var s := hosts + tail; var b := a + 1 + Span(s[a + 1..], PasswordChar); b < |s| ==> s[b] != '@'
  {
    var s := hosts + tail;
    var u := s[a + 1..];
    assert |hosts| < |s| ==> u[|hosts| - a - 1] == '?';
    StopsAt(u, PasswordChar, |hosts| - a - 1);
  }

  lemma AuthorityBack(hosts: string, query: string)
    requires AuthorityText(hosts) && OneLine(query)
    ensures Authority(hosts + if query != "" then "?" + query else "") == Parts(None, hosts, query)
  {
    var tail := if query != "" then "?" + query else "";
    NoUserInfo(hosts, tail);
    HostsEndAt(hosts, tail);
    if query != "" {
      QueryBack(query);
    }
  }

  lemma HostsEndAt(hosts: string, tail: string)
    requires AuthorityText(hosts) && (tail != "" ==> tail[0] == '?')
    ensures var s := hosts + tail;
      Span(s, HostsChar) == |hosts| && s[0..] == s && s[..|hosts|] == hosts && s[|hosts|..] == tail
  {
    SpanIs(hosts + tail, HostsChar, |hosts|);
  }

  lemma QueryBack(query: string)
    requires OneLine(query)
    ensures var t := "?" + query; t[1..1 + Span(t[1..], LineChar)] == query
  {
    var t := "?" + query;
    assert t[1..] == query;
    SpanIs(query, LineChar, |query|);
    assert t[1..1 + |query|] == query;
  }

  /** Behind the first separator there is none, so it is the last one, whatever the scheme contains. */
  lemma SplitWithScheme(scheme: string, rest: string)
    requires OneLine(scheme) && forall i :: 0 <= i < |rest| ==> !SeparatorAt(rest, i)
    ensures Split(scheme + "://" + rest) == Authority(rest).(scheme := Some(scheme))
  {
    var s := scheme + "://" + rest;
    assert SeparatorAt(s, |scheme|) && s[..|scheme|] == scheme && s[|scheme| + 3..] == rest;
    forall j | |scheme| < j < |s|
      ensures !SeparatorAt(s, j)
    {
      NoneBehind(scheme, rest, j);
    }
    LastSeparatorIs(s, |scheme|);
  }

  lemma NoneBehind(scheme: string, rest: string, j: nat)
    requires forall i :: 0 <= i < |rest| ==> !SeparatorAt(rest, i)
    requires |scheme| < j < |scheme + "://" + rest|
    ensures !SeparatorAt(scheme + "://" + rest, j)
  {
    var s := scheme + "://" + rest;
    if j <= |scheme| + 2 {
      assert s[j] == '/';
    } else {
      assert !SeparatorAt(rest, j - |scheme| - 3);
    }
  }

  lemma LastSeparatorIs(s: string, i: nat)
    requires i < |s| && SeparatorAt(s, i) && OneLine(s[..i])
    requires forall j :: i < j < |s| ==> !SeparatorAt(s, j)
    ensures LastSeparator(s, |s|) == Some(i)
  {}

  lemma SplitWithoutScheme(rest: string)
    requires forall i :: 0 <= i < |rest| ==> !SeparatorAt(rest, i)
    ensures Split(rest) == Authority(rest)
  {
  }

  /**
   Exactly when the scheme survives: when no scheme separator follows it. One in an option value, say, makes
   everything before it the scheme.
   */
  lemma SchemeKeptIffNoSeparatorFollows(scheme: Option<string>, rest: string)
    requires (scheme.Some? ==> OneLine(scheme.value)) && OneLine(rest)
    ensures Split((if scheme.Some? then scheme.value + "://" else "") + rest).scheme == scheme <==>
            forall i :: 0 <= i < |rest| ==> !SeparatorAt(rest, i)
  {
    if forall i :: 0 <= i < |rest| ==> !SeparatorAt(rest, i) {
      SplitPrefix(scheme, rest);
    } else {
      var i :| 0 <= i < |rest| && SeparatorAt(rest, i);
      LaterSeparatorWins((if scheme.Some? then scheme.value + "://" else ""), rest, i);
    }
  }

  lemma LaterSeparatorWins(front: string, rest: string, i: nat)
    requires OneLine(front) && OneLine(rest) && SeparatorAt(rest, i)
    ensures var parts := Split(front + rest); parts.scheme.Some? && |parts.scheme.value| >= |front| + i
  {
    var s := front + rest;
    assert SeparatorAt(s, |front| + i) && OneLine(s[..|front| + i]);
    var last := LastSeparator(s, |s|);
    assert last.Some? && last.value >= |front| + i;
  }

  /** The scheme that is read when an option value holds a separator: all of the text before it. */
  lemma SeparatorInOptionMovesScheme(before: string, after: string)
    requires OneLine(before) && forall i :: 0 <= i < |after| ==> !SeparatorAt(after, i)
    ensures Split("couchbase://h?x=" + before + "://" + after).scheme == Some("couchbase://h?x=" + before)
  {
    SplitWithScheme("couchbase://h?x=" + before, after);
  }

  lemma NoSeparator(hosts: string, query: string)
    requires AuthorityText(hosts) && Plain(query)
    ensures var s := hosts + if query != "" then "?" + query else "";
      forall i :: 0 <= i < |s| ==> !SeparatorAt(s, i)
  {
    var s := hosts + if query != "" then "?" + query else "";
    forall i | 0 <= i < |s|
      ensures !SeparatorAt(s, i)
    {
      if SeparatorAt(s, i) {
        assert s[i + 1] == '/';
        assert i > |hosts|;
        assert SeparatorAt(query, i - |hosts| - 1);
      }
    }
  }

  lemma SplitBack(spec: ConnSpec, order: seq<string>)
    requires GoodSpec(spec) && Enumerates(order, spec.options)
    ensures Split(PrintSpec(spec, order)) ==
            Parts(spec.scheme, PrintHosts(spec.hosts), PrintOptions(order, spec.options))
  {
    HostsAreAuthorityText(spec.hosts);
    PlainOptions(order, spec.options);
    SplitText(spec.scheme, PrintHosts(spec.hosts), PrintOptions(order, spec.options));
  }

  lemma SplitText(scheme: Option<string>, hosts: string, query: string)
    requires (scheme.Some? ==> OneLine(scheme.value)) && AuthorityText(hosts) && Plain(query)
    ensures Split(Text(scheme, hosts, query)) == Parts(scheme, hosts, query)
  {
    NoSeparator(hosts, query);
    AuthorityBack(hosts, query);
    SplitPrefix(scheme, hosts + if query != "" then "?" + query else "");
    TextParts(scheme, hosts, query);
  }

  lemma TextParts(scheme: Option<string>, hosts: string, query: string)
    ensures Text(scheme, hosts, query)
      == (if scheme.Some? then scheme.value + "://" else "") + (hosts + if query != "" then "?" + query else "")
  {
  }

  lemma SplitPrefix(scheme: Option<string>, rest: string)
    requires scheme.Some? ==> OneLine(scheme.value)
    requires forall i :: 0 <= i < |rest| ==> !SeparatorAt(rest, i)
    ensures Split((if scheme.Some? then scheme.value + "://" else "") + rest) == Authority(rest).(scheme := scheme)
  {
    if scheme.Some? {
      SplitWithScheme(scheme.value, rest);
    } else {
      SplitWithoutScheme(rest);
      assert "" + rest == rest;
    }
  }

  /**
   Reading back a printed spec gives its scheme, its hosts in order with their ports, and the options that
   have a value with their value lists, in whatever order the options were printed.
   */
  lemma PrintedSpecBack(spec: ConnSpec, order: seq<string>, decode: string -> string)
    requires GoodSpec(spec) && Enumerates(order, spec.options) && Decoder(decode)
    ensures ParseSpec(PrintSpec(spec, order), decode) == Ok(spec.(options := Given(spec.options)))
  {
    SplitBack(spec, order);
    HostsBack(spec.hosts);
    OptionsBack(order, spec.options, decode);
    CollectedBack(order, spec.options);
  }

  /** The round trip is the identity exactly when no option has an empty value list. */
  lemma RoundTripIffEveryOptionHasAValue(spec: ConnSpec, order: seq<string>, decode: string -> string)
    requires GoodSpec(spec) && Enumerates(order, spec.options) && Decoder(decode)
    ensures ParseSpec(PrintSpec(spec, order), decode) == Ok(spec)
      <==> forall k :: k in spec.options ==> spec.options[k] != []
  {
    PrintedSpecBack(spec, order, decode);
    if forall k :: k in spec.options ==> spec.options[k] != [] {
      assert Given(spec.options) == spec.options;
    } else {
      var k :| k in spec.options && spec.options[k] == [];
      assert k !in Given(spec.options);
    }
  }
}
