/** The VLESS share link: the printer of the backup tool and the parser of the legacy seed, and that they
    undo each other (sections 3.2, 3.4 and 3.5 of RFC 3986). */
module VlessUri {

  import opened Prelude
  import opened Wire
  import opened UriText

  /** Which texts the ipaddress module accepts. */
  datatype AddressRules = AddressRules(v4: string -> bool, v6: string -> bool)

  datatype Fields = Fields(
    uuid: string, server: string, port: nat, sni: string, publicKey: string, shortId: string, fingerprint: string)

  /* ---------- the formats ---------- */

  predicate Hex(c: char) {
    '0' <= c <= '9' || 'a' <= c <= 'f' || 'A' <= c <= 'F'
  }

  predicate UuidText(s: string) {
    && |s| == 36
    && (forall i :: 0 <= i < 36 ==> if i == 8 || i == 13 || i == 18 || i == 23 then s[i] == '-' else Hex(s[i]))
  }

  /** A regular expression ending in `$` also matches before one final line feed. */
  function Chomp(s: string): string {
    if s != "" && s[|s| - 1] == '\n' then s[..|s| - 1] else s
  }

  predicate ShortIdText(s: string) {
    |s| <= 16 && forall c :: c in s ==> Hex(c)
  }

  predicate KeyChar(c: char) {
    '0' <= c <= '9' || 'a' <= c <= 'z' || 'A' <= c <= 'Z' || c == '_' || c == '-'
  }

  /** 43 or 44 URL-safe base64 characters and up to two '='. */
  predicate KeyText(s: string) {
    KeyBody(s, 43) || KeyBody(s, 44)
  }

  predicate KeyBody(s: string, n: nat) {
    && n <= |s| <= n + 2
    && (forall i :: 0 <= i < n ==> KeyChar(s[i])) && (forall i :: n <= i < |s| ==> s[i] == '=')
  }

  predicate TagText(s: string) {
    && 1 <= |s| <= 32
    && (forall i :: 0 <= i < |s| ==>
          'a' <= s[i] <= 'z' || '0' <= s[i] <= '9' || (i > 0 && (s[i] == '.' || s[i] == '_' || s[i] == '-')))
  }

  predicate DnsChar(c: char) {
    '0' <= c <= '9' || 'a' <= c <= 'z' || 'A' <= c <= 'Z' || c == '-'
  }

  predicate DotBefore(s: string, to: nat)
    requires to <= |s|
  {
    exists j :: to - 64 <= j < to && 0 <= j && s[j] == '.'
  }

  /** At least two labels of 1 to 63 letters, digits and inner hyphens, 253 characters in all. */
  predicate DnsName(s: string) {
    && 1 <= |s| <= 253 && '.' in s
    && (forall i :: 0 <= i < |s| ==> DnsChar(s[i]) || s[i] == '.')
    && (forall i :: 0 <= i < |s| && (s[i] == '.' || s[i] == '-') ==> 0 < i < |s| - 1)
    && (forall i :: 0 <= i < |s| - 1 && s[i] == '.' ==> s[i + 1] != '.' && s[i + 1] != '-')
    && (forall i :: 0 <= i < |s| - 1 && s[i + 1] == '.' ==> s[i] != '-')
    && (forall i :: 64 <= i <= |s| ==> DotBefore(s, i))
  }

  predicate Numeric(s: string) {
    forall c :: c in s ==> '0' <= c <= '9' || c == '.'
  }

  predicate ControlFree(s: string) {
    forall c :: c in s ==> c as int >= 32
  }

  predicate ValidateServerHost(rules: AddressRules, value: string) {
    var v := Strip(value);
    && v != "" && ControlFree(v)
    && if ':' in v then rules.v6(v) else if Numeric(v) then rules.v4(v) else DnsName(v)
  }

  predicate ValidateSniHost(value: string) {
    DnsName(Strip(value))
  }

  /* ---------- printer ---------- */

  function AuthorityHost(server: string): string {
    if ':' in server && server[0] != '[' then "[" + server + "]" else server
  }

  /** A host with colons is put in brackets, once. */
  lemma BracketsOnce(host: string)
    requires host != "" && host[0] != '['
    ensures AuthorityHost(host) == (if ':' in host then "[" + host + "]" else host)
    ensures AuthorityHost("[" + host + "]") == "[" + host + "]"
  {}

  /** The eight query parameters, in the order they are written. */
  function Name(i: nat): string
    requires i < 8
  {
    if i == 0 then "encryption" else if i == 1 then "flow" else if i == 2 then "security" else if i == 3 then "sni"
    else if i == 4 then "fp" else if i == 5 then "pbk" else if i == 6 then "sid" else "type"
  }

  function Value(i: nat, sni: string, publicKey: string, shortId: string): string
    requires i < 8
  {
    if i == 0 then "none" else if i == 1 then "xtls-rprx-vision" else if i == 2 then "reality" else if i == 3 then sni
    else if i == 4 then "chrome" else if i == 5 then publicKey else if i == 6 then shortId else "tcp"
  }

  function QueryPairs(sni: string, publicKey: string, shortId: string): seq<Pair> {
    seq(8, i requires 0 <= i < 8 => Pair(Name(i), Value(i, sni, publicKey, shortId)))
  }

  function Authority(uuid: string, server: string, port: nat): string {
    uuid + "@" + AuthorityHost(server) + ":" + Digits(port)
  }

  function RenderVlessUri(uuid: string, server: string, port: nat, sni: string, publicKey: string, shortId: string,
                          tag: string): string
  {
    "vless://" + Authority(uuid, server, port) + "?" + Join(QueryPairs(sni, publicKey, shortId)) + "#" + "vincula-" + tag
  }

  /* ---------- parser ---------- */

  predicate Critical(key: string) {
    key in ["encryption", "flow", "security", "type", "sni", "fp", "pbk", "sid"]
  }

  lemma CriticalKeys(key: string)
    ensures Critical(key) <==> || key == "encryption" || key == "flow" || key == "security" || key == "type"
                               || key == "sni" || key == "fp" || key == "pbk" || key == "sid"
  {}

  predicate NoCriticalRepeat(pairs: seq<Pair>) {
    forall i, j :: 0 <= i < j < |pairs| && Critical(Lower(pairs[i].key)) ==> Lower(pairs[i].key) != Lower(pairs[j].key)
  }

  /** The first value of each lower-cased key. */
  function FirstValues(pairs: seq<Pair>): map<string, string> {
    if pairs == [] then map[] else
      var n := |pairs| - 1;
      var m := FirstValues(pairs[..n]);
      var k := Lower(pairs[n].key);
      if k in m then m else m[k := pairs[n].value]
  }

  /** _parse_query_no_dup. */
  method ParseQueryNoDup(query: string) returns (seen: Option<map<string, string>>)
    ensures seen.Some? <==> NoCriticalRepeat(ParsePairs(query))
    ensures seen.Some? ==> seen.value == FirstValues(ParsePairs(query))
  {
    hide NoCriticalRepeat, Named, Critical, Lower, ParsePairs;
    var pairs := ParsePairs(query);
    var values: map<string, string>, counts: map<string, nat> := map[], map[];
    var i := 0;
    NothingRead(pairs);
    while i < |pairs|
      invariant 0 <= i <= |pairs| && values == FirstValues(pairs[..i])
      invariant forall k :: k in counts <==> Named(pairs, i, k)
      invariant forall k :: k in counts ==> counts[k] > 0
      invariant NoCriticalRepeat(pairs[..i])
    {
      var k := Lower(pairs[i].key);
      assert pairs[..i + 1][..i] == pairs[..i];
      var count := (if k in counts then counts[k] else 0) + 1;
      if Critical(k) && count > 1 {
        RepeatFound(pairs, i);
        return None;
      }
      counts := counts[k := count];
      OneMoreName(pairs, i);
      NoRepeatStep(pairs, i);
      if k !in values { values := values[k := pairs[i].value]; }
      i := i + 1;
    }
    assert pairs[..|pairs|] == pairs;
    return Some(values);
  }

  predicate Named(pairs: seq<Pair>, n: nat, key: string)
    requires n <= |pairs|
  {
    exists j :: 0 <= j < n && Lower(pairs[j].key) == key
  }

  lemma NothingRead(pairs: seq<Pair>)
    ensures NoCriticalRepeat(pairs[..0]) && forall k :: !Named(pairs, 0, k)
  {}

  lemma OneMoreName(pairs: seq<Pair>, i: nat)
    requires i < |pairs|
    ensures forall k :: Named(pairs, i + 1, k) <==> Named(pairs, i, k) || k == Lower(pairs[i].key)
  {
    hide Lower;
    forall k ensures Named(pairs, i + 1, k) <==> Named(pairs, i, k) || k == Lower(pairs[i].key) {
      if Named(pairs, i + 1, k) {
        var j :| 0 <= j < i + 1 && Lower(pairs[j].key) == k;
      }
      assert Named(pairs, i + 1, Lower(pairs[i].key));
    }
  }

  lemma RepeatFound(pairs: seq<Pair>, i: nat)
    requires i < |pairs| && Critical(Lower(pairs[i].key)) && Named(pairs, i, Lower(pairs[i].key))
    ensures !NoCriticalRepeat(pairs)
  {}

  lemma NoRepeatStep(pairs: seq<Pair>, i: nat)
    requires i < |pairs| && NoCriticalRepeat(pairs[..i])
    requires !Critical(Lower(pairs[i].key)) || !Named(pairs, i, Lower(pairs[i].key))
    ensures NoCriticalRepeat(pairs[..i + 1])
  {}

  function Get(values: map<string, string>, key: string): string {
    if key in values then values[key] else ""
  }

  function Or(s: string, default: string): string {
    if s == "" then default else s
  }

  datatype HostPort = HostPort(host: string, port: string)

  function HostInfo(netloc: string): HostPort {
    var info := RPartition(netloc, '@').after;
    var open := Partition(info, '[');
    if open.found then
      var close := Partition(open.after, ']');
      HostPort(close.before, Partition(close.after, ':').after)
    else
      var colon := Partition(info, ':');
      HostPort(colon.before, colon.after)
  }

  /** Lower-cased up to a zone. */
  function Hostname(host: string): string {
    var p := Partition(host, '%');
    Lower(p.before) + (if p.found then "%" else "") + p.after
  }

  /** Only the part before a zone is lower-cased; the zone stays as it is. */
  lemma ZoneStays(address: string, zone: string)
    requires '%' !in address
    ensures Hostname(address + "%" + zone) == Lower(address) + "%" + zone && Hostname(address) == Lower(address)
  {
    PartitionAt(address, '%', zone);
    PartitionNone(address, '%');
  }

  /** The pieces of a URI after "vless://". */
  datatype Split = Split(netloc: string, path: string, query: string)

  function SplitUrl(rest: string): Split {
    var n := AuthorityEnd(rest);
    var target := Partition(rest[n..], '#').before;
    var p := Partition(target, '?');
    Split(rest[..n], p.before, p.after)
  }

  function Checked(uuid: string, host: string, port: nat, qs: map<string, string>): Result<Fields, string> {
    var sni, pbk, sid, fp := Get(qs, "sni"), Get(qs, "pbk"), Get(qs, "sid"), Lower(Get(qs, "fp"));
    if Lower(Or(Get(qs, "encryption"), "none")) != "none" then Err("encryption must be none")
    else if Get(qs, "flow") != "xtls-rprx-vision" then Err("incompatible flow")
    else if Lower(Get(qs, "security")) != "reality" then Err("security must be reality")
    else if Lower(Or(Get(qs, "type"), "tcp")) != "tcp" then Err("transport must be tcp")
    else if sni == "" then Err("missing sni")
    else if !ValidateSniHost(sni) then Err("invalid sni")
    else if pbk == "" then Err("missing pbk")
    else if !KeyText(Chomp(pbk)) then Err("invalid pbk")
    else if !ShortIdText(Chomp(sid)) then Err("invalid short ID")
    else if fp !in ["", "chrome", "chrome_auto", "randomized"] then Err("incompatible Reality fingerprint")
    else Ok(Fields(Lower(uuid), host, port, sni, pbk, Lower(sid), Or(fp, "chrome")))
  }

  function ParseSplit(rules: AddressRules, u: Split): Result<Fields, string> {
    var at := RPartition(u.netloc, '@');
    var uuid := Unquote(Partition(at.before, ':').before);
    var info := HostInfo(u.netloc);
    var host := Hostname(info.host);
    var pairs := ParsePairs(u.query);
    if ('[' in u.netloc) != (']' in u.netloc) then Err("invalid URI")
    else if Partition(at.before, ':').found then Err("URI userinfo must not include a password")
    else if u.path != "" && u.path != "/" then Err("URI must not include a path")
    else if !UuidText(Chomp(uuid)) then Err("invalid UUID")
    else if host == "" then Err("missing server host")
    else if !ValidateServerHost(rules, host) then Err("invalid server host")
    else if info.port == "" then Err("missing port")
    else if DigitsValue(info.port).None? then Err("invalid port")
    else if !(1 <= DigitsValue(info.port).value <= 65535) then Err("invalid port")
    else if !NoCriticalRepeat(pairs) then Err("duplicate query parameter")
    else Checked(uuid, host, DigitsValue(info.port).value, FirstValues(pairs))
  }

  function ParseLegacyVlessUri(rules: AddressRules, uri: string): Result<Fields, string> {
    var raw := Strip(uri);
    if '\n' in raw || '\r' in raw then Err("URI must be a single line")
    else if |raw| < 8 || Lower(raw[..8]) != "vless://" then Err("scheme must be vless")
    else ParseSplit(rules, SplitUrl(WithoutTabs(raw[8..])))
  }

  /* ---------- white space and strays ---------- */

  predicate Spaces(s: string) {
    forall c :: c in s ==> IsSpace(c)
  }

  /** No line feed, carriage return or tab: what a printed link cannot carry. */
  predicate Calm(s: string) {
    '\n' !in s && '\r' !in s && '\t' !in s
  }

  lemma {:induction false} StripLeftSplits(s: string)
    ensures StripLeft(s) == "" || !IsSpace(StripLeft(s)[0])
    ensures |StripLeft(s)| <= |s| && s[|s| - |StripLeft(s)|..] == StripLeft(s) && Spaces(s[..|s| - |StripLeft(s)|])
  {
    if s != "" && IsSpace(s[0]) {
      StripLeftSplits(s[1..]);
      var n := |s| - |StripLeft(s)|;
      assert s[..n] == [s[0]] + s[1..][..n - 1];
      assert s[n..] == s[1..][n - 1..];
    }
  }

  lemma {:induction false} StripRightSplits(s: string)
    ensures StripRight(s) == "" || !IsSpace(StripRight(s)[|StripRight(s)| - 1])
    ensures |StripRight(s)| <= |s| && s[..|StripRight(s)|] == StripRight(s) && Spaces(s[|StripRight(s)|..])
    decreases |s|
  {
    if s != "" && IsSpace(s[|s| - 1]) {
      var front := s[..|s| - 1];
      StripRightSplits(front);
      var n := |StripRight(s)|;
      assert s[n..] == front[n..] + [s[|s| - 1]];
      assert s[..n] == front[..n];
    }
  }

  /** A string is white space, its stripped text, white space. */
  lemma StripSplits(s: string) returns (left: string, right: string)
    ensures s == left + Strip(s) + right && Spaces(left) && Spaces(right)
    ensures Strip(s) == "" || Trimmed(Strip(s))
  {
    StripLeftSplits(s);
    var m := StripLeft(s);
    StripRightSplits(m);
    hide StripLeft, StripRight;
    left, right := s[..|s| - |m|], m[|Strip(s)|..];
    assert s == left + m && m == Strip(s) + right;
    assert Strip(s) != "" ==> Strip(s)[0] == m[0];
  }

  lemma {:induction false} StripLeftSkips(left: string, m: string)
    requires Spaces(left) && m != "" && !IsSpace(m[0])
    ensures StripLeft(left + m) == m
    decreases |left|
  {
    if left == "" {
      assert left + m == m;
    } else {
      assert (left + m)[0] == left[0] && left[0] in left;
      assert (left + m)[1..] == left[1..] + m;
      StripLeftSkips(left[1..], m);
    }
  }

  lemma {:induction false} StripRightSkips(m: string, right: string)
    requires Spaces(right) && m != "" && !IsSpace(m[|m| - 1])
    ensures StripRight(m + right) == m
    decreases |right|
  {
    if right == "" {
      assert m + right == m;
    } else {
      var n := |right| - 1;
      var all := m + right;
      assert all[|all| - 1] == right[n] && right[n] in right;
      assert all[..|all| - 1] == m + right[..n];
      StripRightSkips(m, right[..n]);
    }
  }

  lemma StripOf(left: string, m: string, right: string)
    requires Spaces(left) && Spaces(right) && Trimmed(m)
    ensures Strip(left + m + right) == m
  {
    assert left + m + right == left + (m + right);
    assert (m + right)[0] == m[0];
    StripLeftSkips(left, m + right);
    StripRightSkips(m, right);
  }

  lemma TrimmedStrips(s: string)
    requires s == "" || Trimmed(s)
    ensures Strip(s) == s
  {}

  lemma StrippedOf(s: string, c: char)
    requires c in s
    ensures c in Strip(s) || IsSpace(c)
  {
    var left, right := StripSplits(s);
  }

  lemma LowerConcat(a: string, b: string)
    ensures Lower(a + b) == Lower(a) + Lower(b)
  {}

  lemma LowerSpaces(s: string)
    requires Spaces(s)
    ensures Lower(s) == s
  {
    LowerFixes(s);
  }

  lemma StripLower(s: string)
    ensures Strip(Lower(s)) == Lower(Strip(s)) || Strip(s) == ""
  {
    var left, right := StripSplits(s);
    var m := Strip(s);
    if m != "" {
      LowerConcat(left + m, right);
      LowerConcat(left, m);
      LowerSpaces(left);
      LowerSpaces(right);
      LowerKeepsEnds(m);
      hide Strip;
      StripOf(left, Lower(m), right);
    }
  }

  lemma LowerKeepsEnds(m: string)
    requires Trimmed(m)
    ensures Trimmed(Lower(m))
  {}

  /* ---------- round trip ---------- */

  /** Key characters, dots, colons, and white space a printed link can carry. */
  predicate Free(s: string) {
    forall c :: c in s ==> KeyChar(c) || c == '.' || c == ':' || (IsSpace(c) && c != '\n' && c != '\r' && c != '\t')
  }

  /** What the theorem needs of the address rules: IPv6 literals without zone are hexadecimal digits, colons
      and dots, and case does not matter. */
  ghost predicate Sensible(rules: AddressRules) {
    forall s :: rules.v6(s) && '%' !in s ==> (forall c :: c in s ==> Hex(c) || c == ':' || c == '.') && rules.v6(Lower(s))
  }

  /** A server name the parser lets through and a link can carry: valid up to white space around it, without
      IPv6 zone. */
  predicate ServerText(rules: AddressRules, s: string) {
    ValidateServerHost(rules, s) && '%' !in s && Calm(s)
  }

  predicate SniText(s: string) {
    ValidateSniHost(s) && Calm(s)
  }

  lemma {:induction false} DigitsRoundTrip(n: nat)
    ensures DigitsValue(Digits(n)) == Some(n)
  {
    if n >= 10 {
      DigitsRoundTrip(n / 10);
      assert Digits(n)[..|Digits(n)| - 1] == Digits(n / 10);
    }
  }

  lemma ServerIsFree(rules: AddressRules, server: string)
    requires Sensible(rules) && ServerText(rules, server)
    ensures server != "" && Free(server) && (':' in server <==> ':' in Strip(server))
  {
    var left, right := StripSplits(server);
    var m := Strip(server);
    hide Strip;
    assert '%' !in m;
    HostChars(rules, m);
    forall c | c in server ensures c in m || IsSpace(c) { assert c in left || c in m || c in right; }
  }

  /** A valid host without white space around it. */
  predicate ValidHost(rules: AddressRules, v: string) {
    v != "" && ControlFree(v) && if ':' in v then rules.v6(v) else if Numeric(v) then rules.v4(v) else DnsName(v)
  }

  lemma HostChars(rules: AddressRules, v: string)
    requires Sensible(rules) && ValidHost(rules, v) && '%' !in v
    ensures forall c :: c in v ==> KeyChar(c) || c == '.' || c == ':'
  {
    if ':' !in v && !Numeric(v) {
      forall c | c in v ensures KeyChar(c) || c == '.' { var i :| 0 <= i < |v| && v[i] == c; }
    }
  }

  lemma LowerDotBefore(s: string, i: nat)
    requires i <= |s| && DotBefore(s, i)
    ensures DotBefore(Lower(s), i)
  {}

  lemma LowerClass(c: char)
    ensures DnsChar(c) || c == '.' ==> DnsChar(LowerChar(c)) || LowerChar(c) == '.'
    ensures LowerChar(c) == '.' <==> c == '.'
    ensures LowerChar(c) == '-' <==> c == '-'
  {}

  lemma LowerDns(s: string)
    requires DnsName(s)
    ensures DnsName(Lower(s))
  {
    hide DotBefore, Lower, LowerChar, DnsChar;
    var t := Lower(s);
    forall i | 0 <= i < |s|
      ensures t[i] == LowerChar(s[i]) && (DnsChar(t[i]) || t[i] == '.')
      ensures (t[i] == '.' <==> s[i] == '.') && (t[i] == '-' <==> s[i] == '-')
    {
      LowerClass(s[i]);
    }
    var d :| 0 <= d < |s| && s[d] == '.';
    assert t[d] == '.';
    forall i | 64 <= i <= |t| ensures DotBefore(t, i) { LowerDotBefore(s, i); }
  }

  lemma FreeIsCalm(s: string)
    requires Free(s)
    ensures Calm(s) && NoDelimiter(s) && '@' !in s && '[' !in s && ']' !in s && '%' !in s
  {}

  lemma {:induction false} LowerMembers(s: string, c: char)
    ensures c in Lower(s) ==> exists d :: d in s && LowerChar(d) == c
    ensures c in s ==> LowerChar(c) in Lower(s)
  {}

  lemma LowerHost(rules: AddressRules, v: string)
    requires Sensible(rules) && ValidHost(rules, v) && '%' !in v
    ensures ValidHost(rules, Lower(v))
  {
    HostChars(rules, v);
    LowerColon(v);
    if ':' !in v {
      if Numeric(v) {
        LowerFixes(v);
      } else {
        LowerDns(v);
        LowerNotNumeric(v);
      }
    }
  }

  lemma LowerColon(v: string)
    requires forall c :: c in v ==> KeyChar(c) || c == '.' || c == ':'
    ensures (':' in Lower(v) <==> ':' in v) && ControlFree(Lower(v))
  {
    LowerMembers(v, ':');
    forall c | c in Lower(v) ensures c as int >= 32 && (c == ':' ==> c in v) {
      LowerMembers(v, c);
      var d :| d in v && LowerChar(d) == c;
    }
  }

  /** Lower-casing keeps a server valid: the parser checks the lower-cased name. */
  lemma LowerServer(rules: AddressRules, server: string)
    requires Sensible(rules) && ServerText(rules, server)
    ensures ValidateServerHost(rules, Lower(server)) && Hostname(server) == Lower(server)
  {
    hide Sensible, Strip, Lower, ValidHost, Calm;
    ServerIsHost(rules, server);
    LowerHost(rules, Strip(server));
    StripLower(server);
    HostIsValid(rules, Lower(server));
    NoZone(server);
  }

  lemma ServerIsHost(rules: AddressRules, server: string)
    requires ServerText(rules, server)
    ensures Strip(server) != "" && ValidHost(rules, Strip(server)) && '%' !in Strip(server)
  {
    var left, right := StripSplits(server);
    hide Strip;
  }

  lemma HostIsValid(rules: AddressRules, server: string)
    requires ValidHost(rules, Strip(server))
    ensures ValidateServerHost(rules, server)
  {}

  lemma NoZone(server: string)
    requires '%' !in server
    ensures Hostname(server) == Lower(server)
  {
    PartitionNone(server, '%');
    hide Lower;
  }

  lemma LowerNotNumeric(s: string)
    requires !Numeric(s)
    ensures !Numeric(Lower(s))
  {
    var c :| c in s && !('0' <= c <= '9' || c == '.');
    LowerMembers(s, c);
  }

  lemma UuidSurvives(uuid: string)
    requires UuidText(uuid)
    ensures Free(uuid) && ':' !in uuid && Plain(uuid)
  {}

  lemma DigitsAreFree(n: nat)
    ensures Free(Digits(n)) && ':' !in Digits(n)
  {}

  /** The authority reads back as user, host and port. */
  lemma AuthorityReads(rules: AddressRules, uuid: string, server: string, port: nat)
    requires UuidText(uuid) && Sensible(rules) && ServerText(rules, server)
    ensures var a := Authority(uuid, server, port);
            && RPartition(a, '@') == Parts(uuid, true, AuthorityHost(server) + ":" + Digits(port))
            && HostInfo(a) == HostPort(server, Digits(port))
            && ('[' in a <==> ']' in a) && NoDelimiter(a) && Calm(a)
  {
    UuidSurvives(uuid);
    ServerIsFree(rules, server);
    DigitsAreFree(port);
    FreeIsCalm(uuid);
    hide Digits, UuidText, ServerText, Sensible, Free;
    AuthorityOf(uuid, server, Digits(port));
  }

  lemma AuthorityOf(uuid: string, server: string, digits: string)
    requires Free(uuid) && server != "" && Free(server) && Free(digits) && ':' !in digits
    ensures var a := uuid + "@" + AuthorityHost(server) + ":" + digits;
            && RPartition(a, '@') == Parts(uuid, true, AuthorityHost(server) + ":" + digits)
            && HostInfo(a) == HostPort(server, digits)
            && ('[' in a <==> ']' in a) && NoDelimiter(a) && Calm(a)
  {
    FreeIsCalm(uuid);
    assert server[0] in server;
    hide Free;
    var info := AuthorityHost(server) + ":" + digits;
    assert uuid + "@" + AuthorityHost(server) + ":" + digits == uuid + ['@'] + info by { hide AuthorityHost; }
    InfoIsClean(server, digits);
    InfoReads(server, digits);
    RPartitionAt(uuid, '@', info);
    hide AuthorityHost, RPartition, Partition;
  }

  lemma InfoIsClean(server: string, digits: string)
    requires server != "" && Free(server) && Free(digits)
    ensures var info := AuthorityHost(server) + ":" + digits;
            Calm(info) && NoDelimiter(info) && '@' !in info && ('[' in info <==> ']' in info)
  {
    FreeIsCalm(server);
    FreeIsCalm(digits);
    assert server[0] in server;
    var info := AuthorityHost(server) + ":" + digits;
    if ':' in server { assert info[0] == '[' && info[|server| + 1] == ']'; }
  }

  lemma InfoReads(server: string, digits: string)
    requires server != "" && Free(server) && Free(digits) && ':' !in digits
    ensures var info := AuthorityHost(server) + ":" + digits;
            var open := Partition(info, '[');
            if ':' in server then
              open.found && Partition(open.after, ']') == Parts(server, true, ":" + digits)
              && Partition(":" + digits, ':').after == digits
            else
              !open.found && Partition(info, ':') == Parts(server, true, digits)
  {
    FreeIsCalm(server);
    FreeIsCalm(digits);
    assert server[0] in server;
    hide Free, Partition;
    if ':' in server { BracketedReads(server, digits); } else { PlainReads(server, digits); }
  }

  lemma BracketedReads(server: string, digits: string)
    requires ']' !in server
    ensures var open := Partition("[" + server + "]" + ":" + digits, '[');
            && open.found && Partition(open.after, ']') == Parts(server, true, ":" + digits)
            && Partition(":" + digits, ':').after == digits
  {
    var inner := server + "]" + (":" + digits);
    assert "[" + server + "]" + ":" + digits == "" + ['['] + inner;
    PartitionAt("", '[', inner);
    assert inner == server + [']'] + (":" + digits);
    PartitionAt(server, ']', ":" + digits);
    assert ":" + digits == "" + [':'] + digits;
    PartitionAt("", ':', digits);
    hide Partition;
  }

  lemma PlainReads(server: string, digits: string)
    requires '[' !in server && '[' !in digits && ':' !in server
    ensures !Partition(server + ":" + digits, '[').found
    ensures Partition(server + ":" + digits, ':') == Parts(server, true, digits)
  {
    PartitionNone(server + ":" + digits, '[');
    PartitionAt(server, ':', digits);
    hide Partition;
  }

  /** The text splits into authority, empty path and query; the fragment is dropped. */
  lemma UrlSplits(authority: string, query: string, fragment: string)
    requires NoDelimiter(authority) && '#' !in query
    ensures SplitUrl(authority + "?" + query + "#" + fragment) == Split(authority, "", query)
  {
    var tail := query + "#" + fragment;
    var rest := authority + "?" + tail;
    assert authority + "?" + query + "#" + fragment == rest;
    AuthorityEndAt(authority, tail);
    assert rest[..|authority|] == authority && rest[|authority|..] == ("?" + query) + ['#'] + fragment;
    PartitionAt("?" + query, '#', fragment);
    assert "?" + query == "" + ['?'] + query;
    PartitionAt("", '?', query);
  }

  /** With distinct keys, each key has the value written for it. */
  lemma {:induction false} DistinctKeysRead(pairs: seq<Pair>, i: nat)
    requires i < |pairs| && forall a, b :: 0 <= a < b < |pairs| ==> Lower(pairs[a].key) != Lower(pairs[b].key)
    ensures Get(FirstValues(pairs), Lower(pairs[i].key)) == pairs[i].value
    decreases |pairs|
  {
    var n := |pairs| - 1;
    var front := pairs[..n];
    if i < n {
      DistinctKeysRead(front, i);
      KeysCome(front, Lower(pairs[i].key));
    } else {
      KeysCome(front, Lower(pairs[n].key));
    }
  }

  lemma {:induction false} KeysCome(pairs: seq<Pair>, k: string)
    ensures k in FirstValues(pairs) <==> Named(pairs, |pairs|, k)
    decreases |pairs|
  {
    if pairs != [] {
      var n := |pairs| - 1;
      KeysCome(pairs[..n], k);
      if Named(pairs, |pairs|, k) && Lower(pairs[n].key) != k {
        var j :| 0 <= j < |pairs| && Lower(pairs[j].key) == k;
        assert pairs[..n][j] == pairs[j];
      }
    }
  }

  /** A key as written in a query, and as it is read: itself, or with escapes decoded. */
  predicate KeyReads(text: string, key: string) {
    && Unquote(PlusToSpace(text)) == key && '&' !in text && '#' !in text && Calm(text) && KeyText(Chomp(key))
  }

  lemma KeyReadsKey(text: string, key: string)
    requires KeyReads(text, key)
    ensures KeyText(Chomp(key))
  {}

  lemma KeyReadsItself(s: string)
    requires KeyText(s)
    ensures KeyReads(s, s) && Chomp(s) == s
  {
    KeyChars(s);
    assert Plain(s) && '#' !in s && Calm(s);
    PlainDecodes(s);
    ChompCalm(s);
    hide KeyText, Plain, Chomp, Calm, Unquote, PlusToSpace;
  }

  lemma KeyChars(s: string)
    requires KeyText(s)
    ensures forall c :: c in s ==> KeyChar(c) || c == '='
  {}

  lemma DnsChars(s: string)
    requires DnsName(s)
    ensures s != "" && Trimmed(s) && forall c :: c in s ==> DnsChar(c) || c == '.'
  {}

  lemma SniIsPlain(s: string)
    requires SniText(s)
    ensures s != "" && Plain(s) && Calm(s) && '#' !in s
  {
    DnsChars(Strip(s));
    hide DnsName, Strip;
    forall c | c in s ensures DnsChar(c) || c == '.' || IsSpace(c) { StrippedOf(s, c); }
    var left, right := StripSplits(s);
  }

  lemma ShortIdIsPlain(s: string)
    requires ShortIdText(s)
    ensures Plain(s) && Calm(s) && '#' !in s && ShortIdText(Lower(s)) && Chomp(s) == s
  {
    assert s != "" ==> s[|s| - 1] in s;
    forall c | c in Lower(s) ensures Hex(c) { LowerMembers(s, c); }
  }

  predicate Word(s: string) {
    forall c :: c in s ==> 'a' <= c <= 'z' || c == '-'
  }

  lemma WordFacts(s: string)
    requires Word(s)
    ensures Lower(s) == s && Plain(s) && '=' !in s && '#' !in s && Calm(s)
  {
    LowerFixes(s);
  }

  lemma ValuesAreWords()
    ensures Word("none") && Word("xtls-rprx-vision") && Word("reality") && Word("chrome") && Word("tcp")
  {}

  lemma NamesAreDistinct(i: nat, j: nat)
    requires i < j < 8
    ensures Name(i) != Name(j)
  {}

  lemma NameIsWord(i: nat)
    requires i < 8
    ensures Word(Name(i))
  {}

  /** A written pair and what it reads as. */
  predicate Reads(written: Pair, read: Pair) {
    && DecodesTo(written, read) && '#' !in PairText(written) && Calm(PairText(written))
    && written.key == read.key && Lower(read.key) == read.key
  }

  predicate ValueReads(text: string, value: string) {
    Unquote(PlusToSpace(text)) == value && '&' !in text && '#' !in text && Calm(text)
  }

  lemma PairReads(key: string, text: string, value: string)
    requires Word(key) && ValueReads(text, value)
    ensures Reads(Pair(key, text), Pair(key, value))
  {
    WordFacts(key);
    PlainDecodes(key);
    PartitionAt(key, '=', text);
  }

  lemma PlainReadsItself(v: string)
    requires Plain(v) && '#' !in v && Calm(v)
    ensures ValueReads(v, v)
  {
    PlainDecodes(v);
  }

  lemma FixedReads(v: string)
    requires Word(v)
    ensures ValueReads(v, v)
  {
    WordFacts(v);
    PlainReadsItself(v);
  }

  lemma ValuesRead(i: nat, sni: string, text: string, key: string, shortId: string)
    requires i < 8 && ValueReads(sni, sni) && ValueReads(text, key) && ValueReads(shortId, shortId)
    ensures ValueReads(Value(i, sni, text, shortId), Value(i, sni, key, shortId))
  {
    hide ValueReads, Word;
    ValuesAreWords();
    FixedReads("none");
    FixedReads("xtls-rprx-vision");
    FixedReads("reality");
    FixedReads("chrome");
    FixedReads("tcp");
  }

  lemma PairsReadAll(sni: string, text: string, key: string, shortId: string)
    requires SniText(sni) && KeyReads(text, key) && ShortIdText(shortId)
    ensures forall i :: 0 <= i < 8 ==> Reads(QueryPairs(sni, text, shortId)[i], QueryPairs(sni, key, shortId)[i])
  {
    SniIsPlain(sni);
    ShortIdIsPlain(shortId);
    PlainReadsItself(sni);
    PlainReadsItself(shortId);
    assert ValueReads(text, key);
    hide SniText, KeyReads, ShortIdText, ValueReads, Reads, Plain, Calm, Word, Name, Value;
    forall i | 0 <= i < 8 ensures Reads(QueryPairs(sni, text, shortId)[i], QueryPairs(sni, key, shortId)[i]) {
      NameIsWord(i);
      ValuesRead(i, sni, text, key, shortId);
      PairReads(Name(i), Value(i, sni, text, shortId), Value(i, sni, key, shortId));
    }
  }

  /** The query reads back as the eight values. */
  lemma QueryReads(sni: string, text: string, key: string, shortId: string)
    requires SniText(sni) && KeyReads(text, key) && ShortIdText(shortId)
    ensures var pairs, query := QueryPairs(sni, key, shortId), Join(QueryPairs(sni, text, shortId));
            && ParsePairs(query) == pairs && NoCriticalRepeat(pairs) && '#' !in query && Calm(query)
            && (forall i :: 0 <= i < 8 ==> Get(FirstValues(pairs), Name(i)) == pairs[i].value)
  {
    var written, read := QueryPairs(sni, text, shortId), QueryPairs(sni, key, shortId);
    PairsReadAll(sni, text, key, shortId);
    forall i, j | 0 <= i < j < 8 ensures read[i].key != read[j].key { NamesAreDistinct(i, j); }
    hide SniText, KeyReads, ShortIdText, Name, Value;
    PairsRead(written, read);
  }

  lemma PairsRead(written: seq<Pair>, read: seq<Pair>)
    requires |written| == |read| && forall i :: 0 <= i < |read| ==> Reads(written[i], read[i])
    requires forall i, j :: 0 <= i < j < |read| ==> read[i].key != read[j].key
    ensures var query := Join(written);
            && ParsePairs(query) == read && NoCriticalRepeat(read) && '#' !in query && Calm(query)
            && (forall i :: 0 <= i < |read| ==> Get(FirstValues(read), read[i].key) == read[i].value)
  {
    forall i | 0 <= i < |read|
      ensures DecodesTo(written[i], read[i]) && '#' !in PairText(written[i]) && Calm(PairText(written[i]))
      ensures Lower(read[i].key) == read[i].key
    {
      assert Reads(written[i], read[i]);
    }
    hide Reads, DecodesTo, Calm, PairText;
    JoinParses(written, read);
    JoinLacks(written, '#');
    JoinCalm(written);
    forall i | 0 <= i < |read| ensures Get(FirstValues(read), read[i].key) == read[i].value {
      DistinctKeysRead(read, i);
    }
  }

  lemma {:induction false} JoinLacks(pairs: seq<Pair>, bad: char)
    requires bad != '&' && forall i :: 0 <= i < |pairs| ==> bad !in PairText(pairs[i])
    ensures bad !in Join(pairs)
    decreases |pairs|
  {
    hide PairText;
    if pairs != [] { JoinLacks(pairs[1..], bad); }
  }

  lemma JoinCalm(pairs: seq<Pair>)
    requires forall i :: 0 <= i < |pairs| ==> Calm(PairText(pairs[i]))
    ensures Calm(Join(pairs))
  {
    forall i | 0 <= i < |pairs|
      ensures '\n' !in PairText(pairs[i]) && '\r' !in PairText(pairs[i]) && '\t' !in PairText(pairs[i])
    {
      assert Calm(PairText(pairs[i]));
    }
    hide PairText;
    JoinLacks(pairs, '\n');
    JoinLacks(pairs, '\r');
    JoinLacks(pairs, '\t');
  }

  /** The printed text after the scheme. */
  function AfterScheme(authority: string, query: string, tag: string): string {
    authority + "?" + query + "#" + ("vincula-" + tag)
  }

  /** A printed link starts with its scheme and ends with its tag, so stripping changes nothing. */
  lemma RenderedText(authority: string, query: string, tag: string)
    requires TagText(tag)
    ensures var uri := "vless://" + authority + "?" + query + "#" + "vincula-" + tag;
            && uri == "vless://" + AfterScheme(authority, query, tag) && Strip(uri) == uri && |uri| >= 8
            && uri[..8] == "vless://" && uri[8..] == AfterScheme(authority, query, tag)
  {
    var uri := "vless://" + authority + "?" + query + "#" + "vincula-" + tag;
    assert uri == "vless://" + AfterScheme(authority, query, tag);
    TagEnds(tag);
    assert uri[0] == 'v' && uri[|uri| - 1] == tag[|tag| - 1];
    TrimmedStrips(uri);
  }

  lemma TagEnds(tag: string)
    requires TagText(tag)
    ensures tag != "" && !IsSpace(tag[|tag| - 1]) && Calm(tag)
  {}

  lemma CalmText(authority: string, query: string, tag: string)
    requires Calm(authority) && Calm(query) && TagText(tag)
    ensures Calm(AfterScheme(authority, query, tag)) && Calm("vless://" + AfterScheme(authority, query, tag))
    ensures WithoutTabs(AfterScheme(authority, query, tag)) == AfterScheme(authority, query, tag)
  {
    TagEnds(tag);
    var rest := AfterScheme(authority, query, tag);
    FixedTextIsCalm();
    hide Calm, TagText;
    CalmConcat(authority, "?");
    CalmConcat(authority + "?", query);
    CalmConcat(authority + "?" + query, "#");
    CalmConcat("vincula-", tag);
    CalmConcat(authority + "?" + query + "#", "vincula-" + tag);
    CalmConcat("vless://", rest);
    assert '\t' !in rest by { CalmHasNoTab(rest); }
    NoTabs(rest);
  }

  lemma FixedTextIsCalm()
    ensures Calm("?") && Calm("#") && Calm("vincula-") && Calm("vless://")
  {}

  lemma CalmConcat(a: string, b: string)
    requires Calm(a) && Calm(b)
    ensures Calm(a + b)
  {}

  lemma CalmHasNoTab(s: string)
    requires Calm(s)
    ensures '\t' !in s
  {}

  lemma SchemeIsLower()
    ensures Lower("vless://") == "vless://"
  {
    LowerFixes("vless://");
  }

  /** The same with the key written as `text` and read as `key`. */
  lemma PrintedReads(rules: AddressRules, uuid: string, server: string, port: nat, sni: string, text: string,
                     key: string, shortId: string, tag: string)
    requires UuidText(uuid) && Sensible(rules) && ServerText(rules, server) && 1 <= port <= 65535
    requires SniText(sni) && KeyReads(text, key) && ShortIdText(shortId) && TagText(tag)
    ensures ParseLegacyVlessUri(rules, RenderVlessUri(uuid, server, port, sni, text, shortId, tag))
            == Ok(Fields(Lower(uuid), Lower(server), port, sni, key, Lower(shortId), "chrome"))
  {
    hide UuidText, SniText, KeyReads, ShortIdText, Sensible, ServerText, TagText;
    hide Authority, Join, QueryPairs, HostInfo, ParseSplit, SplitUrl, NoDelimiter, Name, Value, NoCriticalRepeat, Strip;
    var authority, query := Authority(uuid, server, port), Join(QueryPairs(sni, text, shortId));
    AuthorityReads(rules, uuid, server, port);
    QueryReads(sni, text, key, shortId);
    RenderedText(authority, query, tag);
    CalmText(authority, query, tag);
    SchemeIsLower();
    UrlSplits(authority, query, "vincula-" + tag);
    SplitParses(rules, uuid, server, port, sni, text, key, shortId);
  }

  /** Printing and parsing gives the same fields back, up to the case of UUID, host and short id. */
  lemma RoundTrip(rules: AddressRules, uuid: string, server: string, port: nat, sni: string, publicKey: string,
                  shortId: string, tag: string)
    requires UuidText(uuid) && Sensible(rules) && ServerText(rules, server) && 1 <= port <= 65535
    requires SniText(sni) && KeyText(publicKey) && ShortIdText(shortId) && TagText(tag)
    ensures ParseLegacyVlessUri(rules, RenderVlessUri(uuid, server, port, sni, publicKey, shortId, tag))
            == Ok(Fields(Lower(uuid), Lower(server), port, sni, publicKey, Lower(shortId), "chrome"))
  {
    hide ParseLegacyVlessUri, RenderVlessUri, UuidText, ServerText, SniText, KeyText, KeyReads, ShortIdText, TagText, Lower;
    KeyReadsItself(publicKey);
    PrintedReads(rules, uuid, server, port, sni, publicKey, publicKey, shortId, tag);
  }

  lemma UserReads(uuid: string)
    requires UuidText(uuid)
    ensures Partition(uuid, ':') == Parts(uuid, false, "") && Unquote(uuid) == uuid && Chomp(uuid) == uuid
  {
    UuidSurvives(uuid);
    PartitionNone(uuid, ':');
    PlainDecodes(uuid);
  }

  lemma PortReads(port: nat)
    ensures Digits(port) != "" && DigitsValue(Digits(port)) == Some(port)
  {
    DigitsRoundTrip(port);
  }

  lemma SplitParses(rules: AddressRules, uuid: string, server: string, port: nat, sni: string, text: string,
                    key: string, shortId: string)
    requires UuidText(uuid) && Sensible(rules) && ServerText(rules, server) && 1 <= port <= 65535
    requires SniText(sni) && KeyReads(text, key) && ShortIdText(shortId)
    ensures ParseSplit(rules, Split(Authority(uuid, server, port), "", Join(QueryPairs(sni, text, shortId))))
            == Ok(Fields(Lower(uuid), Lower(server), port, sni, key, Lower(shortId), "chrome"))
  {
    hide Chomp;
    hide UuidText, SniText, KeyText, KeyReads, ShortIdText, Sensible, ServerText, Authority, Join, QueryPairs, ValidateServerHost;
    hide Checked, HostInfo, Hostname, Name, Value, NoCriticalRepeat, Get, Calm, NoDelimiter, FirstValues, Free;
    AuthorityReads(rules, uuid, server, port);
    QueryReads(sni, text, key, shortId);
    LowerServer(rules, server);
    ServerIsFree(rules, server);
    KeyReadsKey(text, key);
    UserReads(uuid);
    PortReads(port);
    hide Digits, DigitsValue, Unquote, Partition, Chomp, ParsePairs, Lower;
    ValuesPass(uuid, Lower(server), port, FirstValues(QueryPairs(sni, key, shortId)), sni, key, shortId);
  }

  lemma ValuesPass(uuid: string, host: string, port: nat, qs: map<string, string>, sni: string, publicKey: string, shortId: string)
    requires SniText(sni) && KeyText(Chomp(publicKey)) && ShortIdText(shortId)
    requires forall i :: 0 <= i < 8 ==> Get(qs, Name(i)) == QueryPairs(sni, publicKey, shortId)[i].value
    ensures Checked(uuid, host, port, qs) == Ok(Fields(Lower(uuid), host, port, sni, publicKey, Lower(shortId), "chrome"))
  {
    hide SniText, KeyText, ShortIdText, Get, Lower, Checked;
    forall i | 0 <= i < 8 ensures Get(qs, Name(i)) == Value(i, sni, publicKey, shortId) {}
    hide QueryPairs;
    assert Get(qs, Name(0)) == "none" && Get(qs, Name(1)) == "xtls-rprx-vision" && Get(qs, Name(2)) == "reality";
    assert Get(qs, Name(3)) == sni && Get(qs, Name(4)) == "chrome" && Get(qs, Name(5)) == publicKey;
    assert Get(qs, Name(6)) == shortId && Get(qs, Name(7)) == "tcp";
    NamedValuesPass(uuid, host, port, qs, sni, publicKey, shortId);
  }

  /** The fixed parameters pass their checks. */
  predicate FixedFit(qs: map<string, string>) {
    && Get(qs, "flow") == "xtls-rprx-vision" && Lower(Get(qs, "security")) == "reality" && Lower(Get(qs, "fp")) == "chrome"
    && Lower(Or(Get(qs, "encryption"), "none")) == "none" && Lower(Or(Get(qs, "type"), "tcp")) == "tcp"
  }

  lemma FixedPass(qs: map<string, string>)
    requires Get(qs, "encryption") == "none" && Get(qs, "flow") == "xtls-rprx-vision" && Get(qs, "security") == "reality"
    requires Get(qs, "fp") == "chrome" && Get(qs, "type") == "tcp"
    ensures FixedFit(qs)
  {
    hide Get, Lower;
    LowerWords();
  }

  lemma NamedValuesPass(uuid: string, host: string, port: nat, qs: map<string, string>, sni: string, publicKey: string, shortId: string)
    requires SniText(sni) && KeyText(Chomp(publicKey)) && ShortIdText(shortId)
    requires Get(qs, "encryption") == "none" && Get(qs, "flow") == "xtls-rprx-vision" && Get(qs, "security") == "reality"
    requires Get(qs, "sni") == sni && Get(qs, "fp") == "chrome" && Get(qs, "pbk") == publicKey && Get(qs, "sid") == shortId
    requires Get(qs, "type") == "tcp"
    ensures Checked(uuid, host, port, qs) == Ok(Fields(Lower(uuid), host, port, sni, publicKey, Lower(shortId), "chrome"))
  {
    SniIsPlain(sni);
    ShortIdIsPlain(shortId);
    FixedPass(qs);
    KeyIsSome(publicKey);
    hide Chomp, KeyText, ShortIdText, Get, Plain, Calm, ValidateSniHost, Lower;
  }

  lemma KeyIsSome(key: string)
    requires KeyText(Chomp(key))
    ensures key != ""
  {}

  lemma LowerWords()
    ensures Lower("none") == "none" && Lower("reality") == "reality" && Lower("tcp") == "tcp" && Lower("chrome") == "chrome"
  {
    ValuesAreWords();
    WordFacts("none");
    WordFacts("reality");
    WordFacts("tcp");
    WordFacts("chrome");
  }

  /* ---------- and back ---------- */

  lemma LowerTwice(s: string)
    ensures Lower(Lower(s)) == Lower(s)
  {}

  lemma ChompLower(s: string)
    ensures Chomp(Lower(s)) == Lower(Chomp(s))
  {}

  lemma LowerUuid(s: string)
    requires UuidText(s)
    ensures UuidText(Lower(s))
  {}

  lemma ZoneShows(host: string)
    requires Partition(host, '%').found
    ensures '%' in Hostname(host)
  {}

  lemma HostnameIsLower(host: string)
    requires '%' !in Hostname(host)
    ensures Hostname(host) == Lower(host)
  {
    PartitionTells(host, '%');
    if Partition(host, '%').found { ZoneShows(host); }
  }

  /** The fields of an accepted link. */
  predicate Accepted(rules: AddressRules, f: Fields) {
    && UuidText(Chomp(f.uuid)) && Lower(f.uuid) == f.uuid
    && ValidateServerHost(rules, f.server) && Calm(f.server) && ('%' !in f.server ==> Lower(f.server) == f.server)
    && 1 <= f.port <= 65535 && ValidateSniHost(f.sni) && KeyText(Chomp(f.publicKey))
    && ShortIdText(Chomp(f.shortId)) && Lower(f.shortId) == f.shortId
  }

  lemma CheckedFields(rules: AddressRules, uuid: string, host: string, port: nat, qs: map<string, string>)
    requires Checked(uuid, Hostname(host), port, qs).Ok? && UuidText(Chomp(uuid))
    requires ValidateServerHost(rules, Hostname(host)) && Calm(Hostname(host)) && 1 <= port <= 65535
    ensures Accepted(rules, Checked(uuid, Hostname(host), port, qs).value)
  {
    hide ValidateServerHost, ValidateSniHost, KeyText, Get;
    var sid := Get(qs, "sid");
    ChompLower(uuid);
    ChompLower(sid);
    LowerUuid(Chomp(uuid));
    LowerTwice(uuid);
    LowerTwice(sid);
    LowerTwice(host);
    if '%' !in Hostname(host) { HostnameIsLower(host); }
    assert ShortIdText(Chomp(sid));
    ShortIdIsPlain(Chomp(sid));
    hide Lower, Hostname, UuidText, ShortIdText, Chomp, Calm;
  }

  lemma CalmParts(s: string, c: char)
    requires Calm(s)
    ensures Calm(Partition(s, c).before) && Calm(Partition(s, c).after) && Calm(RPartition(s, c).before) && Calm(RPartition(s, c).after)
  {
    PartitionTells(s, c);
    RPartitionTells(s, c);
    hide Partition, RPartition;
  }

  lemma CalmLower(s: string)
    requires Calm(s)
    ensures Calm(Lower(s))
  {}

  /** The host comes from text without line breaks and tabs. */
  lemma HostIsCalm(netloc: string)
    requires Calm(netloc)
    ensures Calm(Hostname(HostInfo(netloc).host))
  {
    var info := RPartition(netloc, '@').after;
    CalmParts(netloc, '@');
    CalmParts(info, '[');
    CalmParts(Partition(info, '[').after, ']');
    CalmParts(info, ':');
    var host := HostInfo(netloc).host;
    hide RPartition;
    assert Calm(host);
    CalmParts(host, '%');
    CalmLower(Partition(host, '%').before);
    hide Partition, Lower;
  }

  lemma NetlocIsCalm(raw: string)
    requires |raw| >= 8 && '\n' !in raw && '\r' !in raw
    ensures Calm(SplitUrl(WithoutTabs(raw[8..])).netloc)
  {
    var rest := WithoutTabs(raw[8..]);
    TabsGo(raw[8..]);
    var n := AuthorityEnd(rest);
    assert forall c :: c in rest[..n] ==> c in rest;
    assert SplitUrl(rest).netloc == rest[..n];
  }

  lemma AcceptedFields(rules: AddressRules, uri: string)
    requires ParseLegacyVlessUri(rules, uri).Ok?
    ensures Accepted(rules, ParseLegacyVlessUri(rules, uri).value)
  {
    hide Chomp, UuidText, ValidateServerHost, FirstValues, NoCriticalRepeat, Strip, Checked, Accepted, Hostname, HostInfo;
    hide Lower, Partition, RPartition, Unquote;
    var raw := Strip(uri);
    NetlocIsCalm(raw);
    hide SplitUrl, Calm, WithoutTabs;
    var u := SplitUrl(WithoutTabs(raw[8..]));
    HostIsCalm(u.netloc);
    var info := HostInfo(u.netloc);
    CheckedFields(rules, Unquote(Partition(RPartition(u.netloc, '@').before, ':').before), info.host,
                  DigitsValue(info.port).value, FirstValues(ParsePairs(u.query)));
  }

  /** The printed form of parsed fields. */
  function Printed(f: Fields, tag: string): string {
    RenderVlessUri(f.uuid, f.server, f.port, f.sni, f.publicKey, f.shortId, tag)
  }

  /** The four fields that come out of percent-decoding carry no stray. */
  predicate NoStray(f: Fields) {
    Calm(f.uuid) && Calm(f.publicKey) && Calm(f.shortId) && Calm(f.sni)
  }

  lemma ChompCalm(s: string)
    requires Calm(s)
    ensures Chomp(s) == s
  {
    assert s != "" ==> s[|s| - 1] in s;
  }

  lemma CleanReturns(rules: AddressRules, f: Fields, tag: string)
    requires Accepted(rules, f) && Sensible(rules) && TagText(tag) && '%' !in f.server && NoStray(f)
    ensures ParseLegacyVlessUri(rules, Printed(f, tag)) == Ok(f.(fingerprint := "chrome"))
  {
    ChompCalm(f.uuid);
    ChompCalm(f.publicKey);
    ChompCalm(f.shortId);
    hide ParseLegacyVlessUri, RenderVlessUri, UuidText, KeyText, ShortIdText, TagText, Sensible, Lower, Calm, Chomp;
    hide ValidateServerHost, ValidateSniHost;
    RoundTrip(rules, f.uuid, f.server, f.port, f.sni, f.publicKey, f.shortId, tag);
  }

  /** A line break in any of the four fields is a line break in the link. */
  lemma BreakShows(f: Fields, tag: string, c: char)
    requires c in f.uuid || c in f.publicKey || c in f.shortId || c in f.sni
    ensures c in Printed(f, tag)
  {
    var pairs := QueryPairs(f.sni, f.publicKey, f.shortId);
    assert pairs[3].value == f.sni && pairs[5].value == f.publicKey && pairs[6].value == f.shortId;
    if c in f.uuid {
      assert c in Authority(f.uuid, f.server, f.port);
    } else {
      var i: nat :| i < 8 && c in pairs[i].value;
      hide QueryPairs, Name, Value;
      JoinHolds(pairs, i, c);
    }
    hide Authority, Join;
  }

  lemma {:induction false} JoinHolds(pairs: seq<Pair>, i: nat, c: char)
    requires i < |pairs| && c in pairs[i].value
    ensures c in Join(pairs)
    decreases |pairs|
  {
    if i > 0 { JoinHolds(pairs[1..], i - 1, c); }
  }

  lemma BreakRefused(rules: AddressRules, f: Fields, tag: string)
    requires TagText(tag) && ('\n' in Printed(f, tag) || '\r' in Printed(f, tag))
    ensures ParseLegacyVlessUri(rules, Printed(f, tag)).Err?
  {
    hide Strip, ParseSplit, Authority, Join;
    RenderedText(Authority(f.uuid, f.server, f.port), Join(QueryPairs(f.sni, f.publicKey, f.shortId)), tag);
  }

  lemma {:induction false} JoinWithoutTabs(pairs: seq<Pair>, clean: seq<Pair>)
    requires |pairs| == |clean|
    requires forall i :: 0 <= i < |pairs| ==> clean[i] == Pair(WithoutTabs(pairs[i].key), WithoutTabs(pairs[i].value))
    ensures WithoutTabs(Join(pairs)) == Join(clean)
    decreases |pairs|
  {
    if pairs != [] {
      var p := pairs[0];
      WithoutTabsConcat(p.key + "=", p.value);
      WithoutTabsConcat(p.key, "=");
      NoTabs("=");
      assert WithoutTabs(PairText(p)) == PairText(clean[0]);
      hide PairText;
      if |pairs| > 1 {
        JoinWithoutTabs(pairs[1..], clean[1..]);
        WithoutTabsConcat(PairText(p) + "&", Join(pairs[1..]));
        WithoutTabsConcat(PairText(p), "&");
        NoTabs("&");
      }
    }
  }

  lemma QueryWithoutTabs(sni: string, publicKey: string, shortId: string)
    requires '\t' !in publicKey && '\t' !in shortId
    ensures WithoutTabs(Join(QueryPairs(sni, publicKey, shortId))) == Join(QueryPairs(WithoutTabs(sni), publicKey, shortId))
  {
    var pairs, clean := QueryPairs(sni, publicKey, shortId), QueryPairs(WithoutTabs(sni), publicKey, shortId);
    forall i | 0 <= i < 8 ensures clean[i] == Pair(WithoutTabs(pairs[i].key), WithoutTabs(pairs[i].value)) {
      NameIsWord(i);
      WordFacts(Name(i));
      NoTabs(Name(i));
      ValueWithoutTabs(i, sni, publicKey, shortId);
    }
    hide QueryPairs;
    JoinWithoutTabs(pairs, clean);
  }

  lemma ValueWithoutTabs(i: nat, sni: string, publicKey: string, shortId: string)
    requires i < 8 && '\t' !in publicKey && '\t' !in shortId
    ensures WithoutTabs(Value(i, sni, publicKey, shortId)) == Value(i, WithoutTabs(sni), publicKey, shortId)
  {
    hide WithoutTabs;
    NoTabs(publicKey);
    NoTabs(shortId);
    ValuesAreWords();
    TablessWord("none");
    TablessWord("xtls-rprx-vision");
    TablessWord("reality");
    TablessWord("chrome");
    TablessWord("tcp");
    hide Word;
  }

  lemma TablessWord(s: string)
    requires Word(s)
    ensures WithoutTabs(s) == s
  {
    NoTabs(s);
  }

  /** A link printed with tabs in the server name reads as the link without them. */
  lemma TabsReadAway(rules: AddressRules, f: Fields, tag: string)
    requires TagText(tag) && Calm(f.uuid) && Calm(f.server) && Calm(f.publicKey) && Calm(f.shortId)
    requires '\n' !in f.sni && '\r' !in f.sni
    ensures ParseLegacyVlessUri(rules, Printed(f, tag)) == ParseLegacyVlessUri(rules, Printed(f.(sni := WithoutTabs(f.sni)), tag))
  {
    var clean := f.(sni := WithoutTabs(f.sni));
    var authority := Authority(f.uuid, f.server, f.port);
    var query, query' := Join(QueryPairs(f.sni, f.publicKey, f.shortId)), Join(QueryPairs(clean.sni, f.publicKey, f.shortId));
    TabsGo(f.sni);
    AuthorityIsCalm(f.uuid, f.server, f.port);
    QueryHasNoBreaks(f.sni, f.publicKey, f.shortId);
    QueryHasNoBreaks(clean.sni, f.publicKey, f.shortId);
    QueryWithoutTabs(f.sni, f.publicKey, f.shortId);
    TabsGo(query);
    hide Authority, QueryPairs, Join, ParseSplit, SplitUrl;
    RenderedText(authority, query, tag);
    RenderedText(authority, query', tag);
    CalmText(authority, query', tag);
    NoBreaks(authority, query, tag);
    WithoutTabsText(authority, query, tag);
    hide Strip, TagText, AfterScheme, Calm, WithoutTabs;
  }

  lemma AuthorityIsCalm(uuid: string, server: string, port: nat)
    requires Calm(uuid) && Calm(server)
    ensures Calm(Authority(uuid, server, port))
  {
    DigitsAreFree(port);
    FreeIsCalm(Digits(port));
    hide Digits;
  }

  lemma QueryHasNoBreaks(sni: string, publicKey: string, shortId: string)
    requires Calm(publicKey) && Calm(shortId) && '\n' !in sni && '\r' !in sni
    ensures '\n' !in Join(QueryPairs(sni, publicKey, shortId)) && '\r' !in Join(QueryPairs(sni, publicKey, shortId))
  {
    var pairs := QueryPairs(sni, publicKey, shortId);
    forall i | 0 <= i < 8 ensures '\n' !in PairText(pairs[i]) && '\r' !in PairText(pairs[i]) {
      NameIsWord(i);
      WordFacts(Name(i));
      ValueHasNoBreaks(i, sni, publicKey, shortId);
    }
    hide QueryPairs, PairText;
    JoinLacks(pairs, '\n');
    JoinLacks(pairs, '\r');
  }

  lemma ValueHasNoBreaks(i: nat, sni: string, publicKey: string, shortId: string)
    requires i < 8 && Calm(publicKey) && Calm(shortId) && '\n' !in sni && '\r' !in sni
    ensures '\n' !in Value(i, sni, publicKey, shortId) && '\r' !in Value(i, sni, publicKey, shortId)
  {}

  lemma NoBreaks(authority: string, query: string, tag: string)
    requires Calm(authority) && '\n' !in query && '\r' !in query && TagText(tag)
    ensures var uri := "vless://" + AfterScheme(authority, query, tag); '\n' !in uri && '\r' !in uri
  {
    TagEnds(tag);
  }

  lemma WithoutTabsText(authority: string, query: string, tag: string)
    requires Calm(authority) && TagText(tag)
    ensures WithoutTabs(AfterScheme(authority, query, tag)) == AfterScheme(authority, WithoutTabs(query), tag)
  {
    TagEnds(tag);
    var end := "#" + ("vincula-" + tag);
    assert AfterScheme(authority, query, tag) == (authority + "?") + query + end;
    assert AfterScheme(authority, WithoutTabs(query), tag) == (authority + "?") + WithoutTabs(query) + end;
    WithoutTabsConcat((authority + "?") + query, end);
    WithoutTabsConcat(authority + "?", query);
    NoTabs(authority + "?");
    NoTabs(end);
  }

  /** The server name stays valid without its tabs: they can only stand around it. */
  lemma SniWithoutTabs(sni: string)
    requires ValidateSniHost(sni) && '\n' !in sni && '\r' !in sni
    ensures SniText(WithoutTabs(sni))
  {
    var left, right := StripSplits(sni);
    var m := Strip(sni);
    DnsChars(m);
    hide DnsName, Strip;
    TabsGo(left);
    TabsGo(right);
    TabsGo(sni);
    hide Trimmed;
    MiddleWithoutTabs(left, m, right);
    StripOf(WithoutTabs(left), m, WithoutTabs(right));
  }

  lemma MiddleWithoutTabs(left: string, m: string, right: string)
    requires '\t' !in m
    ensures WithoutTabs(left + m + right) == WithoutTabs(left) + m + WithoutTabs(right)
  {
    WithoutTabsConcat(left + m, right);
    WithoutTabsConcat(left, m);
    NoTabs(m);
  }

  /** Only the server name can carry a tab. */
  lemma TabIsInSni(rules: AddressRules, f: Fields)
    requires Accepted(rules, f)
    ensures '\t' !in f.uuid && '\t' !in f.publicKey && '\t' !in f.shortId
  {
    hide ValidateServerHost, ValidateSniHost, Lower, Calm;
    TablessChomp(f.uuid);
    TablessChomp(f.publicKey);
    TablessChomp(f.shortId);
    TablessPatterns(Chomp(f.uuid), Chomp(f.publicKey), Chomp(f.shortId));
  }

  lemma TablessChomp(s: string)
    ensures '\t' in s ==> '\t' in Chomp(s)
  {
    if '\t' in s {
      var i :| 0 <= i < |s| && s[i] == '\t';
      assert Chomp(s)[i] == '\t';
    }
  }

  lemma TablessPatterns(uuid: string, key: string, shortId: string)
    requires UuidText(uuid) && KeyText(key) && ShortIdText(shortId)
    ensures '\t' !in uuid && '\t' !in key && '\t' !in shortId
  {}

  /** Every accepted link prints and parses back to its own fields, the fingerprint becoming chrome, if and only
      if no line feed, carriage return or tab came in through percent-decoding. */
  lemma ParseThenPrintIff(rules: AddressRules, uri: string, tag: string)
    requires ParseLegacyVlessUri(rules, uri).Ok? && Sensible(rules) && TagText(tag)
    requires '%' !in ParseLegacyVlessUri(rules, uri).value.server
    ensures var f := ParseLegacyVlessUri(rules, uri).value;
            ParseLegacyVlessUri(rules, Printed(f, tag)) == Ok(f.(fingerprint := "chrome")) <==> NoStray(f)
  {
    AcceptedFields(rules, uri);
    var f := ParseLegacyVlessUri(rules, uri).value;
    hide ParseLegacyVlessUri, Printed, TagText, Sensible;
    if NoStray(f) { CleanReturns(rules, f, tag); } else { StrayFails(rules, f, tag); }
  }

  lemma StrayFails(rules: AddressRules, f: Fields, tag: string)
    requires Accepted(rules, f) && Sensible(rules) && TagText(tag) && '%' !in f.server && !NoStray(f)
    ensures ParseLegacyVlessUri(rules, Printed(f, tag)) != Ok(f.(fingerprint := "chrome"))
  {
    TabIsInSni(rules, f);
    if c :| c in ['\n', '\r'] && (c in f.uuid || c in f.publicKey || c in f.shortId || c in f.sni) {
      BreakShows(f, tag, c);
      BreakRefused(rules, f, tag);
    } else {
      assert '\n' in ['\n', '\r'] && '\r' in ['\n', '\r'];
      assert '\t' in f.sni;
      var clean := f.(sni := WithoutTabs(f.sni));
      SniWithoutTabs(f.sni);
      TabsGo(f.sni);
      hide ParseLegacyVlessUri, Printed, UuidText, KeyText, ShortIdText, TagText, Lower, Chomp, ValidateServerHost, ValidateSniHost;
      TabsReadAway(rules, f, tag);
      CleanReturns(rules, clean, tag);
    }
  }

  /* ---------- one link that does not come back ---------- */

  const UUID_0: string := seq(36, i => if i == 8 || i == 13 || i == 18 || i == 23 then '-' else '0')
  const KEY_A: string := seq(43, i => 'A')

  /** An accepted link whose key ends in an escaped line feed: it prints to a link the parser refuses. */
  lemma EscapedLineFeed(rules: AddressRules)
    requires Sensible(rules)
    ensures var uri := RenderVlessUri(UUID_0, "a.b", 443, "a.b", KEY_A + "%0A", "", "x");
            && ParseLegacyVlessUri(rules, uri).Ok?
            && ParseLegacyVlessUri(rules, uri).value.publicKey == KEY_A + "\n"
            && ParseLegacyVlessUri(rules, Printed(ParseLegacyVlessUri(rules, uri).value, "x")).Err?
  {
    var text, key := KEY_A + "%0A", KEY_A + "\n";
    EscapedKeyReads();
    SampleFields(rules);
    PrintedReads(rules, UUID_0, "a.b", 443, "a.b", text, key, "", "x");
    hide ParseLegacyVlessUri, RenderVlessUri, UuidText, ServerText, SniText, KeyReads, ShortIdText, TagText;
    var f := Fields(Lower(UUID_0), Lower("a.b"), 443, "a.b", key, Lower(""), "chrome");
    assert key[43] == '\n';
    BreakShows(f, "x", '\n');
    BreakRefused(rules, f, "x");
  }

  lemma SampleFields(rules: AddressRules)
    ensures UuidText(UUID_0) && ServerText(rules, "a.b") && SniText("a.b") && ShortIdText("") && TagText("x")
  {
    var s := "a.b";
    assert s[1] == '.' && s[0] == 'a';
    assert DnsName(s);
    DnsChars(s);
    TrimmedStrips(s);
    assert !Numeric(s) by { assert s[0] in s; }
  }

  lemma EscapedKeyReads()
    ensures KeyReads(KEY_A + "%0A", KEY_A + "\n")
  {
    SampleKey();
    LineFeedDecodes();
    hide KEY_A, Unquote, PlusToSpace;
    UnquoteConcat(KEY_A, "%0A");
    PlusConcat(KEY_A, "%0A");
    assert Chomp(KEY_A + "\n") == KEY_A;
  }

  lemma SampleKey()
    ensures KeyText(KEY_A) && Plain(KEY_A) && '#' !in KEY_A && Calm(KEY_A)
  {
    assert KeyBody(KEY_A, 43);
  }

  lemma LineFeedDecodes()
    ensures PlusToSpace("%0A") == "%0A" && Unquote("%0A") == "\n"
  {
    var s := "%0A";
    assert s[1..] == "0A" && s[1..][1..] == "A" && s[1..][1..][1..] == "";
    assert PlusToSpace("A") == "A" && PlusToSpace("0A") == "0A";
    assert s[3..] == "" && Unquote("") == "";
  }

  lemma {:induction false} UnquoteConcat(a: string, b: string)
    requires '%' !in a
    ensures Unquote(a + b) == a + Unquote(b)
  {
    if a == "" {
      assert a + b == b;
    } else {
      assert (a + b)[1..] == a[1..] + b && (a + b)[0] == a[0];
      UnquoteConcat(a[1..], b);
      assert a == [a[0]] + a[1..];
    }
  }

  lemma {:induction false} PlusConcat(a: string, b: string)
    requires '+' !in a
    ensures PlusToSpace(a + b) == a + PlusToSpace(b)
  {
    if a == "" {
      assert a + b == b;
    } else {
      assert (a + b)[1..] == a[1..] + b && (a + b)[0] == a[0];
      PlusConcat(a[1..], b);
      assert a == [a[0]] + a[1..];
    }
  }
}
