/** The link parser's patterns, read as the regular expressions they are. */
module UriFormats {

  import opened Prelude
  import opened Wire
  import opened UriText
  import opened VlessUri

  predicate Digit(c: char) {
    48 <= c as int <= 57
  }

  predicate Letter(c: char) {
    65 <= c as int <= 90 || 97 <= c as int <= 122
  }

  lemma Characters(c: char)
    ensures DnsChar(c) <==> Letter(c) || Digit(c) || c == '-'
    ensures KeyChar(c) <==> Letter(c) || Digit(c) || c == '-' || c == '_'
    ensures Hex(c) <==> Digit(c) || 65 <= c as int <= 70 || 97 <= c as int <= 102
  {}

  /** [0-9a-f]{8}-[0-9a-f]{4}-[0-9a-f]{4}-[0-9a-f]{4}-[0-9a-f]{12}, in any case. */
  lemma UuidPattern(s: string)
    ensures UuidText(s) <==>
              |s| == 36 && s[8] == '-' && s[13] == '-' && s[18] == '-' && s[23] == '-'
              && (forall c :: c in s[..8] + s[9..13] + s[14..18] + s[19..23] + s[24..] ==> Hex(c))
  {
    if |s| == 36 {
      var hex := s[..8] + s[9..13] + s[14..18] + s[19..23] + s[24..];
      if UuidText(s) {
        forall c | c in hex ensures Hex(c) {
          var i :| 0 <= i < |hex| && hex[i] == c;
          var j := if i < 8 then i else if i < 12 then i + 1 else if i < 16 then i + 2 else if i < 20 then i + 3 else i + 4;
          assert s[j] == c;
        }
      }
      if forall c :: c in hex ==> Hex(c) {
        forall j | 0 <= j < 36 && j != 8 && j != 13 && j != 18 && j != 23 ensures Hex(s[j]) {
          var i := if j < 8 then j else if j < 13 then j - 1 else if j < 18 then j - 2 else if j < 23 then j - 3 else j - 4;
          assert hex[i] == s[j] && hex[i] in hex;
        }
      }
    }
  }

  predicate KeyOf(body: string, pad: string) {
    43 <= |body| <= 44 && |pad| <= 2 && (forall c :: c in body ==> KeyChar(c)) && (forall c :: c in pad ==> c == '=')
  }

  lemma KeySplits(s: string, n: nat)
    requires (n == 43 || n == 44) && KeyBody(s, n)
    ensures n <= |s| && KeyOf(s[..n], s[n..]) && s == s[..n] + s[n..]
  {
    hide KeyChar;
  }

  lemma KeyJoins(body: string, pad: string)
    requires KeyOf(body, pad)
    ensures KeyBody(body + pad, |body|)
  {
    hide KeyChar;
    var s := body + pad;
    forall i | 0 <= i < |body| ensures KeyChar(s[i]) { assert s[i] == body[i] && body[i] in body; }
    forall i | |body| <= i < |s| ensures s[i] == '=' { assert s[i] == pad[i - |body|] && pad[i - |body|] in pad; }
  }

  /** [A-Za-z0-9_-]{43,44}={0,2} */
  lemma KeyPattern(s: string)
    ensures KeyText(s) <==> exists body, pad :: KeyOf(body, pad) && s == body + pad
  {
    hide KeyBody, KeyOf;
    if KeyText(s) {
      var n := if KeyBody(s, 43) then 43 else 44;
      KeySplits(s, n);
      var front, rest := s[..n], s[n..];
      assert KeyOf(front, rest) && s == front + rest;
    }
    if body, pad :| KeyOf(body, pad) && s == body + pad {
      KeyJoins(body, pad);
      KeyLength(body, pad);
      assert KeyBody(s, |body|);
    }
  }

  lemma KeyLength(body: string, pad: string)
    requires KeyOf(body, pad)
    ensures |body| == 43 || |body| == 44
  {}

  /** [0-9a-f]{0,16}, in any case. */
  lemma ShortIdPattern(s: string)
    ensures ShortIdText(s) <==> |s| <= 16 && forall i :: 0 <= i < |s| ==> Hex(s[i])
  {
    hide Hex;
    assert forall i :: 0 <= i < |s| ==> s[i] in s;
  }

  predicate Label(l: string) {
    1 <= |l| <= 63 && l[0] != '-' && l[|l| - 1] != '-' && forall i :: 0 <= i < |l| ==> DnsChar(l[i])
  }

  /** label(\.label)* */
  predicate Labels(s: string)
    decreases |s|
  {
    var p := Partition(s, '.');
    if p.found then
      PartitionTells(s, '.');
      Label(p.before) && Labels(p.after)
    else Label(s)
  }

  /** DnsName without its bounds on the whole name. */
  predicate Dotted(s: string) {
    && s != "" && (forall i :: 0 <= i < |s| ==> DnsChar(s[i]) || s[i] == '.')
    && (forall i :: 0 <= i < |s| && (s[i] == '.' || s[i] == '-') ==> 0 < i < |s| - 1)
    && (forall i :: 0 <= i < |s| - 1 && s[i] == '.' ==> s[i + 1] != '.' && s[i + 1] != '-')
    && (forall i :: 0 <= i < |s| - 1 && s[i + 1] == '.' ==> s[i] != '-')
    && (forall i :: 64 <= i <= |s| ==> DotBefore(s, i))
  }

  lemma OneLabel(s: string)
    requires '.' !in s
    ensures Dotted(s) <==> Label(s)
  {
    assert |s| >= 64 ==> !DotBefore(s, 64);
    assert forall i :: 0 <= i < |s| ==> s[i] in s && s[i] != '.';
    hide DnsChar;
  }

  lemma FirstLabel(b: string, a: string)
    requires '.' !in b && Dotted(b + "." + a)
    ensures Label(b) && Dotted(a)
  {
    var s, n := b + "." + a, |b|;
    assert s[n] == '.';
    forall i | 0 <= i < n ensures s[i] == b[i] && b[i] in b {}
    forall i | 0 <= i < |a| ensures s[n + 1 + i] == a[i] {}
    assert n >= 64 ==> DotBefore(s, 64);
    hide DnsChar;
    assert a != "" ==> s[n + 1] == a[0];
    assert n > 0 ==> s[n - 1] != '-' && s[0] != '-';
    forall i | 64 <= i <= |a| ensures DotBefore(a, i) {
      assert DotBefore(s, i + n + 1);
      var j :| i + n + 1 - 64 <= j < i + n + 1 && 0 <= j && s[j] == '.';
      assert a[j - n - 1] == '.';
    }
    forall i | 0 <= i < |a| && (a[i] == '.' || a[i] == '-') ensures 0 < i < |a| - 1 {
      assert s[n + 1 + i] == a[i];
    }
    forall i | 0 <= i < |a| - 1 && a[i] == '.' ensures a[i + 1] != '.' && a[i + 1] != '-' {
      assert s[n + 1 + i] == '.' && s[n + 1 + i + 1] == a[i + 1];
    }
    forall i | 0 <= i < |a| - 1 && a[i + 1] == '.' ensures a[i] != '-' {
      assert s[n + 1 + i] == a[i] && s[n + 1 + i + 1] == '.';
    }
  }

  lemma LabelAndMore(b: string, a: string)
    requires Label(b) && Dotted(a)
    ensures Dotted(b + "." + a)
  {
    var s, n := b + "." + a, |b|;
    assert s[n] == '.';
    assert b[n - 1] == s[n - 1];
    forall i | 64 <= i <= |s| ensures DotBefore(s, i) {
      if i - n - 1 >= 64 {
        assert DotBefore(a, i - n - 1);
        var j :| i - n - 1 - 64 <= j < i - n - 1 && 0 <= j && a[j] == '.';
        assert s[j + n + 1] == '.';
      } else {
        assert i - 64 <= n < i;
      }
    }
    hide DotBefore;
  }

  lemma {:induction false} NoneBefore(s: string, c: char)
    ensures c !in Partition(s, c).before
  {
    if s != "" { NoneBefore(s[1..], c); }
  }

  lemma {:induction false} DottedIsLabels(s: string)
    ensures Dotted(s) <==> Labels(s)
    decreases |s|
  {
    hide Dotted, Label;
    var p := Partition(s, '.');
    PartitionTells(s, '.');
    NoneBefore(s, '.');
    if p.found {
      assert s == p.before + "." + p.after;
      DottedIsLabels(p.after);
      if Dotted(s) { FirstLabel(p.before, p.after); }
      if Labels(s) { LabelAndMore(p.before, p.after); }
    } else {
      OneLabel(s);
    }
  }

  /** At most 253 characters: label(\.label)+, a label being 1 to 63 letters, digits and hyphens, no hyphen at
      either end. */
  lemma DnsPattern(s: string)
    ensures DnsName(s) <==> |s| <= 253 && '.' in s && Labels(s)
  {
    DottedIsLabels(s);
    hide Labels;
  }

  /** [a-z0-9][a-z0-9._-]{0,31} */
  lemma TagPattern(s: string)
    ensures TagText(s) <==>
              |s| >= 1 && |s[1..]| <= 31 && (97 <= s[0] as int <= 122 || Digit(s[0]))
              && forall c :: c in s[1..] ==> 97 <= c as int <= 122 || Digit(c) || c == '.' || c == '_' || c == '-'
  {
    if |s| >= 1 { assert forall i :: 1 <= i < |s| ==> s[1..][i - 1] == s[i] && s[i] in s[1..]; }
  }

  predicate Missing(qs: map<string, string>, key: string) {
    key !in qs || qs[key] == ""
  }

  /** The query is accepted exactly for this profile: no encryption, Vision flow, Reality over TCP, a DNS name to
      show, a key, an optional short id, and a fingerprint that stands for chrome. */
  lemma QueryAccepted(uuid: string, host: string, port: nat, qs: map<string, string>)
    ensures Checked(uuid, host, port, qs).Ok? <==>
              && (Missing(qs, "encryption") || Lower(qs["encryption"]) == "none")
              && "flow" in qs && qs["flow"] == "xtls-rprx-vision"
              && "security" in qs && Lower(qs["security"]) == "reality"
              && (Missing(qs, "type") || Lower(qs["type"]) == "tcp")
              && !Missing(qs, "sni") && ValidateSniHost(qs["sni"])
              && !Missing(qs, "pbk") && KeyText(Chomp(qs["pbk"]))
              && (Missing(qs, "sid") || ShortIdText(Chomp(qs["sid"])))
              && (Missing(qs, "fp") || Lower(qs["fp"]) in {"chrome", "chrome_auto", "randomized"})
    ensures Checked(uuid, host, port, qs).Ok? ==>
              var f := Checked(uuid, host, port, qs).value;
              && f.uuid == Lower(uuid) && f.server == host && f.port == port
              && f.sni == qs["sni"] && f.publicKey == qs["pbk"]
              && f.shortId == (if "sid" in qs then Lower(qs["sid"]) else "")
              && f.fingerprint == (if Missing(qs, "fp") then "chrome" else Lower(qs["fp"]))
  {
    LowerBlank();
    FingerprintRead(qs);
    hide ValidateSniHost, KeyText, Lower, Chomp, ShortIdText, Checked, Missing, Get, Or;
    ReadOr(qs, "encryption", "none");
    ReadOr(qs, "type", "tcp");
    ReadOr(qs, "flow", "");
    ReadOr(qs, "security", "");
    ReadOr(qs, "sni", "");
    ReadOr(qs, "pbk", "");
    ReadOr(qs, "sid", "");
    QueryDecides(uuid, host, port, qs);
  }

  lemma ReadOr(qs: map<string, string>, key: string, default: string)
    ensures Or(Get(qs, key), default) == (if Missing(qs, key) then default else qs[key])
    ensures Get(qs, key) == (if key in qs then qs[key] else "") && (Get(qs, key) == "" <==> Missing(qs, key))
    ensures Missing(qs, key) && key in qs ==> qs[key] == ""
    ensures key !in qs ==> Missing(qs, key)
  {}

  lemma FingerprintRead(qs: map<string, string>)
    ensures var fp := Lower(Get(qs, "fp"));
            && (fp in ["", "chrome", "chrome_auto", "randomized"] <==>
                  Missing(qs, "fp") || Lower(qs["fp"]) in {"chrome", "chrome_auto", "randomized"})
            && Or(fp, "chrome") == (if Missing(qs, "fp") then "chrome" else Lower(qs["fp"]))
  {
    var s := Get(qs, "fp");
    LowerLength(s);
    hide Lower;
  }

  lemma QueryDecides(uuid: string, host: string, port: nat, qs: map<string, string>)
    ensures Checked(uuid, host, port, qs).Ok? <==>
              && Lower(Or(Get(qs, "encryption"), "none")) == "none" && Get(qs, "flow") == "xtls-rprx-vision"
              && Lower(Get(qs, "security")) == "reality" && Lower(Or(Get(qs, "type"), "tcp")) == "tcp"
              && Get(qs, "sni") != "" && ValidateSniHost(Get(qs, "sni")) && Get(qs, "pbk") != "" && KeyText(Chomp(Get(qs, "pbk")))
              && ShortIdText(Chomp(Get(qs, "sid"))) && Lower(Get(qs, "fp")) in ["", "chrome", "chrome_auto", "randomized"]
    ensures Checked(uuid, host, port, qs).Ok? ==>
              Checked(uuid, host, port, qs).value
              == Fields(Lower(uuid), host, port, Get(qs, "sni"), Get(qs, "pbk"), Lower(Get(qs, "sid")), Or(Lower(Get(qs, "fp")), "chrome"))
  {
    hide ValidateSniHost, KeyText, Lower, Chomp, ShortIdText, Get, Or;
  }

  lemma LowerBlank()
    ensures Lower("") == "" && "none" != "" && "reality" != "" && "tcp" != "" && Lower("none") == "none" && Lower("tcp") == "tcp"
    ensures ShortIdText(Chomp(""))
  {}

  lemma LowerLength(s: string)
    ensures |Lower(s)| == |s|
  {}

  /** A link is accepted exactly when its parts are; the scheme in any case, nothing after the authority but a
      slash, no password, and a port in decimal. */
  lemma LinkAccepted(rules: AddressRules, uri: string)
    ensures ParseLegacyVlessUri(rules, uri).Ok? <==>
              var raw := Strip(uri);
              && '\n' !in raw && '\r' !in raw && |raw| >= 8 && Lower(raw[..8]) == "vless://"
              && PartsAccepted(rules, SplitUrl(WithoutTabs(raw[8..])))
  {
    hide Strip, Lower, SplitUrl, ParseSplit, PartsAccepted, WithoutTabs;
    var raw := Strip(uri);
    if |raw| >= 8 { PartsDecide(rules, SplitUrl(WithoutTabs(raw[8..]))); }
  }

  predicate PartsAccepted(rules: AddressRules, u: Split) {
    var user := Partition(RPartition(u.netloc, '@').before, ':');
    var info := HostInfo(u.netloc);
    var host, port := Hostname(info.host), DigitsValue(info.port);
    && ('[' in u.netloc <==> ']' in u.netloc) && !user.found && u.path in {"", "/"} && UuidText(Chomp(Unquote(user.before)))
    && host != "" && ValidateServerHost(rules, host) && port.Some? && 1 <= port.value <= 65535
    && NoCriticalRepeat(ParsePairs(u.query))
    && Checked(Unquote(user.before), host, port.value, FirstValues(ParsePairs(u.query))).Ok?
  }

  lemma PartsDecide(rules: AddressRules, u: Split)
    ensures ParseSplit(rules, u).Ok? <==> PartsAccepted(rules, u)
    ensures ParseSplit(rules, u).Ok? ==>
              ParseSplit(rules, u) == Checked(Unquote(Partition(RPartition(u.netloc, '@').before, ':').before),
                                              Hostname(HostInfo(u.netloc).host), DigitsValue(HostInfo(u.netloc).port).value,
                                              FirstValues(ParsePairs(u.query)))
  {
    hide Checked, UuidText, ValidateServerHost, NoCriticalRepeat, FirstValues, ParsePairs, Partition, RPartition, Hostname, HostInfo, Unquote;
  }

  lemma JoinFrom(pairs: seq<Pair>, i: nat)
    requires i < |pairs|
    ensures Join(pairs[i..]) == if i == |pairs| - 1 then PairText(pairs[i]) else PairText(pairs[i]) + "&" + Join(pairs[i + 1..])
  {
    assert pairs[i..][1..] == pairs[i + 1..];
    hide PairText;
  }

  lemma PairsAre(sni: string, publicKey: string, shortId: string)
    ensures QueryPairs(sni, publicKey, shortId)
            == [Pair("encryption", "none"), Pair("flow", "xtls-rprx-vision"), Pair("security", "reality"), Pair("sni", sni),
                Pair("fp", "chrome"), Pair("pbk", publicKey), Pair("sid", shortId), Pair("type", "tcp")]
  {}

  lemma EightPairs(q: seq<Pair>)
    requires |q| == 8
    ensures Join(q) == PairText(q[0]) + "&" + (PairText(q[1]) + "&" + (PairText(q[2]) + "&" + (PairText(q[3]) + "&"
                       + (PairText(q[4]) + "&" + (PairText(q[5]) + "&" + (PairText(q[6]) + "&" + PairText(q[7])))))))
  {
    assert q[0..] == q;
    hide Join, PairText;
    JoinFrom(q, 0);
    JoinFrom(q, 1);
    JoinFrom(q, 2);
    JoinFrom(q, 3);
    JoinFrom(q, 4);
    JoinFrom(q, 5);
    JoinFrom(q, 6);
    JoinFrom(q, 7);
  }

  /** The printed link, written out. */
  lemma PrintedText(uuid: string, server: string, port: nat, sni: string, publicKey: string, shortId: string, tag: string)
    ensures RenderVlessUri(uuid, server, port, sni, publicKey, shortId, tag)
            == "vless://" + (uuid + "@" + AuthorityHost(server) + ":" + Digits(port)) + "?"
               + ("encryption" + "=" + "none" + "&" + ("flow" + "=" + "xtls-rprx-vision" + "&" + ("security" + "=" + "reality" + "&"
                  + ("sni" + "=" + sni + "&" + ("fp" + "=" + "chrome" + "&" + ("pbk" + "=" + publicKey + "&"
                  + ("sid" + "=" + shortId + "&" + ("type" + "=" + "tcp"))))))))
               + "#" + "vincula-" + tag
  {
    PairsAre(sni, publicKey, shortId);
    EightPairs(QueryPairs(sni, publicKey, shortId));
    hide Join, AuthorityHost, Digits, QueryPairs;
  }
}
