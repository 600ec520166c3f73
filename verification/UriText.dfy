/** Splitting URI text the way the standard library does, and ASCII case folding. */
module UriText {

  import opened Prelude

  datatype Parts = Parts(before: string, found: bool, after: string)

  /** str.partition(c). */
  function Partition(s: string, c: char): Parts {
    if s == "" then Parts("", false, "")
    else if s[0] == c then Parts("", true, s[1..])
    else
      var p := Partition(s[1..], c);
      Parts([s[0]] + p.before, p.found, p.after)
  }

  /** str.rpartition(c), as (before, found, after); without c everything is `after`. */
  function RPartition(s: string, c: char): Parts {
    if s == "" then Parts("", false, "")
    else
      var n := |s| - 1;
      if s[n] == c then Parts(s[..n], true, "")
      else
        var p := RPartition(s[..n], c);
        Parts(p.before, p.found, p.after + [s[n]])
  }

  lemma {:induction false} PartitionAt(a: string, c: char, b: string)
    requires c !in a
    ensures Partition(a + [c] + b, c) == Parts(a, true, b)
    decreases a
  {
    var s := a + [c] + b;
    if a == "" {
      assert s[1..] == b;
    } else {
      assert s[1..] == a[1..] + [c] + b;
      PartitionAt(a[1..], c, b);
      assert a == [a[0]] + a[1..];
    }
  }

  lemma {:induction false} PartitionNone(a: string, c: char)
    requires c !in a
    ensures Partition(a, c) == Parts(a, false, "")
  {
    if a != "" {
      PartitionNone(a[1..], c);
      assert a == [a[0]] + a[1..];
    }
  }

  lemma {:induction false} RPartitionAt(a: string, c: char, b: string)
    requires c !in b
    ensures RPartition(a + [c] + b, c) == Parts(a, true, b)
    decreases b
  {
    var s := a + [c] + b;
    var n := |s| - 1;
    if b == "" {
      assert s[..n] == a;
    } else {
      var m := |b| - 1;
      assert s[..n] == a + [c] + b[..m] && s[n] == b[m];
      RPartitionAt(a, c, b[..m]);
      assert b == b[..m] + [b[m]];
    }
  }

  function LowerChar(c: char): char {
    if 'A' <= c <= 'Z' then (c as int + 32) as char else c
  }

  /** str.lower on ASCII text. */
  /** ASCII case folding: A to Z, 65 to 90, become 97 to 122. */
  lemma LowerCharacter(c: char)
    ensures LowerChar(c) == if 65 <= c as int <= 90 then (c as int + 32) as char else c
  {}

  function Lower(s: string): (r: string)
    ensures |r| == |s| && forall i :: 0 <= i < |s| ==> r[i] == LowerChar(s[i])
  {
    if s == "" then "" else [LowerChar(s[0])] + Lower(s[1..])
  }

  lemma LowerFixes(s: string)
    requires forall c :: c in s ==> LowerChar(c) == c
    ensures Lower(s) == s
  {}

  /** The authority ends at the first '/', '?' or '#'. */
  function AuthorityEnd(s: string): (n: nat)
    ensures n <= |s|
  {
    if s == "" || s[0] == '/' || s[0] == '?' || s[0] == '#' then 0 else 1 + AuthorityEnd(s[1..])
  }

  predicate NoDelimiter(s: string) {
    '/' !in s && '?' !in s && '#' !in s
  }

  lemma {:induction false} AuthorityEndAt(a: string, b: string)
    requires NoDelimiter(a)
    ensures AuthorityEnd(a + "?" + b) == |a|
    decreases a
  {
    var s := a + "?" + b;
    if a != "" {
      assert s[1..] == a[1..] + "?" + b;
      AuthorityEndAt(a[1..], b);
    }
  }

  /** urlsplit drops tabs wherever they are. */
  function WithoutTabs(s: string): string {
    if s == "" then "" else OrTab(s[0]) + WithoutTabs(s[1..])
  }

  function OrTab(c: char): string {
    if c == '\t' then "" else [c]
  }

  lemma {:induction false} NoTabs(s: string)
    requires '\t' !in s
    ensures WithoutTabs(s) == s
  {
    if s != "" { NoTabs(s[1..]); }
  }

  /* ---------- query strings ---------- */

  datatype Pair = Pair(key: string, value: string)

  function HexValue(c: char): Option<nat> {
    if '0' <= c <= '9' then Some(c as nat - '0' as nat)
    else if 'a' <= c <= 'f' then Some(c as nat - 'a' as nat + 10)
    else if 'A' <= c <= 'F' then Some(c as nat - 'A' as nat + 10)
    else None
  }

  /** Percent-decoding; escapes above 7F are read byte by byte. */
  function Unquote(s: string): string {
    if s == "" then ""
    else if s[0] == '%' && |s| >= 3 && HexValue(s[1]).Some? && HexValue(s[2]).Some? then
      [(16 * HexValue(s[1]).value + HexValue(s[2]).value) as char] + Unquote(s[3..])
    else [s[0]] + Unquote(s[1..])
  }

  function PlusToSpace(s: string): string {
    if s == "" then "" else [if s[0] == '+' then ' ' else s[0]] + PlusToSpace(s[1..])
  }

  predicate Plain(s: string) {
    '%' !in s && '+' !in s && '&' !in s
  }

  lemma {:induction false} PlainDecodes(s: string)
    requires Plain(s)
    ensures Unquote(PlusToSpace(s)) == s && Unquote(s) == s && PlusToSpace(s) == s
  {
    if s != "" {
      PlainDecodes(s[1..]);
      assert s == [s[0]] + s[1..];
    }
  }

  function DecodePair(piece: string): Pair {
    var p := Partition(piece, '=');
    Pair(Unquote(PlusToSpace(p.before)), Unquote(PlusToSpace(p.after)))
  }

  /** parse_qsl(query, keep_blank_values=True). */
  function ParsePairs(query: string): seq<Pair>
    decreases |query|
  {
    if query == "" then [] else
      var p := Partition(query, '&');
      PartitionShrinks(query, '&');
      (if p.before == "" then [] else [DecodePair(p.before)]) + ParsePairs(p.after)
  }

  lemma {:induction false} PartitionShrinks(s: string, c: char)
    requires s != ""
    ensures |Partition(s, c).after| < |s|
  {
    if s[0] != c && |s| > 1 { PartitionShrinks(s[1..], c); }
  }

  function PairText(p: Pair): string {
    p.key + "=" + p.value
  }

  function Join(pairs: seq<Pair>): string {
    if pairs == [] then ""
    else if |pairs| == 1 then PairText(pairs[0])
    else PairText(pairs[0]) + "&" + Join(pairs[1..])
  }

  /** One written pair reads as another; a plain pair reads as itself. */
  predicate DecodesTo(written: Pair, read: Pair) {
    DecodePair(PairText(written)) == read && '&' !in PairText(written)
  }

  /** Reading a query back gives what each written pair reads as. */
  lemma {:induction false} JoinParses(written: seq<Pair>, read: seq<Pair>)
    requires |written| == |read| && forall i :: 0 <= i < |read| ==> DecodesTo(written[i], read[i])
    ensures ParsePairs(Join(written)) == read
    decreases |written|
  {
    hide PairText, DecodePair;
    if written != [] {
      var first, rest := written[0], written[1..];
      assert DecodesTo(first, read[0]);
      TextIsSome(first);
      if rest == [] {
        PartitionNone(PairText(first), '&');
        assert ParsePairs("") == [];
      } else {
        JoinParses(rest, read[1..]);
        PartitionAt(PairText(first), '&', Join(rest));
      }
      assert read == [read[0]] + read[1..];
    }
  }

  lemma TextIsSome(p: Pair)
    ensures PairText(p) != ""
  {}

  lemma {:induction false} PartitionTells(s: string, c: char)
    ensures var p := Partition(s, c); if p.found then s == p.before + [c] + p.after else p == Parts(s, false, "")
  {
    if s != "" { PartitionTells(s[1..], c); }
  }

  lemma {:induction false} RPartitionTells(s: string, c: char)
    ensures var p := RPartition(s, c); if p.found then s == p.before + [c] + p.after else p == Parts("", false, s)
    decreases |s|
  {
    if s != "" {
      var n := |s| - 1;
      var front := s[..n];
      assert s == front + [s[n]];
      RPartitionTells(front, c);
      if s[n] != c && RPartition(front, c).found {
        var p := RPartition(front, c);
        Associate(p.before + [c], p.after, [s[n]]);
      }
    }
  }

  lemma Associate(a: string, b: string, c: string)
    ensures a + (b + c) == (a + b) + c
  {}

  lemma {:induction false} WithoutTabsConcat(a: string, b: string)
    ensures WithoutTabs(a + b) == WithoutTabs(a) + WithoutTabs(b)
  {
    hide OrTab;
    if a == "" {
      assert a + b == b;
    } else {
      WithoutTabsConcat(a[1..], b);
      assert (a + b)[1..] == a[1..] + b && (a + b)[0] == a[0] && a + b != "";
      Associate(OrTab(a[0]), WithoutTabs(a[1..]), WithoutTabs(b));
    }
  }

  lemma {:induction false} TabsGo(s: string)
    ensures '\t' !in WithoutTabs(s) && forall c :: c in WithoutTabs(s) ==> c in s
  {
    if s != "" { TabsGo(s[1..]); }
  }
}
