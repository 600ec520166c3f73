/** What workspace.json's state_digest is a hash of, and why that text pins the portable files down. */
module StateDigest {

  import opened Prelude

  const NUL: char := 0 as char

  /** PORTABLE_DIGEST_NAMES. */
  const FLEET: string := "fleet.json"
  const MANIFEST: string := "workspace.json"
  const HOSTS: string := "trust/known_hosts"
  const HISTORY: string := "history/instances.jsonl"

  /** One hashed file: its name, and its bytes (workspace.json with the digest field zeroed). */
  datatype Entry = Entry(name: string, data: string)

  /** The portable files; `None` where the file is absent. */
  datatype Files = Files(fleet: Option<string>, manifest: Option<string>, hosts: Option<string>, history: Option<string>)

  predicate NulFree(s: string) {
    NUL !in s
  }

  predicate Portable(name: string) {
    name == FLEET || name == MANIFEST || name == HOSTS || name == HISTORY
  }

  predicate EntryOk(e: Entry) {
    Portable(e.name) && NulFree(e.data)
  }

  function Present(name: string, data: Option<string>): seq<Entry> {
    if data.Some? then [Entry(name, data.value)] else []
  }

  function Entries(f: Files): seq<Entry> {
    Present(FLEET, f.fleet) + Present(MANIFEST, f.manifest) + Present(HOSTS, f.hosts) + Present(HISTORY, f.history)
  }

  function Hashed(e: Entry): string {
    e.name + [NUL] + e.data
  }

  function Concatenated(entries: seq<Entry>): string {
    if entries == [] then "" else
      Concatenated(entries[..|entries| - 1]) + Hashed(entries[|entries| - 1])
  }

  /** The bytes compute_state_digest feeds to SHA-256. */
  function Preimage(f: Files): string {
    Concatenated(Entries(f))
  }

  /** compute_state_digest: the loop over the portable names, skipping absent files. */
  method FeedDigest(f: Files) returns (fed: string)
    ensures fed == Preimage(f)
  {
    var names := [FLEET, MANIFEST, HOSTS, HISTORY];
    var contents := [f.fleet, f.manifest, f.hosts, f.history];
    ghost var done: seq<Entry> := [];
    fed := "";
    var i := 0;
    while i < 4
      invariant 0 <= i <= 4 && fed == Concatenated(done)
      invariant i == 0 ==> done == []
      invariant i == 1 ==> done == Present(FLEET, f.fleet)
      invariant i == 2 ==> done == Present(FLEET, f.fleet) + Present(MANIFEST, f.manifest)
      invariant i == 3 ==> done == Present(FLEET, f.fleet) + Present(MANIFEST, f.manifest) + Present(HOSTS, f.hosts)
      invariant i == 4 ==> done == Entries(f)
    {
      if contents[i].Some? {
        var e := Entry(names[i], contents[i].value);
        ghost var before := done;
        done := done + [e];
        assert done[..|done| - 1] == before;
        fed := fed + Hashed(e);
      }
      i := i + 1;
    }
  }

  /* ---------- one text, one list of files ---------- */

  /** No portable name ends another, and none contains a NUL. */
  lemma NamesAreSuffixFree(a: string, b: string, x: string, y: string)
    requires Portable(a) && Portable(b) && x + a == y + b
    ensures a == b && x == y
  {
    var s := x + a;
    var n := |s|;
    assert s[n - 1] == a[|a| - 1] == b[|b| - 1];
    assert s[n - 6] == a[|a| - 6] == b[|b| - 6];
    assert s[n - 7] == a[|a| - 7] == b[|b| - 7];
    assert a == b;
    assert x == s[..n - |a|] && y == s[..n - |b|];
  }

  lemma NoNulAfter(p: string, a: string)
    requires NulFree(a)
    ensures (p + [NUL] + a)[|p|] == NUL
    ensures forall i :: |p| < i < |p| + 1 + |a| ==> (p + [NUL] + a)[i] != NUL
  {}

  /** Splitting at the last NUL. */
  lemma LastNul(p: string, a: string, q: string, b: string)
    requires NulFree(a) && NulFree(b) && p + [NUL] + a == q + [NUL] + b
    ensures p == q && a == b
  {
    var s := p + [NUL] + a;
    var t := q + [NUL] + b;
    NoNulAfter(p, a);
    NoNulAfter(q, b);
    assert |p| == |q|;
    assert p == s[..|p|] && q == t[..|q|];
    assert a == s[|p| + 1..] && b == t[|q| + 1..];
  }

  lemma LastEntry(x: string, e: Entry, y: string, f: Entry)
    requires EntryOk(e) && EntryOk(f) && x + Hashed(e) == y + Hashed(f)
    ensures e == f && x == y
  {
    assert x + Hashed(e) == (x + e.name) + [NUL] + e.data;
    assert y + Hashed(f) == (y + f.name) + [NUL] + f.data;
    LastNul(x + e.name, e.data, y + f.name, f.data);
    NamesAreSuffixFree(e.name, f.name, x, y);
  }

  lemma NothingFromNothing(a: seq<Entry>)
    ensures Concatenated(a) == "" <==> a == []
  {}

  lemma {:induction false} ConcatenationIsInjective(a: seq<Entry>, b: seq<Entry>)
    requires (forall e :: e in a ==> EntryOk(e)) && (forall e :: e in b ==> EntryOk(e))
    requires Concatenated(a) == Concatenated(b)
    ensures a == b
    decreases |a|
  {
    NothingFromNothing(a);
    NothingFromNothing(b);
    if a != [] {
      hide EntryOk, Hashed;
      var m, n := |a| - 1, |b| - 1;
      assert a[m] in a && b[n] in b;
      LastEntry(Concatenated(a[..m]), a[m], Concatenated(b[..n]), b[n]);
      ConcatenationIsInjective(a[..m], b[..n]);
      assert a == a[..m] + [a[m]] && b == b[..n] + [b[n]];
    }
  }

  predicate NulFreeFile(data: Option<string>) {
    data.Some? ==> NulFree(data.value)
  }

  predicate NulFreeFiles(f: Files) {
    NulFreeFile(f.fleet) && NulFreeFile(f.manifest) && NulFreeFile(f.hosts) && NulFreeFile(f.history)
  }

  /** The file of a portable name. */
  function FileNamed(f: Files, name: string): Option<string> {
    if name == FLEET then f.fleet else if name == MANIFEST then f.manifest
    else if name == HOSTS then f.hosts else if name == HISTORY then f.history else None
  }

  lemma NamesAreDistinct()
    ensures FLEET != MANIFEST && FLEET != HOSTS && FLEET != HISTORY && MANIFEST != HOSTS && MANIFEST != HISTORY && HOSTS != HISTORY
  {
    assert FLEET[0] == 'f' && MANIFEST[0] == 'w' && HOSTS[0] == 't' && HISTORY[0] == 'h';
  }

  lemma PresentHolds(name: string, data: Option<string>, e: Entry)
    ensures e in Present(name, data) <==> e.name == name && data == Some(e.data)
  {}

  /** An entry is listed exactly when it is the file of its name. */
  lemma EntriesTell(f: Files, e: Entry)
    ensures e in Entries(f) <==> FileNamed(f, e.name) == Some(e.data)
  {
    hide FLEET, MANIFEST, HOSTS, HISTORY, Present;
    NamesAreDistinct();
    PresentHolds(FLEET, f.fleet, e);
    PresentHolds(MANIFEST, f.manifest, e);
    PresentHolds(HOSTS, f.hosts, e);
    PresentHolds(HISTORY, f.history, e);
  }

  lemma SameFile(f: Files, g: Files, name: string)
    requires Entries(f) == Entries(g)
    ensures FileNamed(f, name) == FileNamed(g, name)
  {
    hide Entries, FileNamed;
    if FileNamed(f, name).Some? {
      EntriesTell(f, Entry(name, FileNamed(f, name).value));
      EntriesTell(g, Entry(name, FileNamed(f, name).value));
    }
    if FileNamed(g, name).Some? {
      EntriesTell(f, Entry(name, FileNamed(g, name).value));
      EntriesTell(g, Entry(name, FileNamed(g, name).value));
    }
  }

  lemma NamedFiles(f: Files)
    ensures FileNamed(f, FLEET) == f.fleet && FileNamed(f, MANIFEST) == f.manifest
    ensures FileNamed(f, HOSTS) == f.hosts && FileNamed(f, HISTORY) == f.history
  {
    NamesAreDistinct();
    hide FLEET, MANIFEST, HOSTS, HISTORY;
  }

  lemma EntriesAreOk(f: Files, e: Entry)
    requires NulFreeFiles(f) && e in Entries(f)
    ensures EntryOk(e)
  {
    hide FLEET, MANIFEST, HOSTS, HISTORY, NulFree, Present;
    PresentHolds(FLEET, f.fleet, e);
    PresentHolds(MANIFEST, f.manifest, e);
    PresentHolds(HOSTS, f.hosts, e);
    PresentHolds(HISTORY, f.history, e);
  }

  /** Whatever subset of the files is present: NUL-free files with the same hash input are the same files. */
  lemma PreimageIsInjective(f: Files, g: Files)
    requires NulFreeFiles(f) && NulFreeFiles(g) && Preimage(f) == Preimage(g)
    ensures f == g
  {
    hide FLEET, MANIFEST, HOSTS, HISTORY, Entries, EntryOk, NulFreeFiles, FileNamed;
    forall e | e in Entries(f) ensures EntryOk(e) { EntriesAreOk(f, e); }
    forall e | e in Entries(g) ensures EntryOk(e) { EntriesAreOk(g, e); }
    ConcatenationIsInjective(Entries(f), Entries(g));
    SameFile(f, g, FLEET);
    SameFile(f, g, MANIFEST);
    SameFile(f, g, HOSTS);
    SameFile(f, g, HISTORY);
    NamedFiles(f);
    NamedFiles(g);
  }

  lemma OneEntry(e: Entry)
    ensures Concatenated([e]) == Hashed(e)
  {
    assert [e][..0] == [];
  }

  lemma TwoEntries(e: Entry, f: Entry)
    ensures Concatenated([e, f]) == Hashed(e) + Hashed(f)
  {
    assert [e, f][..1] == [e];
    OneEntry(e);
    hide Hashed;
  }

  /** The hashed text of a complete workspace, written out. */
  lemma CompletePreimage(fleet: string, manifest: string, hosts: string, history: string)
    ensures Preimage(Files(Some(fleet), Some(manifest), Some(hosts), Some(history)))
            == ("fleet.json" + [0 as char] + fleet) + ("workspace.json" + [0 as char] + manifest)
               + ("trust/known_hosts" + [0 as char] + hosts) + ("history/instances.jsonl" + [0 as char] + history)
  {
    var a, b, c, d := Entry(FLEET, fleet), Entry(MANIFEST, manifest), Entry(HOSTS, hosts), Entry(HISTORY, history);
    assert Entries(Files(Some(fleet), Some(manifest), Some(hosts), Some(history))) == [a, b, c, d];
    assert [a, b, c, d][..3] == [a, b, c] && [a, b, c][..2] == [a, b];
    TwoEntries(a, b);
    assert Concatenated([a, b, c]) == Concatenated([a, b]) + Hashed(c);
  }

  lemma Regroup(x: string, a: string, y: string, b: string)
    ensures (x + [NUL] + a) + (y + [NUL] + b) == x + [NUL] + (a + y + [NUL] + b)
  {}

  /** With a NUL inside a file the text is ambiguous: one file can spell out another. */
  lemma NulMakesItAmbiguous(a: string, b: string)
    ensures var split := Files(Some(a), None, Some(b), None);
            var joined := Files(Some(a + HOSTS + [NUL] + b), None, None, None);
            split != joined && Preimage(split) == Preimage(joined)
  {
    var split := Files(Some(a), None, Some(b), None);
    var joined := Files(Some(a + HOSTS + [NUL] + b), None, None, None);
    assert Entries(split) == [Entry(FLEET, a), Entry(HOSTS, b)];
    assert Entries(joined) == [Entry(FLEET, a + HOSTS + [NUL] + b)];
    hide Concatenated;
    TwoEntries(Entry(FLEET, a), Entry(HOSTS, b));
    OneEntry(Entry(FLEET, a + HOSTS + [NUL] + b));
    Regroup(FLEET, a, HOSTS, b);
  }
}
