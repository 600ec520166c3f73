/** Installing a validated workspace archive over the live one: _commit_staged_workspace. */
module WorkspaceImport {

  import opened Prelude

  datatype Member = Manifest | Registry | KnownHosts | History

  type File = Option<string>

  datatype Tree = Tree(manifest: File, registry: File, hosts: File, history: File)

  /** EXPORT_MEMBERS. */
  const MEMBERS: seq<Member> := [Manifest, Registry, KnownHosts, History]

  function At(t: Tree, m: Member): File {
    match m
    case Manifest => t.manifest
    case Registry => t.registry
    case KnownHosts => t.hosts
    case History => t.history
  }

  function With(t: Tree, m: Member, f: File): (r: Tree)
    ensures At(r, m) == f && forall n :: n != m ==> At(r, n) == At(t, n)
  {
    match m
    case Manifest => t.(manifest := f)
    case Registry => t.(registry := f)
    case KnownHosts => t.(hosts := f)
    case History => t.(history := f)
  }

  lemma SameTree(a: Tree, b: Tree)
    requires forall m :: At(a, m) == At(b, m)
    ensures a == b
  {
    assert At(a, Manifest) == At(b, Manifest) && At(a, Registry) == At(b, Registry);
    assert At(a, KnownHosts) == At(b, KnownHosts) && At(a, History) == At(b, History);
  }

  /** The write that raises, with its file in place all the same when `landed`. */
  datatype Fault = Never | AtWrite(member: Member, landed: bool)

  /** Whether undoing one member raises (and is ignored). */
  datatype Undo = Undo(manifest: bool, registry: bool, hosts: bool, history: bool)

  predicate Fails(u: Undo, m: Member) {
    match m
    case Manifest => u.manifest
    case Registry => u.registry
    case KnownHosts => u.hosts
    case History => u.history
  }

  /** The live member after the first n were installed. */
  function InstalledAt(live: Tree, staging: Tree, n: nat, m: Member): File
    requires n <= |MEMBERS|
  {
    if m in MEMBERS[..n] && At(staging, m).Some? then At(staging, m) else At(live, m)
  }

  /** A member that a failed import leaves as it found it. */
  predicate Returned(live: Tree, staging: Tree, fault: Fault, undo: Undo, n: nat, m: Member)
    requires n <= |MEMBERS|
  {
    || At(staging, m).None? || At(staging, m) == At(live, m)
    || (!(m in MEMBERS[..n] && Fails(undo, m)) && !(n < |MEMBERS| && m == MEMBERS[n] && fault == AtWrite(m, true)))
  }

  /** File by file: a member stays changed only if undoing it failed, or its own write raised after the rename. */
  lemma ReturnedInFields(live: Tree, staging: Tree, fault: Fault, undo: Undo, n: nat)
    requires n <= |MEMBERS|
    ensures Returned(live, staging, fault, undo, n, Manifest) <==>
              Unchanged(live.manifest, staging.manifest) || !((n > 0 && undo.manifest) || (n == 0 && fault == AtWrite(Manifest, true)))
    ensures Returned(live, staging, fault, undo, n, Registry) <==>
              Unchanged(live.registry, staging.registry) || !((n > 1 && undo.registry) || (n == 1 && fault == AtWrite(Registry, true)))
    ensures Returned(live, staging, fault, undo, n, KnownHosts) <==>
              Unchanged(live.hosts, staging.hosts) || !((n > 2 && undo.hosts) || (n == 2 && fault == AtWrite(KnownHosts, true)))
    ensures Returned(live, staging, fault, undo, n, History) <==>
              Unchanged(live.history, staging.history) || !((n > 3 && undo.history) || (n == 3 && fault == AtWrite(History, true)))
  {
    assert MEMBERS[0] == Manifest && MEMBERS[1] == Registry && MEMBERS[2] == KnownHosts && MEMBERS[3] == History;
    forall i | 0 <= i < |MEMBERS| ensures MEMBERS[i] in MEMBERS[..n] <==> i < n {
      if i < n { assert MEMBERS[..n][i] == MEMBERS[i]; }
    }
  }

  predicate Unchanged(live: File, staged: File) {
    staged.None? || staged == live
  }

  class Workspace {

    var live: Tree

    constructor (live: Tree)
      ensures this.live == live
    {
      this.live := live;
    }

    /** The except clause: put back what was there, remove what was not; errors are ignored. */
    method PutBack(was: Tree, written: seq<Member>, undo: Undo)
      requires forall i, j :: 0 <= i < j < |written| ==> written[i] != written[j]
      modifies this
      ensures forall m :: At(live, m) == if m in written && !Fails(undo, m) then At(was, m) else At(old(live), m)
    {
      var i := 0;
      while i < |written|
        invariant 0 <= i <= |written|
        invariant forall m :: At(live, m) == if m in written[..i] && !Fails(undo, m) then At(was, m) else At(old(live), m)
      {
        assert written[..i + 1] == written[..i] + [written[i]] && written[i] !in written[..i];
        if !Fails(undo, written[i]) { live := With(live, written[i], At(was, written[i])); }
        i := i + 1;
      }
      assert written[..|written|] == written;
    }

    /** _commit_staged_workspace: all staged members go in, or, when a write raises after n members, the
        workspace is as before exactly for the members that were returned. */
    method CommitStaged(staging: Tree, fault: Fault, undo: Undo) returns (raised: bool, ghost n: nat)
      modifies this
      ensures raised <==> fault.AtWrite? && At(staging, fault.member).Some?
      ensures n <= |MEMBERS| && (raised ==> n < |MEMBERS| && MEMBERS[n] == fault.member)
      ensures !raised ==> forall m :: At(live, m) == if At(staging, m).Some? then At(staging, m) else At(old(live), m)
      ensures !raised ==> && live.manifest == (if staging.manifest.Some? then staging.manifest else old(live).manifest)
                          && live.registry == (if staging.registry.Some? then staging.registry else old(live).registry)
                          && live.hosts == (if staging.hosts.Some? then staging.hosts else old(live).hosts)
                          && live.history == (if staging.history.Some? then staging.history else old(live).history)
      ensures raised ==> (live == old(live) <==> forall m :: Returned(old(live), staging, fault, undo, n, m))
    {
      hide With, At, Underway, Returned;
      var was := live;
      var written: seq<Member> := [];
      var i := 0;
      NotYet(was, staging);
      while i < |MEMBERS|
        invariant 0 <= i <= |MEMBERS| && Underway(was, staging, live, written, i)
        invariant fault.AtWrite? && At(staging, fault.member).Some? ==> fault.member !in MEMBERS[..i]
      {
        var m := MEMBERS[i];
        assert MEMBERS[..i + 1] == MEMBERS[..i] + [m];
        OneMore(was, staging, live, written, i);
        if At(staging, m).Some? {
          if fault.AtWrite? && fault.member == m {
            if fault.landed { live := With(live, m, At(staging, m)); }
            ghost var torn := live;
            WrittenOnce(was, staging, written, i);
            PutBack(was, written, undo);
            ReturnedExactly(was, staging, fault, undo, i, torn, written, live);
            return true, i;
          }
          live := With(live, m, At(staging, m));
          written := written + [m];
        }
        i := i + 1;
      }
      AllInstalled(was, staging, live, written);
      FieldByField(was, staging, live);
      if fault.AtWrite? { EveryMember(fault.member); }
      return false, i;
    }
  }

  /** The first n members are installed, and `written` lists them. */
  ghost predicate Underway(was: Tree, staging: Tree, live: Tree, written: seq<Member>, n: nat)
    requires n <= |MEMBERS|
  {
    && (forall m :: At(live, m) == InstalledAt(was, staging, n, m))
    && (forall m :: m in written <==> m in MEMBERS[..n] && At(staging, m).Some?)
    && (forall a, b :: 0 <= a < b < |written| ==> written[a] != written[b])
  }

  lemma NotYet(was: Tree, staging: Tree)
    ensures Underway(was, staging, was, [], 0)
  {}

  lemma OneMore(was: Tree, staging: Tree, live: Tree, written: seq<Member>, n: nat)
    requires n < |MEMBERS| && Underway(was, staging, live, written, n)
    ensures MEMBERS[n] !in MEMBERS[..n]
    ensures if At(staging, MEMBERS[n]).Some? then
              Underway(was, staging, With(live, MEMBERS[n], At(staging, MEMBERS[n])), written + [MEMBERS[n]], n + 1)
            else Underway(was, staging, live, written, n + 1)
  {
    hide With, At;
    assert MEMBERS[..n + 1] == MEMBERS[..n] + [MEMBERS[n]];
  }

  lemma WrittenOnce(was: Tree, staging: Tree, written: seq<Member>, n: nat)
    requires n <= |MEMBERS| && exists live :: Underway(was, staging, live, written, n)
    ensures forall a, b :: 0 <= a < b < |written| ==> written[a] != written[b]
  {}

  lemma EveryMember(m: Member)
    ensures m in MEMBERS && m in MEMBERS[..|MEMBERS|]
  {}

  lemma AllInstalled(was: Tree, staging: Tree, live: Tree, written: seq<Member>)
    requires Underway(was, staging, live, written, |MEMBERS|)
    ensures forall m :: At(live, m) == if At(staging, m).Some? then At(staging, m) else At(was, m)
  {
    hide At;
    forall m ensures At(live, m) == if At(staging, m).Some? then At(staging, m) else At(was, m) {
      EveryMember(m);
    }
  }

  lemma FieldByField(was: Tree, staging: Tree, live: Tree)
    requires forall m :: At(live, m) == if At(staging, m).Some? then At(staging, m) else At(was, m)
    ensures live.manifest == (if staging.manifest.Some? then staging.manifest else was.manifest)
    ensures live.registry == (if staging.registry.Some? then staging.registry else was.registry)
    ensures live.hosts == (if staging.hosts.Some? then staging.hosts else was.hosts)
    ensures live.history == (if staging.history.Some? then staging.history else was.history)
  {
    assert At(live, Manifest) == live.manifest && At(live, Registry) == live.registry;
    assert At(live, KnownHosts) == live.hosts && At(live, History) == live.history;
  }

  lemma ReturnedExactly(was: Tree, staging: Tree, fault: Fault, undo: Undo, n: nat, torn: Tree, written: seq<Member>, back: Tree)
    requires n < |MEMBERS| && fault.AtWrite? && fault.member == MEMBERS[n] && At(staging, MEMBERS[n]).Some?
    requires MEMBERS[n] !in MEMBERS[..n]
    requires exists live :: Underway(was, staging, live, written, n)
                            && torn == if fault.landed then With(live, MEMBERS[n], At(staging, MEMBERS[n])) else live
    requires forall m :: At(back, m) == if m in written && !Fails(undo, m) then At(was, m) else At(torn, m)
    ensures back == was <==> forall m :: Returned(was, staging, fault, undo, n, m)
  {
    hide With;
    forall m ensures At(back, m) == At(was, m) <==> Returned(was, staging, fault, undo, n, m) {
      assert m in written <==> m in MEMBERS[..n] && At(staging, m).Some?;
    }
    hide Returned, At;
    if forall m :: Returned(was, staging, fault, undo, n, m) { SameTree(back, was); }
  }

  /** With writes that happen or do not, and an undo that works, a failed import leaves the workspace unchanged. */
  lemma AtomicImport(live: Tree, staging: Tree, fault: Fault, n: nat)
    requires n <= |MEMBERS| && !(fault.AtWrite? && fault.landed)
    ensures forall m :: Returned(live, staging, fault, Undo(false, false, false, false), n, m)
  {}
}
