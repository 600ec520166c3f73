/** Safe restore rotates credentials: the user part of build_restore_plan, and the links it hands out. */
module CredentialRotation {

  import opened Prelude
  import opened UriText
  import opened VlessUri

  const ACTIVE: string := "active"
  const REVOKED: string := "revoked"
  const OWNER: string := "owner"

  datatype Credential = Credential(
    id: string, nodeId: string, uuid: Option<string>, status: string, createdAt: string, revokedAt: Option<string>)

  datatype User = User(tag: string, credentials: seq<Credential>)

  datatype Ids = Ids(credentialId: string, uuid: string)

  /** One row of the reissue CSV. */
  datatype Link = Link(user: string, node: string, oldId: string, newId: string, uri: string)

  /** The target node; `given` are ids chosen by the caller, and `mint(n)` is the n-th pair drawn. */
  datatype Target = Target(
    nodeId: string, nodeName: string, server: string, port: nat, sni: string, publicKey: string, shortId: string,
    now: string, given: map<string, Ids>, mint: nat -> Ids)

  function Pick(t: Target, oldId: string, n: nat): Ids {
    var g := if oldId in t.given then t.given[oldId] else Ids("", "");
    Ids(Or(g.credentialId, t.mint(n).credentialId), Or(g.uuid, t.mint(n).uuid))
  }

  function Active(creds: seq<Credential>): seq<Credential> {
    if creds == [] then [] else
      var n := |creds| - 1;
      Active(creds[..n]) + if creds[n].status == ACTIVE then [creds[n]] else []
  }

  /** An archived credential: without its uuid, and revoked if it was active. */
  function Retire(t: Target, c: Credential): Credential {
    if c.status == ACTIVE then c.(uuid := None, status := REVOKED, revokedAt := Some(t.now)) else c.(uuid := None)
  }

  function Fresh(t: Target, c: Credential, n: nat): Credential {
    var ids := Pick(t, c.id, n);
    Credential(ids.credentialId, t.nodeId, Some(ids.uuid), ACTIVE, t.now, None)
  }

  function LinkFor(t: Target, tag: string, c: Credential, n: nat): Link {
    var ids := Pick(t, c.id, n);
    Link(tag, t.nodeName, c.id, ids.credentialId,
         RenderVlessUri(ids.uuid, t.server, t.port, t.sni, t.publicKey, t.shortId, tag))
  }

  /** `staged` is what safe mode makes of `creds`, with the n-th draw next: all of them retired, in order, then
      one fresh credential for each active one, in order. */
  ghost predicate Rotates(t: Target, creds: seq<Credential>, n: nat, staged: seq<Credential>) {
    var active := Active(creds);
    && |staged| == |creds| + |active|
    && (forall i :: 0 <= i < |creds| ==> staged[i] == Retire(t, creds[i]))
    && (forall i :: 0 <= i < |active| ==> staged[|creds| + i] == Fresh(t, active[i], n + i))
  }

  ghost predicate LinksFor(t: Target, tag: string, creds: seq<Credential>, n: nat, links: seq<Link>) {
    var active := Active(creds);
    && |links| == |active|
    && forall i :: 0 <= i < |links| ==> links[i] == LinkFor(t, tag, active[i], n + i)
  }

  /** Draws used up by the first k users: one for each active credential. */
  function Drawn(users: seq<User>, k: nat): nat
    requires k <= |users|
  {
    if k == 0 then 0 else Drawn(users, k - 1) + |Active(users[k - 1].credentials)|
  }

  lemma {:induction false} DrawnGrows(users: seq<User>, j: nat, k: nat)
    requires j <= k <= |users|
    ensures Drawn(users, j) <= Drawn(users, k)
    decreases k
  {
    if j < k { DrawnGrows(users, j, k - 1); }
  }

  ghost predicate Staged(t: Target, users: seq<User>, staged: seq<User>, links: seq<Link>) {
    && |staged| == |users| && |links| == Drawn(users, |users|)
    && forall k :: 0 <= k < |users| ==> UserStaged(t, users, staged, links, k)
  }

  ghost predicate UserStaged(t: Target, users: seq<User>, staged: seq<User>, links: seq<Link>, k: nat)
    requires k < |staged| <= |users| && |links| == Drawn(users, |staged|)
  {
    DrawnGrows(users, k + 1, |staged|);
    && staged[k].tag == users[k].tag
    && Rotates(t, users[k].credentials, Drawn(users, k), staged[k].credentials)
    && LinksFor(t, users[k].tag, users[k].credentials, Drawn(users, k), links[Drawn(users, k)..Drawn(users, k + 1)])
  }

  predicate HasUuid(users: seq<User>, uuid: string) {
    exists k, i :: 0 <= k < |users| && 0 <= i < |users[k].credentials| && users[k].credentials[i].uuid == Some(uuid)
                   && uuid != ""
  }

  /** The credential loop of one user. */
  method RotateUser(t: Target, user: User, n: nat) returns (staged: User, links: seq<Link>)
    ensures staged.tag == user.tag && Rotates(t, user.credentials, n, staged.credentials)
    ensures LinksFor(t, user.tag, user.credentials, n, links)
  {
    hide Retire, Fresh, LinkFor;
    var creds := user.credentials;
    var kept: seq<Credential>, added: seq<Credential> := [], [];
    links := [];
    var i := 0;
    while i < |creds|
      invariant 0 <= i <= |creds| && |kept| == i && |added| == |links| == |Active(creds[..i])|
      invariant forall j :: 0 <= j < i ==> kept[j] == Retire(t, creds[j])
      invariant forall j :: 0 <= j < |added| ==> added[j] == Fresh(t, Active(creds[..i])[j], n + j)
      invariant forall j :: 0 <= j < |links| ==> links[j] == LinkFor(t, user.tag, Active(creds[..i])[j], n + j)
    {
      var c := creds[i];
      assert creds[..i + 1][..i] == creds[..i];
      kept := kept + [Retire(t, c)];
      if c.status == ACTIVE {
        added := added + [Fresh(t, c, n + |added|)];
        links := links + [LinkFor(t, user.tag, c, n + |links|)];
      }
      i := i + 1;
    }
    assert creds[..|creds|] == creds;
    staged := User(user.tag, kept + added);
  }

  /** Safe mode for all users; `None` where a backup uuid would come back. */
  method RotateCredentials(t: Target, users: seq<User>) returns (staged: Option<seq<User>>, links: seq<Link>)
    ensures staged.Some? ==> Staged(t, users, staged.value, links)
    ensures staged.Some? ==> forall u :: HasUuid(users, u) ==> !HasUuid(staged.value, u)
    ensures staged.None? ==> exists all, u :: Staged(t, users, all, links) && HasUuid(users, u) && HasUuid(all, u)
  {
    hide Rotates, LinksFor;
    var all: seq<User> := [];
    links := [];
    var k := 0;
    while k < |users|
      invariant 0 <= k <= |users| && |all| == k && |links| == Drawn(users, k)
      invariant forall j :: 0 <= j < k ==> UserStaged(t, users, all, links, j)
    {
      var user, more := RotateUser(t, users[k], |links|);
      assert |more| == |Active(users[k].credentials)| by { LinkCount(t, users[k], |links|, more); }
      ghost var all', links' := all + [user], links + more;
      assert |links'| == Drawn(users, k + 1);
      forall j | 0 <= j < k + 1 ensures UserStaged(t, users, all', links', j) {
        if j < k {
          DrawnGrows(users, j + 1, k);
          assert UserStaged(t, users, all, links, j);
          assert links'[Drawn(users, j)..Drawn(users, j + 1)] == links[Drawn(users, j)..Drawn(users, j + 1)];
        } else {
          assert links'[Drawn(users, k)..Drawn(users, k + 1)] == more;
        }
      }
      all, links := all + [user], links + more;
      k := k + 1;
    }
    assert Staged(t, users, all, links);
    var before, after := UuidsOf(users), UuidsOf(all);
    if before * after != {} {
      var u :| u in before && u in after;
      assert HasUuid(users, u) && HasUuid(all, u);
      return None, links;
    }
    forall u | HasUuid(users, u) ensures !HasUuid(all, u) {
      assert u in before && u !in before * after;
    }
    return Some(all), links;
  }

  lemma LinkCount(t: Target, user: User, n: nat, links: seq<Link>)
    requires LinksFor(t, user.tag, user.credentials, n, links)
    ensures |links| == |Active(user.credentials)|
  {}

  function UuidsOf(users: seq<User>): (s: set<string>)
    ensures forall u :: u in s <==> HasUuid(users, u)
  {
    set k, i | 0 <= k < |users| && 0 <= i < |users[k].credentials| && users[k].credentials[i].uuid.Some?
               && users[k].credentials[i].uuid.value != "" :: users[k].credentials[i].uuid.value
  }

  /* ---------- what a rotation keeps ---------- */

  lemma {:induction false} ActiveConcat(a: seq<Credential>, b: seq<Credential>)
    ensures Active(a + b) == Active(a) + Active(b)
    decreases b
  {
    if b == [] {
      assert a + b == a;
    } else {
      var m := |b| - 1;
      ActiveConcat(a, b[..m]);
      assert (a + b)[..|a + b| - 1] == a + b[..m];
    }
  }

  lemma {:induction false} AllActive(creds: seq<Credential>)
    requires forall i :: 0 <= i < |creds| ==> creds[i].status == ACTIVE
    ensures Active(creds) == creds
  {
    if creds != [] {
      var n := |creds| - 1;
      AllActive(creds[..n]);
      assert creds == creds[..n] + [creds[n]];
    }
  }

  lemma {:induction false} NoneActive(creds: seq<Credential>)
    requires forall i :: 0 <= i < |creds| ==> creds[i].status != ACTIVE
    ensures Active(creds) == []
  {
    if creds != [] { NoneActive(creds[..|creds| - 1]); }
  }

  /** The active credentials afterwards are exactly the fresh ones, one for each that was active before; every
      credential that came from the backup has lost its uuid. */
  lemma RotationReplaces(t: Target, creds: seq<Credential>, n: nat, staged: seq<Credential>)
    requires Rotates(t, creds, n, staged)
    ensures Active(staged) == staged[|creds|..] && |Active(staged)| == |Active(creds)|
    ensures forall i :: 0 <= i < |creds| ==> staged[i].uuid.None? && staged[i].status != ACTIVE && staged[i].id == creds[i].id
    ensures forall c :: c in staged && c.uuid.Some? ==> c in Active(staged)
  {
    hide Retire, Fresh, Active;
    var front, back := staged[..|creds|], staged[|creds|..];
    assert staged == front + back;
    forall i | 0 <= i < |creds| ensures staged[i].uuid.None? && staged[i].status != ACTIVE && staged[i].id == creds[i].id {
      RetiredIs(t, creds[i]);
    }
    forall i | 0 <= i < |back| ensures back[i].status == ACTIVE {
      FreshAt(t, creds, n, staged, i);
      FreshIs(t, Active(creds)[i], n + i);
    }
    hide Rotates;
    FreshIsActive(front, back);
  }

  /** A rotation column by column. A credential from the backup loses its uuid; an active one is revoked now. Its
      replacement belongs to the target node, is active since now, and carries the given ids, or the drawn ones
      where none are given. */
  lemma RotationInColumns(t: Target, creds: seq<Credential>, n: nat, staged: seq<Credential>)
    requires Rotates(t, creds, n, staged)
    ensures forall i :: 0 <= i < |creds| ==>
              var was, now := creds[i], staged[i];
              && now.id == was.id && now.nodeId == was.nodeId && now.createdAt == was.createdAt && now.uuid.None?
              && (if was.status == "active" then now.status == "revoked" && now.revokedAt == Some(t.now)
                  else now.status == was.status && now.revokedAt == was.revokedAt)
    ensures forall i :: 0 <= i < |Active(creds)| ==> Replaces(t, Active(creds)[i], n + i, staged[|creds| + i])
  {
    hide Active;
  }

  predicate Replaces(t: Target, old': Credential, n: nat, c: Credential) {
    var given := if old'.id in t.given then t.given[old'.id] else Ids("", "");
    && c.nodeId == t.nodeId && c.status == "active" && c.createdAt == t.now && c.revokedAt.None?
    && c.id == (if given.credentialId != "" then given.credentialId else t.mint(n).credentialId)
    && c.uuid == Some(if given.uuid != "" then given.uuid else t.mint(n).uuid)
  }

  lemma FreshIsActive(front: seq<Credential>, back: seq<Credential>)
    requires forall i :: 0 <= i < |front| ==> front[i].uuid.None? && front[i].status != ACTIVE
    requires forall i :: 0 <= i < |back| ==> back[i].status == ACTIVE
    ensures Active(front + back) == back && forall c :: c in front + back && c.uuid.Some? ==> c in back
  {
    ActiveConcat(front, back);
    NoneActive(front);
    AllActive(back);
  }

  lemma RetiredIs(t: Target, c: Credential)
    ensures var r := Retire(t, c); r.uuid.None? && r.status != ACTIVE && r.id == c.id
  {
    assert ACTIVE[0] == 'a' && REVOKED[0] == 'r';
  }

  lemma FreshIs(t: Target, c: Credential, n: nat)
    ensures Fresh(t, c, n).status == ACTIVE && Fresh(t, c, n).uuid.Some?
  {}

  lemma FreshAt(t: Target, creds: seq<Credential>, n: nat, staged: seq<Credential>, i: nat)
    requires Rotates(t, creds, n, staged) && i < |Active(creds)|
    ensures |staged| >= |creds| && i < |staged[|creds|..]| && staged[|creds|..][i] == Fresh(t, Active(creds)[i], n + i)
  {}

  /** Every link belongs to one replaced credential and opens with the credential that replaced it: parsing it
      gives that credential's uuid and the target's own settings. */
  lemma LinksAreLive(rules: AddressRules, t: Target, users: seq<User>, staged: seq<User>, links: seq<Link>, k: nat, i: nat)
    requires Staged(t, users, staged, links) && k < |users| && i < |Active(users[k].credentials)|
    requires Sensible(rules) && ServerText(rules, t.server) && 1 <= t.port <= 65535 && SniText(t.sni)
    requires KeyText(t.publicKey) && ShortIdText(t.shortId) && TagText(users[k].tag)
    requires UuidText(Pick(t, Active(users[k].credentials)[i].id, Drawn(users, k) + i).uuid)
    ensures Drawn(users, k) + i < |links|
    ensures var link := links[Drawn(users, k) + i];
            var live := Active(staged[k].credentials);
            && |live| == |Active(users[k].credentials)|
            && link.oldId == Active(users[k].credentials)[i].id && link.user == users[k].tag && link.node == t.nodeName
            && live[i].id == link.newId && live[i].uuid.Some? && live[i].nodeId == t.nodeId
            && ParseLegacyVlessUri(rules, link.uri)
               == Ok(Fields(Lower(live[i].uuid.value), Lower(t.server), t.port, t.sni, t.publicKey, Lower(t.shortId), "chrome"))
  {
    hide ParseLegacyVlessUri, RenderVlessUri, Active, Rotates, UuidText, SniText, KeyText, ShortIdText, TagText, Sensible, ServerText, Lower;
    assert UserStaged(t, users, staged, links, k);
    DrawnGrows(users, k + 1, |users|);
    var n := Drawn(users, k);
    var c := Active(users[k].credentials)[i];
    RotationReplaces(t, users[k].credentials, n, staged[k].credentials);
    assert links[n..Drawn(users, k + 1)][i] == links[n + i] == LinkFor(t, users[k].tag, c, n + i);
    FreshAt(t, users[k].credentials, n, staged[k].credentials, i);
    RoundTrip(rules, Pick(t, c.id, n + i).uuid, t.server, t.port, t.sni, t.publicKey, t.shortId, users[k].tag);
  }
}
