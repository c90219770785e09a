/** Tagging the hubs of a release (scripts/functions/release_hubs.py). */
module HubTagging {
  import opened Wrappers
  import opened CommitGraph
  import opened ReleaseStores
  import opened RemoteRequests
  import opened Tracking

  /** What the hub's tag names, followed down to its commit, one request an object. */
  method ReadHubTagCommit(remote: Remote, hub: string) returns (r: Result<Option<string>>)
    requires Tracked(remote)
    modifies remote
    ensures OnlyWatches(remote)
    ensures r.Ok? ==> r.value == if hub in remote.stores.hubs then Peeled(remote.stores.hubs[hub]) else None
    ensures r.Ok? && hub in remote.stores.hubs ==> r.value.Some?
    ensures remote.faults == old(remote.faults) ==>
              if hub in remote.stores.hubs && Peeled(remote.stores.hubs[hub]).None?
              then r == Stopped(TagNamesNoCommit) else r.Ok?
  {
    var seen :- Ask(remote);
    if hub !in seen.hubs { return Ok(None); }
    var named := seen.hubs[hub];
    while named.TagObject?
      invariant OnlyWatches(remote)
      invariant Peeled(named) == Peeled(seen.hubs[hub])
      decreases named
    {
      label before:
      var asked := Ask(remote);
      ExtendsTransitive(remote.plan, old(remote.stores.dev), old@before(remote.stores.dev), remote.stores.dev);
      var _ :- asked;
      named := named.target;
    }
    return if named.CommitObject? then Ok(Some(named.sha)) else Stopped(TagNamesNoCommit);
  }

  /** Creates the annotated tag of `pin`: its tag object, then the ref. */
  method CreateHubTag(remote: Remote, pin: HubPin) returns (r: Result<()>)
    requires Tracked(remote) && pin in remote.plan.hubs
    requires !Published(remote.plan, remote.stores)
    modifies remote
    ensures GoesOn(remote) && Extends(remote.plan, old(remote.stores.dev), remote.stores.dev)
    ensures remote.stores == old(remote.stores).(dev := remote.stores.dev, hubs := remote.stores.hubs)
    ensures || remote.stores.hubs == old(remote.stores.hubs)
            || (pin.hub !in old(remote.stores.hubs)
                && remote.stores.hubs == old(remote.stores.hubs)[pin.hub := TagObject(CommitObject(pin.commit))])
    ensures r.Ok? ==> TaggedAt(remote.stores, pin)
    ensures remote.faults == old(remote.faults) && pin.hub !in old(remote.stores.hubs) ==> r.Ok?
  {
    var _ :- Ask(remote);
    label asked:
    var sent, met := Send(remote, CreateHubRef(pin.hub, TagObject(CommitObject(pin.commit))));
    ExtendsTransitive(remote.plan, old(remote.stores.dev), old@asked(remote.stores.dev), met.dev);
    var _ :- sent;
    return Ok(());
  }

  /** `read` is what a hub's tag named when it was read. */
  ghost predicate ReadAs(s: Stores, hub: string, read: Option<string>) {
    if hub in s.hubs then read.Some? && read == Peeled(s.hubs[hub]) else read.None?
  }

  /** The tag of every hub of the set. */
  method ReadHubTags(remote: Remote) returns (r: Result<map<string, Option<string>>>)
    requires Tracked(remote)
    modifies remote
    ensures OnlyWatches(remote)
    ensures r.Ok? ==> forall j :: 0 <= j < |remote.plan.hubs| ==>
              remote.plan.hubs[j].hub in r.value && ReadAs(remote.stores, remote.plan.hubs[j].hub, r.value[remote.plan.hubs[j].hub])
    ensures remote.faults == old(remote.faults) && HubsAgree(remote.plan, remote.stores) ==> r.Ok?
  {
    var p := remote.plan;
    var tagged: map<string, Option<string>> := map[];
    for k := 0 to |p.hubs|
      invariant OnlyWatches(remote)
      invariant forall j :: 0 <= j < k ==> p.hubs[j].hub in tagged && ReadAs(remote.stores, p.hubs[j].hub, tagged[p.hubs[j].hub])
    {
      label before:
      var read := ReadHubTagCommit(remote, p.hubs[k].hub);
      ExtendsTransitive(p, old(remote.stores.dev), old@before(remote.stores.dev), remote.stores.dev);
      var commit :- read;
      tagged := tagged[p.hubs[k].hub := commit];
    }
    return Ok(tagged);
  }

  /** Whether a hub was read with the tag at another commit than the set records. */
  method AnyMisplaced(p: Plan, tagged: map<string, Option<string>>) returns (misplaced: bool)
    requires forall j :: 0 <= j < |p.hubs| ==> p.hubs[j].hub in tagged
    ensures misplaced <==> exists j :: 0 <= j < |p.hubs| && tagged[p.hubs[j].hub] !in {None, Some(p.hubs[j].commit)}
  {
    for k := 0 to |p.hubs|
      invariant forall j :: 0 <= j < k ==> tagged[p.hubs[j].hub] in {None, Some(p.hubs[j].commit)}
    {
      if tagged[p.hubs[k].hub] !in {None, Some(p.hubs[k].commit)} {
        return true;
      }
    }
    return false;
  }

  /** Only hubs of the set that did not carry the tag changed, and `dev`. */
  ghost predicate OnlyTags(p: Plan, s: Stores, t: Stores) {
    && Extends(p, s.dev, t.dev) && t == s.(dev := t.dev, hubs := t.hubs)
    && forall h :: h in s.hubs ==> h in t.hubs && t.hubs[h] == s.hubs[h]
  }

  lemma OnlyTagsTransitive(p: Plan, a: Stores, b: Stores, c: Stores)
    requires OnlyTags(p, a, b) && OnlyTags(p, b, c)
    ensures OnlyTags(p, a, c)
  {
    ExtendsTransitive(p, a.dev, b.dev, c.dev);
  }

  /** The first `k` hubs carry the tag at their commit, and the others carry it if they did. */
  ghost predicate TaggedSoFar(p: Plan, s: Stores, t: Stores, k: nat) {
    && (forall j :: 0 <= j < k && j < |p.hubs| ==> TaggedAt(t, p.hubs[j]))
    && (forall j :: k <= j < |p.hubs| ==> (p.hubs[j].hub in t.hubs <==> p.hubs[j].hub in s.hubs))
  }

  lemma TaggingGoesOn(p: Plan, s: Stores, t: Stores, u: Stores, k: nat)
    requires WellFormed(p) && TaggedSoFar(p, s, t, k) && OnlyTags(p, t, u) && k < |p.hubs| && TaggedAt(u, p.hubs[k])
    requires forall h :: h in u.hubs && h != p.hubs[k].hub ==> h in t.hubs
    ensures TaggedSoFar(p, s, u, k + 1)
  {
    forall j | k < j < |p.hubs| ensures p.hubs[j].hub in u.hubs <==> p.hubs[j].hub in s.hubs {
      assert p.hubs[j].hub != p.hubs[k].hub;
    }
  }

  /** Tags one hub, unless it was read with the tag. */
  method TagHub(remote: Remote, pin: HubPin, read: Option<string>) returns (r: Result<()>)
    requires Tracked(remote) && pin in remote.plan.hubs && !Published(remote.plan, remote.stores)
    requires read in {None, Some(pin.commit)} && ReadAs(remote.stores, pin.hub, read)
    modifies remote
    ensures GoesOn(remote) && OnlyTags(remote.plan, old(remote.stores), remote.stores)
    ensures forall h :: h in remote.stores.hubs && h != pin.hub ==> h in old(remote.stores.hubs)
    ensures r.Ok? ==> TaggedAt(remote.stores, pin)
    ensures remote.faults == old(remote.faults) ==> r.Ok?
  {
    if read == Some(pin.commit) { return Ok(()); }
    r := CreateHubTag(remote, pin);
  }

  /** Tags the hubs that were read without the tag. */
  method TagHubs(remote: Remote, tagged: map<string, Option<string>>) returns (r: Result<()>)
    requires Tracked(remote) && WellFormed(remote.plan) && !Published(remote.plan, remote.stores)
    requires forall j :: 0 <= j < |remote.plan.hubs| ==> ReadHere(remote.plan.hubs[j], remote.stores, tagged)
    modifies remote
    ensures GoesOn(remote) && OnlyTags(remote.plan, old(remote.stores), remote.stores)
    ensures r.Ok? ==> HubsTagged(remote.plan, remote.stores)
    ensures remote.faults == old(remote.faults) ==> r.Ok?
  {
    var p := remote.plan;
    for k := 0 to |p.hubs|
      invariant GoesOn(remote) && OnlyTags(p, old(remote.stores), remote.stores) && TaggedSoFar(p, old(remote.stores), remote.stores, k)
    {
      label before:
      assert ReadHere(p.hubs[k], old(remote.stores), tagged);
      var done := TagHub(remote, p.hubs[k], tagged[p.hubs[k].hub]);
      OnlyTagsTransitive(p, old(remote.stores), old@before(remote.stores), remote.stores);
      if !done.Ok? { return done; }
      TaggingGoesOn(p, old(remote.stores), old@before(remote.stores), remote.stores, k);
    }
    return Ok(());
  }

  /** The hub was read as it is, and with the tag at its commit or without one. */
  ghost predicate ReadHere(pin: HubPin, s: Stores, tagged: map<string, Option<string>>) {
    pin.hub in tagged && tagged[pin.hub] in {None, Some(pin.commit)} && ReadAs(s, pin.hub, tagged[pin.hub])
  }

  /** Every hub is read before any is tagged: with the tag at another commit in
      any hub, no hub changes. No tag moves, and the hubs tagged only grow. */
  method TagReleaseHubs(remote: Remote) returns (r: Result<()>)
    requires Tracked(remote) && WellFormed(remote.plan)
    requires !Published(remote.plan, remote.stores)
    modifies remote
    ensures GoesOn(remote) && OnlyTags(remote.plan, old(remote.stores), remote.stores)
    ensures !HubsAgree(remote.plan, old(remote.stores)) ==> !r.Ok? && remote.stores.hubs == old(remote.stores.hubs)
    ensures r.Ok? ==> HubsTagged(remote.plan, remote.stores)
    ensures remote.faults == old(remote.faults) && HubsAgree(remote.plan, old(remote.stores)) ==> r.Ok?
  {
    var p := remote.plan;
    var tagged :- ReadHubTags(remote);
    label read:
    var misplaced := AnyMisplaced(p, tagged);
    ReadTells(p, remote.stores, tagged);
    if misplaced { return Stopped(HubTaggedElsewhere); }
    r := TagHubs(remote, tagged);
    OnlyTagsTransitive(p, old(remote.stores), old@read(remote.stores), remote.stores);
  }

  /** Hubs read as they are have the tag in place exactly when none was read elsewhere. */
  lemma ReadTells(p: Plan, s: Stores, tagged: map<string, Option<string>>)
    requires forall j :: 0 <= j < |p.hubs| ==> p.hubs[j].hub in tagged && ReadAs(s, p.hubs[j].hub, tagged[p.hubs[j].hub])
    ensures HubsAgree(p, s) <==> forall j :: 0 <= j < |p.hubs| ==> tagged[p.hubs[j].hub] in {None, Some(p.hubs[j].commit)}
  {
  }
}
