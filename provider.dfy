/**
 * The `Upstreams` source: the container snapshot, its wholesale replacement by
 * the watcher, and `GetUpstreams`.
 */
module Provider {
  import opened Wrappers
  import opened Docker
  import opened Matching
  import opened Resolver

  /**
   * What `GetUpstreams` computes from snapshot `cs` and cache contents
   * `cache`: the upstreams, in snapshot order, of the containers that match
   * and resolve, and the cache that resolving them leaves behind.
   */
  function Gather(reg: Registry, order: seq<string>, r: Request, cs: seq<Container>, cache: Cache): (out: (seq<Upstream>, Cache))
    requires Enumerates(order, reg)
    ensures |out.0| <= |cs|
    ensures Extends(cache, out.1)
  {
    if cs == [] then ([], cache)
    else
      var (found, next) := Visit(reg, order, r, cs[0], cache);
      var (rest, final) := Gather(reg, order, r, cs[1..], next);
      (found + rest, final)
  }

  /** One turn of `GetUpstreams`' loop: the container's upstream if it matches and resolves, and the cache afterwards. */
  function Visit(reg: Registry, order: seq<string>, r: Request, c: Container, cache: Cache): (out: (seq<Upstream>, Cache))
    requires Enumerates(order, reg)
  {
    if !Match(reg, order, r, c) then ([], cache)
    else
      var (res, next) := Resolve(cache, c);
      if res.Ok? then ([res.value], next) else ([], next)
  }

  /** A key the request adds to the cache is the ID of a container of the snapshot that matched it. */
  lemma {:induction false} GatherAddsMatchedIds(reg: Registry, order: seq<string>, r: Request, cs: seq<Container>,
                                              cache: Cache, id: string)
    requires Enumerates(order, reg)
    requires id in Gather(reg, order, r, cs, cache).1 && id !in cache
    ensures exists i :: 0 <= i < |cs| && cs[i].id == id && Match(reg, order, r, cs[i])
  {
    var v := Visit(reg, order, r, cs[0], cache);
    if id !in v.1 {
      GatherAddsMatchedIds(reg, order, r, cs[1..], v.1, id);
      var i :| 0 <= i < |cs[1..]| && cs[1..][i].id == id && Match(reg, order, r, cs[1..][i]);
      assert cs[i + 1] == cs[1..][i];
    }
  }

  /** `ups` is what the first `i` containers of `cs` contributed, and `cache` the cache they left. */
  ghost predicate GatheredUpTo(reg: Registry, order: seq<string>, r: Request, cs: seq<Container>, cache0: Cache,
                               i: nat, ups: seq<Upstream>, cache: Cache)
    requires Enumerates(order, reg) && i <= |cs|
  {
    var g := Gather(reg, order, r, cs[i..], cache);
    Gather(reg, order, r, cs, cache0) == (ups + g.0, g.1)
  }

  /** One more container visited keeps `GatheredUpTo`. */
  lemma GatheredOneMore(reg: Registry, order: seq<string>, r: Request, cs: seq<Container>, cache0: Cache,
                        i: nat, ups: seq<Upstream>, cache: Cache, step: seq<Upstream>, next: Cache)
    requires Enumerates(order, reg) && i < |cs|
    requires GatheredUpTo(reg, order, r, cs, cache0, i, ups, cache)
    requires (step, next) == Visit(reg, order, r, cs[i], cache)
    ensures GatheredUpTo(reg, order, r, cs, cache0, i + 1, ups + step, next)
  {
    GatherCons(reg, order, r, cs[i..], cache);
    assert cs[i..][1..] == cs[i + 1..];
    var g := Gather(reg, order, r, cs[i + 1..], next);
    assert ups + (step + g.0) == (ups + step) + g.0;
  }

  /** Gather, one container at a time. */
  lemma GatherCons(reg: Registry, order: seq<string>, r: Request, cs: seq<Container>, cache: Cache)
    requires Enumerates(order, reg) && cs != []
    ensures var v := Visit(reg, order, r, cs[0], cache);
            var g := Gather(reg, order, r, cs[1..], v.1);
            Gather(reg, order, r, cs, cache) == (v.0 + g.0, g.1)
  {
  }

  /**
   * Reference definition: the upstreams of the containers that match, each
   * resolved against the one cache the request starts with.
   */
  function Eligible(reg: Registry, order: seq<string>, r: Request, cs: seq<Container>, cache: Cache): (ups: seq<Upstream>)
    requires Enumerates(order, reg)
  {
    if cs == [] then []
    else
      var res := Resolve(cache, cs[0]).0;
      (if Match(reg, order, r, cs[0]) && res.Ok? then [res.value] else [])
      + Eligible(reg, order, r, cs[1..], cache)
  }

  /** An entry for an ID that no container of `cs` has does not change what `cs` resolves to. */
  lemma {:induction false} EligibleIgnoresOtherIds(reg: Registry, order: seq<string>, r: Request, cs: seq<Container>,
                                                 cache: Cache, id: string, u: Upstream)
    requires Enumerates(order, reg)
    requires forall i :: 0 <= i < |cs| ==> cs[i].id != id
    ensures Eligible(reg, order, r, cs, cache[id := u]) == Eligible(reg, order, r, cs, cache)
  {
    if cs != [] {
      assert Resolve(cache[id := u], cs[0]).0 == Resolve(cache, cs[0]).0;
      EligibleIgnoresOtherIds(reg, order, r, cs[1..], cache, id, u);
    }
  }

  /** The rest of a listing with distinct IDs has distinct IDs, none of them the first container's. */
  lemma UniqueTail(cs: seq<Container>)
    requires UniqueIds(cs) && cs != []
    ensures UniqueIds(cs[1..])
    ensures forall i :: 0 <= i < |cs[1..]| ==> cs[1..][i].id != cs[0].id
  {
  }

  /**
   * In a listing with distinct IDs, the cache one container's resolution adds
   * never affects another: the result is exactly the eligible upstreams.
   */
  lemma {:induction false} GatherIsEligible(reg: Registry, order: seq<string>, r: Request, cs: seq<Container>, cache: Cache)
    requires Enumerates(order, reg)
    requires UniqueIds(cs)
    ensures Gather(reg, order, r, cs, cache).0 == Eligible(reg, order, r, cs, cache)
  {
    if cs != [] {
      var c, tail := cs[0], cs[1..];
      var v := Visit(reg, order, r, c, cache);
      UniqueTail(cs);
      GatherIsEligible(reg, order, r, tail, v.1);
      if v.1 != cache {
        var u := Resolve(cache, c).0.value;
        assert v.1 == cache[c.id := u];
        EligibleIgnoresOtherIds(reg, order, r, tail, cache, c.id, u);
      }
      GatherCons(reg, order, r, cs, cache);
    }
  }

  /** Container `c` matches the request and resolves to `u` against `cache`. */
  ghost predicate Yields(reg: Registry, order: seq<string>, r: Request, cache: Cache, c: Container, u: Upstream)
    requires Enumerates(order, reg)
  {
    Match(reg, order, r, c) && Resolve(cache, c).0 == Ok(u)
  }

  /** An upstream is returned iff some container of the snapshot matches and resolves to it. */
  lemma {:induction false} EligibleMembers(reg: Registry, order: seq<string>, r: Request, cs: seq<Container>, cache: Cache, u: Upstream)
    requires Enumerates(order, reg)
    ensures u in Eligible(reg, order, r, cs, cache) <==> exists c :: c in cs && Yields(reg, order, r, cache, c, u)
  {
    if cs != [] {
      var tail := cs[1..];
      EligibleMembers(reg, order, r, tail, cache, u);
      var res := Resolve(cache, cs[0]).0;
      var head := if Match(reg, order, r, cs[0]) && res.Ok? then [res.value] else [];
      assert Eligible(reg, order, r, cs, cache) == head + Eligible(reg, order, r, tail, cache);
      if u in Eligible(reg, order, r, cs, cache) {
        if u in Eligible(reg, order, r, tail, cache) {
          var c :| c in tail && Yields(reg, order, r, cache, c, u);
          assert c in cs;
        } else {
          assert Yields(reg, order, r, cache, cs[0], u);
        }
      } else {
        forall c | c in cs ensures !Yields(reg, order, r, cache, c, u) {
          if c != cs[0] {
            assert c in tail;
          }
        }
      }
    }
  }

  /** An enabled container with a port label, one network and no matcher labels is returned for every request. */
  lemma SingleContainer(reg: Registry, order: seq<string>, r: Request, c: Container)
    requires Enumerates(order, reg)
    requires Enabled(c) && forall k :: k in reg ==> k !in c.labels
    requires LabelUpstreamPort in c.labels && c.networks != []
    ensures Gather(reg, order, r, [c], map[]).0 ==
      [Upstream(HostPort.JoinHostPort(c.networks[0].ipAddress, c.labels[LabelUpstreamPort]))]
  {
  }

  /** A container with a host label is returned exactly for the requests the host matcher accepts. */
  lemma HostRouted(host: MatcherFactory, path: MatcherFactory, order: seq<string>, r: Request, c: Container)
    requires Enumerates(order, StandardMatchers(host, path))
    requires Enabled(c) && LabelMatchHost in c.labels && LabelMatchPath !in c.labels
    requires LabelUpstreamPort in c.labels && c.networks != []
    ensures Gather(StandardMatchers(host, path), order, r, [c], map[]).0 ==
      if host(c.labels[LabelMatchHost], r)
      then [Upstream(HostPort.JoinHostPort(c.networks[0].ipAddress, c.labels[LabelUpstreamPort]))]
      else []
  {
  }

  datatype ListError = ListError(message: string)

  /** The provider instance; `addresses` is shared by every instance, as the source's package variable is. */
  class Upstreams {
    var containers: seq<Container>
    const addresses: AddressCache

    /** A provider after `Provision`'s first listing succeeded. */
    constructor (addresses: AddressCache, listing: seq<Container>)
      ensures this.addresses == addresses && containers == listing
    {
      this.addresses := addresses;
      containers := listing;
    }

    /** The watcher's step after an event: a failed re-list keeps the snapshot, a successful one replaces it. */
    method Refresh(listing: Result<seq<Container>, ListError>)
      modifies this
      ensures containers == if listing.Ok? then listing.value else old(containers)
    {
      if listing.Err? {
        return;
      }
      containers := listing.value;
    }

    /** `GetUpstreams`: never fails; collects the upstreams of the matching containers that resolve. */
    method GetUpstreams(reg: Registry, order: seq<string>, r: Request) returns (ups: seq<Upstream>, err: Option<string>)
      requires Enumerates(order, reg)
      modifies addresses
      ensures err == None
      ensures (ups, addresses.entries) == Gather(reg, order, r, containers, old(addresses.entries))
      ensures UniqueIds(containers) ==> ups == Eligible(reg, order, r, containers, old(addresses.entries))
    {
      ups := [];
      var i := 0;
      assert containers[i..] == containers;
      assert [] + Gather(reg, order, r, containers, addresses.entries).0 == Gather(reg, order, r, containers, addresses.entries).0;
      while i < |containers|
        invariant 0 <= i <= |containers|
        invariant GatheredUpTo(reg, order, r, containers, old(addresses.entries), i, ups, addresses.entries)
      {
        ghost var before, found := addresses.entries, ups;
        ghost var step: seq<Upstream> := [];
        var container := containers[i];
        if Match(reg, order, r, container) {
          var upstream := addresses.ToUpstream(container);
          if upstream.Ok? {
            ups := ups + [upstream.value];
            step := [upstream.value];
          }
        }
        assert ups == found + step;
        GatheredOneMore(reg, order, r, containers, old(addresses.entries), i, found, before, step, addresses.entries);
        i := i + 1;
      }
      assert containers[i..] == [];
      assert ups + [] == ups;
      if UniqueIds(containers) {
        GatherIsEligible(reg, order, r, containers, old(addresses.entries));
      }
      return ups, None;
    }
  }
}
