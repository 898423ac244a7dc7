/**
 * `toUpstream` and the package-wide `addresses` cache: container ID to the
 * upstream first resolved for it. Entries are inserted and never removed.
 */
module Resolver {
  import opened Wrappers
  import opened Docker
  import opened HostPort

  /** A dial target handed to the reverse proxy. */
  datatype Upstream = Upstream(dial: string)

  datatype ResolveError =
    | NoPortLabel   // "unable to get port from container labels"
    | NoNetwork     // "unable to get ip address from container networks"

  type Cache = map<string, Upstream>

  /** `after` keeps every entry of `before`: no key removed, no value replaced. */
  ghost predicate Extends(before: Cache, after: Cache)
  {
    forall id :: id in before ==> id in after && after[id] == before[id]
  }

  /** `u` dials `n`'s IP on the container's port label. */
  ghost predicate DialsNetwork(u: Upstream, n: EndpointSettings, c: Container)
  {
    LabelUpstreamPort in c.labels && u.dial == JoinHostPort(n.ipAddress, c.labels[LabelUpstreamPort])
  }

  /**
   * What a cache miss computes: the port label is required, and the first
   * network visited supplies the IP, whether or not that IP is empty.
   */
  function Derive(c: Container): (res: Result<Upstream, ResolveError>)
    ensures res == Err(NoPortLabel) <==> LabelUpstreamPort !in c.labels
    ensures res == Err(NoNetwork) <==> LabelUpstreamPort in c.labels && c.networks == []
    ensures res.Ok? ==> exists n :: n in c.networks && DialsNetwork(res.value, n, c)
  {
    if LabelUpstreamPort !in c.labels then Err(NoPortLabel)
    else if c.networks == [] then Err(NoNetwork)
    else
      var n := c.networks[0];
      var u := Upstream(JoinHostPort(n.ipAddress, c.labels[LabelUpstreamPort]));
      assert DialsNetwork(u, n, c);
      Ok(u)
  }

  /** `toUpstream` run against cache contents `cache`: its result and the cache afterwards. */
  function Resolve(cache: Cache, c: Container): (out: (Result<Upstream, ResolveError>, Cache))
    ensures Extends(cache, out.1)
    ensures out.1.Keys <= cache.Keys + {c.id}
    ensures out.0.Ok? <==> c.id in out.1
    ensures out.0.Ok? ==> out.1[c.id] == out.0.value
  {
    if c.id in cache then (Ok(cache[c.id]), cache)
    else
      match Derive(c)
      case Err(e) => (Err(e), cache)
      case Ok(u) => (Ok(u), cache[c.id := u])
  }

  /** Resolving a second time returns the same result and leaves the cache as the first call left it. */
  lemma ResolveIdempotent(cache: Cache, c: Container)
    ensures var (res1, cache1) := Resolve(cache, c);
            Resolve(cache1, c) == (res1, cache1)
  {
  }

  /** With a colon-free port label, a freshly derived dial splits back into some network's IP and that port. */
  lemma DeriveDialSplits(c: Container)
    requires Derive(c).Ok? && ':' !in c.labels[LabelUpstreamPort]
    ensures exists n :: (n in c.networks &&
      SplitDial(Derive(c).value.dial) == Some((n.ipAddress, c.labels[LabelUpstreamPort])))
  {
    var n := c.networks[0];
    SplitJoin(n.ipAddress, c.labels[LabelUpstreamPort]);
  }

  /** A first network without an IP is used all the same: the dial is ":" followed by the port. */
  lemma EmptyAddressIsUsed(c: Container)
    requires LabelUpstreamPort in c.labels && c.networks != [] && c.networks[0].ipAddress == ""
    ensures Derive(c) == Ok(Upstream(":" + c.labels[LabelUpstreamPort]))
  {
    var port := c.labels[LabelUpstreamPort];
    assert ':' !in "";
    assert JoinHostPort("", port) == "" + ":" + port == ":" + port;
  }

  /** The shared `addresses` map. */
  class AddressCache {
    var entries: Cache

    constructor ()
      ensures entries == map[]
    {
      entries := map[];
    }

    /** `toUpstream`. */
    method ToUpstream(c: Container) returns (res: Result<Upstream, ResolveError>)
      modifies this
      ensures (res, entries) == Resolve(old(entries), c)
      ensures c.id in old(entries) ==> res == Ok(old(entries)[c.id]) && entries == old(entries)
      ensures c.id !in old(entries) && LabelUpstreamPort !in c.labels ==>
        res == Err(NoPortLabel) && entries == old(entries)
      ensures c.id !in old(entries) && LabelUpstreamPort in c.labels && c.networks == [] ==>
        res == Err(NoNetwork) && entries == old(entries)
      ensures c.id !in old(entries) && res.Ok? ==>
        && LabelUpstreamPort in c.labels && c.networks != []
        && res.value.dial == JoinHostPort(c.networks[0].ipAddress, c.labels[LabelUpstreamPort])
        && entries == old(entries)[c.id := res.value]
    {
      if c.id in entries {
        return Ok(entries[c.id]);
      }
      if LabelUpstreamPort !in c.labels {
        return Err(NoPortLabel);
      }
      var port := c.labels[LabelUpstreamPort];
      if c.networks != [] {
        var network := c.networks[0];
        var upstream := Upstream(JoinHostPort(network.ipAddress, port));
        entries := entries[c.id := upstream];
        return Ok(upstream);
      }
      return Err(NoNetwork);
    }
  }
}
