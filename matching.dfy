/**
 * Label eligibility: the `matchers` table and `match`. The host and path
 * matchers of caddyhttp are opaque here: a matcher is a predicate over a
 * label value and a request.
 */
module Matching {
  import opened Docker

  /** The parts of an HTTP request that the registered matchers look at. */
  datatype Request = Request(host: string, path: string)

  /** Builds a request matcher from a label value and asks it about a request. */
  type MatcherFactory = (string, Request) -> bool

  /** Label key to matcher constructor. */
  type Registry = map<string, MatcherFactory>

  /** The source's table: a host matcher and a path matcher, under their labels. */
  function StandardMatchers(host: MatcherFactory, path: MatcherFactory): (reg: Registry)
    ensures reg.Keys == {LabelMatchHost, LabelMatchPath}
    ensures reg[LabelMatchHost] == host && reg[LabelMatchPath] == path
  {
    map[LabelMatchHost := host, LabelMatchPath := path]
  }

  /** The container opted in: its enable label is exactly "true". */
  predicate Enabled(c: Container)
  {
    LabelEnable in c.labels && c.labels[LabelEnable] == "true"
  }

  /** Every registered matcher whose label is present accepts the request. */
  ghost predicate AllPresentAccept(reg: Registry, labels: map<string, string>, r: Request)
  {
    forall k :: k in reg && k in labels ==> reg[k](labels[k], r)
  }

  /** The keys a visiting order goes through. */
  function Visited(order: seq<string>): (keys: set<string>)
    ensures forall i :: 0 <= i < |order| ==> order[i] in keys
  {
    if order == [] then {} else {order[0]} + Visited(order[1..])
  }

  /** `order` visits exactly the keys of the registry, as a range over a Go map does, in an order it picks. */
  predicate Enumerates(order: seq<string>, reg: Registry)
  {
    Visited(order) == reg.Keys
  }

  /** The loop over the matchers table, visiting the keys in `order` and stopping at the first rejection. */
  function AcceptsInOrder(order: seq<string>, reg: Registry, labels: map<string, string>, r: Request): (ok: bool)
    requires Visited(order) <= reg.Keys
    ensures ok <==> forall k :: k in Visited(order) && k in labels ==> reg[k](labels[k], r)
  {
    if order == [] then true
    else
      var key := order[0];
      if key in labels && !reg[key](labels[key], r) then false
      else AcceptsInOrder(order[1..], reg, labels, r)
  }

  /**
   * `match`: the container is enabled and no present matcher label rejects the
   * request, whatever order the matchers are visited in.
   */
  function Match(reg: Registry, order: seq<string>, r: Request, c: Container): (b: bool)
    requires Enumerates(order, reg)
    ensures b <==> Enabled(c) && AllPresentAccept(reg, c.labels, r)
  {
    if !Enabled(c) then false else AcceptsInOrder(order, reg, c.labels, r)
  }

  /** Two visiting orders of the same table give the same answer. */
  lemma MatchIgnoresOrder(reg: Registry, o1: seq<string>, o2: seq<string>, r: Request, c: Container)
    requires Enumerates(o1, reg) && Enumerates(o2, reg)
    ensures Match(reg, o1, r, c) == Match(reg, o2, r, c)
  {
  }

  /** Without the enable label set to exactly "true", no request matches. */
  lemma DisabledNeverMatches(reg: Registry, order: seq<string>, c: Container, r: Request)
    requires Enumerates(order, reg)
    requires LabelEnable !in c.labels || c.labels[LabelEnable] != "true"
    ensures !Match(reg, order, r, c)
  {
  }

  /** An enabled container without matcher labels matches every request. */
  lemma UnconstrainedMatchesAll(host: MatcherFactory, path: MatcherFactory, order: seq<string>, c: Container, r: Request)
    requires Enumerates(order, StandardMatchers(host, path))
    requires Enabled(c) && LabelMatchHost !in c.labels && LabelMatchPath !in c.labels
    ensures Match(StandardMatchers(host, path), order, r, c)
  {
  }

  /** With the standard table, an enabled container matches iff each matcher label it carries accepts the request. */
  lemma StandardMatch(host: MatcherFactory, path: MatcherFactory, order: seq<string>, c: Container, r: Request)
    requires Enumerates(order, StandardMatchers(host, path))
    ensures Match(StandardMatchers(host, path), order, r, c) <==>
      && Enabled(c)
      && (LabelMatchHost in c.labels ==> host(c.labels[LabelMatchHost], r))
      && (LabelMatchPath in c.labels ==> path(c.labels[LabelMatchPath], r))
  {
  }

  /** A label the table does not know about never changes the outcome. */
  lemma UnknownLabelIgnored(reg: Registry, order: seq<string>, c: Container, key: string, value: string, r: Request)
    requires Enumerates(order, reg)
    requires key !in reg && key != LabelEnable
    ensures Match(reg, order, r, c.(labels := c.labels[key := value])) == Match(reg, order, r, c)
  {
  }
}
