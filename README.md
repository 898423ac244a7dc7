# Docker upstreams for Caddy: request-time resolution

This project models the core of the `http.reverse_proxy.upstreams.docker` module (`upstreams.go`). That core does three things:

- It holds a snapshot of the Docker containers that carry the enable label. The watcher replaces the snapshot wholesale after each container event.
- For each request, it decides which containers are eligible. This is `match`: the enable label must be exactly `"true"`, and every host or path matcher label present on the container must accept the request.
- It resolves each eligible container to a dial address. This is `toUpstream`: the address is `net.JoinHostPort(ip, port)`, built from the `upstream.port` label and the first network the container's network map yields. The result is memoised in a package-wide cache keyed by container ID, and entries are never evicted.

Modules:

- `Docker` (docker.dfy): the label keys and the container record.
- `Matching` (matching.dfy): the `matchers` table and `match`. Caddy's host and path matchers are opaque predicates `(value, request) -> bool`. A Go range over a map visits keys in an order that the runtime picks, so `match` is modelled as a fold over an `order` that enumerates the table. It is proved equal to the order-free conjunction `AllPresentAccept`.
- `HostPort` (hostport.dfy): `net.JoinHostPort`, which brackets a host that contains a colon. `SplitDial` is its inverse, defined here to show that a dial address gives back its host and port.
- `Resolver` (resolver.dfy): the `addresses` cache as the class `AddressCache`, its method `ToUpstream`, and the pure specification `Resolve` (result, cache afterwards) that the method is proved against.
- `Provider` (provider.dfy): the class `Upstreams`, with its `containers` snapshot and a reference to the shared `AddressCache`. It has the snapshot step `Refresh` and the method `GetUpstreams`. That method is proved against `Gather`, the left-to-right fold that threads the cache. `Eligible` is a reference definition that resolves every container against the starting cache.

`toUpstream` does not skip networks with an empty IP address. It uses whatever network the range over the network map yields first, so a first network without an IP gives the dial address `":" + port` (`Resolver.EmptyAddressIsUsed`).

## Model

| member | source | states |
|---|---|---|
| `Matching.StandardMatchers` | upstreams.go:116-124 | the table has exactly the host-matcher and path-matcher label keys, each bound to its matcher |
| `Matching.AcceptsInOrder` | upstreams.go:131-143 | the loop that stops at the first rejecting matcher returns true iff every visited key whose label is present accepts the request |
| `Matching.Match` | upstreams.go:126-144 | `match` is true iff the enable label is exactly "true" and every registered matcher whose label is present accepts the request, for any visiting order |
| `Matching.MatchIgnoresOrder` | upstreams.go:131-141 | two enumerations of the matchers table give the same verdict |
| `Matching.DisabledNeverMatches` | upstreams.go:127-129 | an absent enable label, or any value other than exactly "true", rejects every request |
| `Matching.UnconstrainedMatchesAll` | upstreams.go:131-143 | an enabled container with neither host nor path label matches every request |
| `Matching.StandardMatch` | upstreams.go:116-144 | with the source's table, a container matches iff it is enabled, its host label (if present) accepts and its path label (if present) accepts |
| `Matching.UnknownLabelIgnored` | upstreams.go:131-136 | adding a label that is neither the enable label nor a registered matcher key never changes the verdict |
| `HostPort.JoinHostPort` | upstreams.go:166 | the dial address ends in a colon followed by the port |
| `HostPort.SplitJoin` | upstreams.go:166 | splitting a joined address at its last colon and unbracketing gives back host and port, for every host and every colon-free port |
| `HostPort.JoinHostPortInjective` | upstreams.go:166 | distinct (host, colon-free port) pairs give distinct dial addresses |
| `Resolver.Derive` | upstreams.go:159-176 | a miss fails with "no port" iff the port label is absent, and with "no network" iff the port is present but there are no networks; on success the dial joins some network's IP with the port label |
| `Resolver.Resolve` | upstreams.go:151-177 | the cache afterwards keeps every old entry, gains at most the container's ID, and holds that ID exactly when the result is a success, mapped to the returned upstream |
| `Resolver.ResolveIdempotent` | upstreams.go:151-177 | resolving the same container again returns the same result and leaves the cache unchanged |
| `Resolver.DeriveDialSplits` | upstreams.go:164-167 | with a colon-free port, a freshly derived dial splits into the IP of one of the container's networks and the port label |
| `Resolver.EmptyAddressIsUsed` | upstreams.go:164-167 | a first network with an empty IP is not skipped: the dial is ":" followed by the port |
| `Resolver.AddressCache.constructor` | upstreams.go:146-149 | the cache starts empty |
| `Resolver.AddressCache.ToUpstream` | upstreams.go:151-177 | a hit returns the cached upstream and changes nothing, even without a port label or networks; a miss without a port label or without networks fails and changes nothing; a successful miss dials `JoinHostPort(first network IP, port)` and inserts exactly that entry |
| `Provider.Gather` | upstreams.go:179-200 | at most one upstream per snapshot container, and the cache afterwards keeps every entry it had |
| `Provider.GatherAddsMatchedIds` | upstreams.go:185-196 | every key a request adds to the cache is the ID of a snapshot container that matched the request |
| `Provider.GatherIsEligible` | upstreams.go:185-197 | for a listing with distinct IDs, the result is, in snapshot order, the upstream of exactly each matching container that resolves against the starting cache |
| `Provider.EligibleMembers` | upstreams.go:185-197 | an upstream is in the eligible list iff some snapshot container matches and resolves to it, so a cached entry for a container no longer in the snapshot is never returned |
| `Provider.SingleContainer` | upstreams.go:179-200 | an enabled container with a port label, a network and no matcher labels yields exactly its one dial address for every request |
| `Provider.HostRouted` | upstreams.go:179-200 | a container with only a host label yields its dial address exactly for the requests the host matcher accepts, and nothing otherwise |
| `Provider.Upstreams.constructor` | upstreams.go:104-109 | after the first listing the snapshot is that listing |
| `Provider.Upstreams.Refresh` | upstreams.go:57-67 | a failed re-list keeps the old snapshot; a successful one replaces it wholesale |
| `Provider.Upstreams.GetUpstreams` | upstreams.go:179-200 | never returns an error; the upstreams and the cache afterwards are exactly `Gather` over the snapshot, in snapshot order; when the snapshot's IDs are distinct, the upstreams are exactly `Eligible`: each matching container resolved against the cache the request started with |

## Left out

- `keepUpdated`'s event subscription, channels, `select`, goroutine and 500 ms backoff (upstreams.go:47-84, 111) are concurrency and timing. Only the per-event snapshot step is modelled (`Refresh`).
- `Provision`'s Docker client construction, `Ping` and its failure paths (upstreams.go:86-107) are I/O against the Docker API. The constructor takes the listing of a successful provisioning.
- The `sync.RWMutex` locks on the snapshot and the cache are not modelled. The model is sequential, so atomic snapshot replacement holds trivially.
- The semantics of `caddyhttp.MatchHost` and `MatchPath` (wildcards, case folding) are not modelled. The matchers are opaque predicates supplied as the registry.
- Logging, module registration (`init`, `CaddyModule`) and the interface guards are not modelled.
- The order in which Go ranges over a container's network map is left unspecified. The model takes the container's `networks` sequence as that order for the call, so "first network" is its head.
- Each `match` call in Go may visit the matchers table in a different order. `GetUpstreams` takes one `order` for all containers, which is equivalent because `Match` does not depend on the order (`MatchIgnoresOrder`).
- Resolver.AddressCache.ToUpstream: returns the upstream as a value, so the pointer identity of `*reverseproxy.Upstream` (the same pointer on every hit) becomes value equality.
- Resolver.AddressCache.ToUpstream: the two error messages are modelled as the two cases of `ResolveError`, not as strings.
- HostPort.SplitJoin: the round trip is stated only for ports without a colon, because a port label may contain one and then the address does not determine host and port.
