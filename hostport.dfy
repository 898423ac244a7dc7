/**
 * Dial addresses. The resolver builds a dial address with Go's
 * `net.JoinHostPort`, which joins host and port with a colon and brackets the
 * host when it contains a colon itself (a literal IPv6 address).
 * `SplitDial` is the inverse used to show that the dial address determines
 * the host and the port it was built from.
 */
module HostPort {
  import opened Wrappers

  /** `net.JoinHostPort(host, port)`. */
  function JoinHostPort(host: string, port: string): (addr: string)
    ensures |port| < |addr| && addr[|addr| - |port|..] == port
    ensures addr[|addr| - |port| - 1] == ':'
  {
    if ':' in host then "[" + host + "]:" + port else host + ":" + port
  }

  /** The index of the last colon of `s`, or -1 when it has none. */
  function LastColon(s: string): (i: int)
    ensures -1 <= i < |s|
    ensures 0 <= i ==> s[i] == ':' && ':' !in s[i + 1..]
    ensures i == -1 ==> ':' !in s
  {
    if s == [] then -1
    else if s[|s| - 1] == ':' then |s| - 1
    else
      var i := LastColon(s[..|s| - 1]);
      assert s == s[..|s| - 1] + [s[|s| - 1]];
      assert 0 <= i ==> s[i + 1..] == s[..|s| - 1][i + 1..] + [s[|s| - 1]];
      i
  }

  /** A colon at `i` followed by no other colon is the last colon. */
  lemma LastColonUnique(s: string, i: nat)
    requires i < |s| && s[i] == ':' && ':' !in s[i + 1..]
    ensures LastColon(s) == i
  {
  }

  /**
   * Splits a dial address at its last colon; the host part loses its
   * brackets when what they enclose contains a colon.
   */
  function SplitDial(addr: string): (r: Option<(string, string)>)
    ensures r.None? <==> ':' !in addr
  {
    var i := LastColon(addr);
    if i < 0 then None
    else
      var host := addr[..i];
      var port := addr[i + 1..];
      if 2 <= |host| && host[0] == '[' && host[|host| - 1] == ']' && ':' in host[1..|host| - 1]
      then Some((host[1..|host| - 1], port))
      else Some((host, port))
  }

  /** Joining and splitting again gives back host and port, for any port without a colon. */
  lemma {:induction false} SplitJoin(host: string, port: string)
    requires ':' !in port
    ensures SplitDial(JoinHostPort(host, port)) == Some((host, port))
  {
    var addr := JoinHostPort(host, port);
    var front := if ':' in host then "[" + host + "]" else host;
    assert addr == front + ":" + port;
    assert addr[|front| + 1..] == port;
    LastColonUnique(addr, |front|);
    assert addr[..|front|] == front;
    if ':' in host {
      assert front[1..|front| - 1] == host;
    }
  }

  /** Distinct hosts give distinct dial addresses for the same colon-free port. */
  lemma JoinHostPortInjective(h1: string, p1: string, h2: string, p2: string)
    requires ':' !in p1 && ':' !in p2
    requires JoinHostPort(h1, p1) == JoinHostPort(h2, p2)
    ensures h1 == h2 && p1 == p2
  {
    SplitJoin(h1, p1);
    SplitJoin(h2, p2);
  }
}
