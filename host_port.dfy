/**
 * Host and port handling used by the service: Go's `net.JoinHostPort`, which builds
 * the dial address of the mail relay, and `url.URL.Hostname`, which gives the cookie
 * domain of the OAuth handler. Hostname undoes JoinHostPort.
 */
module HostPort {

  predicate IsDigit(c: char) {
    '0' <= c <= '9'
  }

  predicate AllDigits(s: string) {
    forall i :: 0 <= i < |s| ==> IsDigit(s[i])
  }

  /** Go's net.JoinHostPort: a host with a colon is an IPv6 literal and gets brackets. */
  function JoinHostPort(host: string, port: string): (addr: string)
  {
    if ':' in host then "[" + host + "]:" + port else host + ":" + port
  }

  /** The index of the last `c` in `s`, or -1 (Go's strings.LastIndexByte). */
  function LastIndex(s: string, c: char): (i: int)
    ensures -1 <= i < |s|
    ensures i >= 0 ==> s[i] == c
    ensures forall j :: i < j < |s| ==> s[j] != c
  {
    if s == [] then -1
    else if s[|s| - 1] == c then |s| - 1
    else LastIndex(s[..|s| - 1], c)
  }

  /** Go's validOptionalPort: empty, or a colon followed by decimal digits. */
  predicate ValidOptionalPort(p: string) {
    p == [] || (p[0] == ':' && AllDigits(p[1..]))
  }

  /** Whether `s` is wrapped in square brackets, as an IPv6 literal is in a URL host. */
  predicate Bracketed(s: string) {
    |s| >= 2 && s[0] == '[' && s[|s| - 1] == ']'
  }

  /**
   * Go's url.URL.Hostname: the host part of `host[:port]`, without the port and
   * without the brackets around an IPv6 literal.
   */
  function Hostname(hostPort: string): (h: string)
    ensures |h| <= |hostPort|
    ensures ':' !in hostPort && !Bracketed(hostPort) ==> h == hostPort
  {
    var colon := LastIndex(hostPort, ':');
    var host := if colon >= 0 && ValidOptionalPort(hostPort[colon..]) then hostPort[..colon] else hostPort;
    if Bracketed(host) then host[1..|host| - 1] else host
  }

  /** The last colon of `a + ":" + b` is the one put there when `b` has none. */
  lemma {:induction false} LastIndexOfJoin(a: string, b: string)
    requires ':' !in b
    ensures LastIndex(a + ":" + b, ':') == |a|
    decreases |b|
  {
    var s := a + ":" + b;
    if b == [] {
      assert s[|s| - 1] == ':';
    } else {
      assert s[|s| - 1] == b[|b| - 1];
      assert s[..|s| - 1] == a + ":" + b[..|b| - 1];
      LastIndexOfJoin(a, b[..|b| - 1]);
    }
  }

  /**
   * The host put into an address by JoinHostPort is the Hostname of that address,
   * provided the port is numeric and a colon-free host is not itself bracketed.
   */
  lemma HostnameOfJoin(host: string, port: string)
    requires AllDigits(port)
    requires ':' in host || !Bracketed(host)
    ensures Hostname(JoinHostPort(host, port)) == host
  {
    var addr := JoinHostPort(host, port);
    assert ':' !in port;
    var front := if ':' in host then "[" + host + "]" else host;
    assert addr == front + ":" + port;
    LastIndexOfJoin(front, port);
    assert addr[|front|..] == ":" + port;
    assert (":" + port)[1..] == port;
    assert addr[..|front|] == front;
    if ':' in host {
      assert front[1..|front| - 1] == host;
    }
  }
}
