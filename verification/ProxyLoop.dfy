/** The forwarding headers and the loop check of assign6/request-handler.cc, and
    what they imply for chains of proxies. */
module ProxyLoop {
  import opened Text
  import opened Wrappers

  const FORWARDED_PROTO := "x-forwarded-proto"
  const FORWARDED_FOR := "x-forwarded-for"
  const DELIMITER := ", "

  // ----- splitting at the delimiter

  /** `find(", ")`, with the length of the string for npos. */
  function NextDelimiter(s: string): (pos: nat)
    ensures pos == |s| || pos + 2 <= |s|
  {
    match Find(s, DELIMITER)
    case Some(pos) => pos
    case None => |s|
  }

  function Split(s: string): (parts: seq<string>)
    ensures |parts| > 0
  {
    var pos := NextDelimiter(s);
    if pos == |s| then [s] else [s[..pos]] + Split(s[pos + 2..])
  }

  function Join(parts: seq<string>): string
    requires parts != []
  {
    if |parts| == 1 then parts[0] else parts[0] + DELIMITER + Join(parts[1..])
  }

  /** An address never holds the delimiter's comma. */
  predicate IsAddress(ip: string) { ',' !in ip }

  lemma FirstDelimiter(ip: string, rest: string)
    requires IsAddress(ip)
    ensures NextDelimiter(ip + DELIMITER + rest) == |ip|
    ensures NextDelimiter(ip) == |ip|
  {
    hide Find;
    var s := ip + DELIMITER + rest;
    assert OccursAt(s, DELIMITER, |ip|);
    forall i: nat | i < |ip|
      ensures !OccursAt(s, DELIMITER, i) && !OccursAt(ip, DELIMITER, i)
    {
      assert s[i] == ip[i] && ip[i] != DELIMITER[0];
      OccurrenceStarts(s, DELIMITER, i, 0);
      OccurrenceStarts(ip, DELIMITER, i, 0);
    }
  }

  /** Splitting inverts joining. */
  lemma {:induction false} SplitJoin(ips: seq<string>)
    requires ips != [] && forall i :: 0 <= i < |ips| ==> IsAddress(ips[i])
    ensures Split(Join(ips)) == ips
  {
    hide NextDelimiter;
    if |ips| == 1 {
      FirstDelimiter(ips[0], "");
      assert ips == [ips[0]];
    } else {
      var s, rest := Join(ips), Join(ips[1..]);
      FirstDelimiter(ips[0], rest);
      assert s[..|ips[0]|] == ips[0] && s[|ips[0]| + 2..] == rest;
      SplitJoin(ips[1..]);
      assert ips == [ips[0]] + ips[1..];
    }
  }

  lemma DelimiterFound(s: string, k: nat)
    ensures var pos := NextDelimiter(s);
            && !OccursAt(s[..pos], ", ", k)
            && (pos < |s| ==> s == s[..pos] + ", " + s[pos + 2..])
  {
    hide Find;
    var pos := NextDelimiter(s);
    if pos < |s| {
      assert OccursAt(s, ", ", pos);
    } else {
      assert s[..pos] == s;
    }
    assert k + 2 <= pos ==> s[..pos][k..k + 2] == s[k..k + 2];
    assert OccursAt(s[..pos], ", ", k) ==> OccursAt(s, ", ", k);
  }

  /** The parts of any value make it up, and the delimiter occurs in none of them. */
  lemma {:induction false} SplitParts(s: string, i: nat, k: nat)
    ensures Join(Split(s)) == s
    ensures i < |Split(s)| ==> !OccursAt(Split(s)[i], ", ", k)
    decreases |s|
  {
    var pos := NextDelimiter(s);
    DelimiterFound(s, k);
    hide NextDelimiter, OccursAt;
    if pos == |s| {
      assert s[..pos] == s;
    } else {
      SplitParts(s[pos + 2..], if i == 0 then 0 else i - 1, k);
      assert Split(s)[1..] == Split(s[pos + 2..]);
    }
  }

  lemma {:induction false} JoinAppend(ips: seq<string>, ip: string)
    requires ips != []
    ensures Join(ips + [ip]) == Join(ips) + DELIMITER + ip
  {
    hide DELIMITER;
    if |ips| == 1 {
      assert ips + [ip] == [ips[0], ip];
      assert [ips[0], ip][1..] == [ip];
    } else {
      assert (ips + [ip])[1..] == ips[1..] + [ip];
      JoinAppend(ips[1..], ip);
      assert ips[0] + DELIMITER + (Join(ips[1..]) + DELIMITER + ip) == (ips[0] + DELIMITER + Join(ips[1..])) + DELIMITER + ip;
    }
  }

  // ----- the request

  /** The forwarded-for header after a chain of clients, none at first. */
  function ForwardedFor(ips: seq<string>): Option<string>
  {
    if ips == [] then None else Some(Join(ips))
  }

  /** The check at the next hop: the client's address is one of the recorded ones
      other than the last. */
  predicate Loops(header: Option<string>, client: string)
  {
    header.Some? && var parts := Split(header.value); client in parts[..|parts| - 1]
  }

  /** Header names are stored in lower case. */
  class HTTPRequest {
    var headers: map<string, string>
    const clientIPAddress: string

    constructor (headers: map<string, string>, client: string)
      ensures this.headers == headers && clientIPAddress == client
    {
      this.headers := headers;
      clientIPAddress := client;
    }

    function Header(): Option<string>
      reads this
    {
      HeaderIn(headers)
    }

    method AddHeaders()
      modifies this
      ensures headers.Keys == old(headers.Keys) + {"x-forwarded-proto", "x-forwarded-for"}
      ensures headers["x-forwarded-proto"] == "http"
      ensures headers["x-forwarded-for"] ==
                (if "x-forwarded-for" in old(headers) then old(headers)["x-forwarded-for"] + ", " else "") + clientIPAddress
      ensures forall name :: name in old(headers) && name != FORWARDED_PROTO && name != FORWARDED_FOR ==>
                headers[name] == old(headers)[name]
      ensures forall ips {:trigger ForwardedFor(ips)} :: old(Header()) == ForwardedFor(ips) ==> Header() == ForwardedFor(ips + [clientIPAddress])
    {
      var header := Header();
      headers := headers[FORWARDED_PROTO := "http"];
      if FORWARDED_FOR in headers {
        var currentIPs := headers[FORWARDED_FOR] + ", " + clientIPAddress;
        headers := headers[FORWARDED_FOR := currentIPs];
      } else {
        headers := headers[FORWARDED_FOR := clientIPAddress];
      }
      NamesDiffer();
      forall ips {:trigger ForwardedFor(ips)} | header == ForwardedFor(ips) ensures Header() == ForwardedFor(ips + [clientIPAddress]) {
        if ips != [] {
          JoinAppend(ips, clientIPAddress);
        }
      }
    }

    method ContainsProxyLoop() returns (found: bool)
      ensures found <==> Loops(Header(), clientIPAddress)
      ensures found <==> "x-forwarded-for" in headers && Loops(Some(headers["x-forwarded-for"]), clientIPAddress)
    {
      hide NextDelimiter;
      if FORWARDED_FOR !in headers {
        return false;
      }
      var ipstr := headers[FORWARDED_FOR];
      ghost var all := Split(ipstr);
      ghost var k := 0;
      assert all[0..] == all;
      var pos := NextDelimiter(ipstr);
      while pos != |ipstr|
        invariant k < |all| && Split(ipstr) == all[k..] && pos == NextDelimiter(ipstr)
        invariant clientIPAddress !in all[..k]
        decreases |ipstr|
      {
        var pastIP := ipstr[..pos];
        assert all[k..][0] == pastIP && all[k..][1..] == all[k + 1..];
        assert k + 1 < |all| by {
          assert |Split(ipstr)| == 1 + |Split(ipstr[pos + 2..])|;
        }
        if clientIPAddress == pastIP {
          assert all[..|all| - 1][k] == pastIP;
          return true;
        }
        assert all[..k + 1] == all[..k] + [pastIP];
        ipstr := ipstr[pos + 2..];
        k := k + 1;
        pos := NextDelimiter(ipstr);
      }
      assert k == |all| - 1;
      return false;
    }
  }

  lemma NamesDiffer()
    ensures FORWARDED_PROTO != FORWARDED_FOR
  {
    assert |FORWARDED_PROTO| != |FORWARDED_FOR|;
  }

  // ----- chains of proxies

  /** The j-th hop passes the check on what the hops before it recorded. */
  predicate HopAccepted(ips: seq<string>, j: nat)
    requires j < |ips|
  {
    !Loops(ForwardedFor(ips[..j]), ips[j])
  }

  ghost predicate Accepted(ips: seq<string>)
  {
    forall j: nat :: j < |ips| ==> HopAccepted(ips, j)
  }

  /** The check accepts exactly the chains in which an address only ever repeats
      the one immediately before it. */
  lemma AcceptedExactly(ips: seq<string>)
    requires forall i :: 0 <= i < |ips| ==> IsAddress(ips[i])
    ensures Accepted(ips) <==> forall i, j :: 0 <= i && i + 1 < j < |ips| ==> ips[i] != ips[j]
  {
    forall j: nat | j < |ips|
      ensures !HopAccepted(ips, j) <==> exists i :: 0 <= i && i + 1 < j && ips[i] == ips[j]
    {
      if j > 0 {
        SplitJoin(ips[..j]);
        var past := ips[..j][..j - 1];
        assert forall i :: 0 <= i < j - 1 ==> past[i] == ips[i];
      }
    }
  }

  /** A sequence without repetitions is no longer than the set it draws from. */
  lemma {:induction false} DistinctBound(xs: seq<string>, s: set<string>)
    requires forall i, j :: 0 <= i < j < |xs| ==> xs[i] != xs[j]
    requires forall i :: 0 <= i < |xs| ==> xs[i] in s
    ensures |xs| <= |s|
  {
    if xs != [] {
      var last := xs[|xs| - 1];
      DistinctBound(xs[..|xs| - 1], s - {last});
    }
  }

  /** An accepted chain over m addresses has at most 2m hops. */
  lemma ChainBound(ips: seq<string>, addresses: set<string>)
    requires Accepted(ips)
    requires forall i :: 0 <= i < |ips| ==> IsAddress(ips[i]) && ips[i] in addresses
    ensures |ips| <= 2 * |addresses|
  {
    AcceptedExactly(ips);
    var everyOther := seq((|ips| + 1) / 2, i requires 0 <= i < (|ips| + 1) / 2 => ips[2 * i]);
    DistinctBound(everyOther, addresses);
  }

  function Doubled(xs: seq<string>): (ds: seq<string>)
    ensures |ds| == 2 * |xs| && forall i :: 0 <= i < |ds| ==> ds[i] == xs[i / 2]
  {
    seq(2 * |xs|, i requires 0 <= i < 2 * |xs| => xs[i / 2])
  }

  /** The bound is attained: each of m distinct addresses twice in a row. */
  lemma ChainBoundAttained(xs: seq<string>)
    requires forall i :: 0 <= i < |xs| ==> IsAddress(xs[i])
    requires forall i, j :: 0 <= i < j < |xs| ==> xs[i] != xs[j]
    ensures Accepted(Doubled(xs)) && |Doubled(xs)| == 2 * |xs|
  {
    AcceptedExactly(Doubled(xs));
  }

  /** One proxy: it checks, and if it accepts adds its headers. */
  method Hop(headers: map<string, string>, client: string, ghost ips: seq<string>) returns (loop: bool, forwarded: map<string, string>)
    requires HeaderIn(headers) == ForwardedFor(ips)
    ensures loop <==> Loops(ForwardedFor(ips), client)
    ensures !loop ==> HeaderIn(forwarded) == ForwardedFor(ips + [client])
  {
    hide Loops, Join;
    var request := new HTTPRequest(headers, client);
    loop := request.ContainsProxyLoop();
    if loop {
      return loop, headers;
    }
    request.AddHeaders();
    forwarded := request.headers;
  }

  function HeaderIn(headers: map<string, string>): Option<string>
  {
    if FORWARDED_FOR in headers then Some(headers[FORWARDED_FOR]) else None
  }

  /** A run of hops: each proxy that accepts forwards the request to the next. */
  method Travel(clients: seq<string>) returns (hops: nat)
    ensures hops <= |clients|
    ensures forall j: nat :: j < hops ==> HopAccepted(clients, j)
    ensures hops < |clients| ==> !HopAccepted(clients, hops)
  {
    hide Loops, ForwardedFor, HeaderIn;
    var headers: map<string, string> := map[];
    hops := 0;
    assert HeaderIn(headers) == ForwardedFor(clients[..0]) by { NoHeaderAtFirst(); }
    while hops < |clients|
      invariant hops <= |clients|
      invariant forall j: nat :: j < hops ==> HopAccepted(clients, j)
      invariant HeaderIn(headers) == ForwardedFor(clients[..hops])
    {
      var loop, forwarded := Hop(headers, clients[hops], clients[..hops]);
      if loop {
        return;
      }
      assert clients[..hops] + [clients[hops]] == clients[..hops + 1];
      headers, hops := forwarded, hops + 1;
    }
  }

  lemma NoHeaderAtFirst()
    ensures HeaderIn(map[]) == ForwardedFor([])
  {
  }
}
