/**
  Route sets: how Record-Route headers become the Route headers of later requests.
  Requests are rewritten in place, header by header, through the operations of the
  message library: remove the first header of a name, prepend, append. Sections
  12.1.1, 12.1.2 and 12.2.1.1 of RFC 3261.
*/
module Routes {
  import opened Prelude
  import opened Text

  datatype Name = Via | Route | RecordRoute | From | To | Other

  datatype Header = Header(name: Name, value: string)

  // ---- header lists ----

  function ValueOf(h: Header, n: Name): seq<string> { if h.name == n then [h.value] else [] }

  function Values(hs: seq<Header>, n: Name): seq<string> {
    if hs == [] then [] else if hs[0].name == n then [hs[0].value] + Values(hs[1..], n) else Values(hs[1..], n)
  }

  function Without(hs: seq<Header>, n: Name): seq<Header> {
    if hs == [] then [] else if hs[0].name == n then Without(hs[1..], n) else [hs[0]] + Without(hs[1..], n)
  }

  function Headers(n: Name, vs: seq<string>): seq<Header> {
    if vs == [] then [] else [Header(n, vs[0])] + Headers(n, vs[1..])
  }

  function Reverse(vs: seq<string>): seq<string> {
    if vs == [] then [] else Reverse(vs[1..]) + [vs[0]]
  }

  lemma Assoc(a: seq<string>, b: seq<string>, c: seq<string>)
    ensures a + (b + c) == a + b + c
  {
  }

  lemma {:induction false} ValuesStep(a: seq<Header>, b: seq<Header>, n: Name)
    requires a != []
    ensures Values(a + b, n) == ValueOf(a[0], n) + Values(a[1..] + b, n)
    ensures Values(a, n) == ValueOf(a[0], n) + Values(a[1..], n)
  {
    assert (a + b)[1..] == a[1..] + b;
  }

  lemma {:induction false} ValuesConcat(a: seq<Header>, b: seq<Header>, n: Name)
    ensures Values(a + b, n) == Values(a, n) + Values(b, n)
  {
    if a == [] {
      assert a + b == b;
    } else {
      ValuesConcat(a[1..], b, n);
      ValuesStep(a, b, n);
      Assoc(ValueOf(a[0], n), Values(a[1..], n), Values(b, n));
    }
  }

  lemma {:induction false} ValuesCons(h: Header, hs: seq<Header>, m: Name)
    ensures Values([h] + hs, m) == ValueOf(h, m) + Values(hs, m)
  {
    assert ([h] + hs)[1..] == hs;
  }

  lemma {:induction false} ValuesSnoc(hs: seq<Header>, h: Header, m: Name)
    ensures Values(hs + [h], m) == Values(hs, m) + ValueOf(h, m)
  {
    ValuesConcat(hs, [h], m);
    assert Values([h], m) == ValueOf(h, m);
  }

  lemma {:induction false} PartsOfHeaders(n: Name, vs: seq<string>, m: Name)
    ensures Values(Headers(n, vs), m) == if n == m then vs else []
    ensures Without(Headers(n, vs), m) == if n == m then [] else Headers(n, vs)
  {
    if vs != [] {
      PartsOfHeaders(n, vs[1..], m);
      assert Headers(n, vs)[1..] == Headers(n, vs[1..]);
    }
  }

  lemma {:induction false} ValuesWithout(hs: seq<Header>, n: Name, m: Name)
    ensures Values(Without(hs, n), m) == if n == m then [] else Values(hs, m)
    ensures Values(hs, n) == [] ==> Without(hs, n) == hs
  {
    if hs != [] {
      ValuesWithout(hs[1..], n, m);
      if hs[0].name != n { assert Without(hs, n)[1..] == Without(hs[1..], n); }
    }
  }

  lemma {:induction false} HeadersSnoc(n: Name, vs: seq<string>, v: string)
    ensures Headers(n, vs + [v]) == Headers(n, vs) + [Header(n, v)]
  {
    if vs != [] {
      HeadersSnoc(n, vs[1..], v);
      assert (vs + [v])[1..] == vs[1..] + [v];
    }
  }

  lemma {:induction false} ReverseSnoc(vs: seq<string>, v: string)
    ensures Reverse(vs + [v]) == [v] + Reverse(vs)
  {
    if vs != [] {
      ReverseSnoc(vs[1..], v);
      assert (vs + [v])[1..] == vs[1..] + [v];
    }
  }

  lemma {:induction false} ReverseTwice(vs: seq<string>)
    ensures Reverse(Reverse(vs)) == vs
  {
    if vs != [] {
      ReverseTwice(vs[1..]);
      ReverseSnoc(Reverse(vs[1..]), vs[0]);
    }
  }

  /** The position of the first header of a name, or the length if there is none. */
  function IndexOf(hs: seq<Header>, n: Name): (i: nat)
    ensures i <= |hs|
  {
    if hs == [] || hs[0].name == n then 0 else 1 + IndexOf(hs[1..], n)
  }

  function RemoveAt(hs: seq<Header>, i: nat): seq<Header>
    requires i < |hs|
  {
    hs[..i] + hs[i+1..]
  }

  lemma {:induction false} IndexOfNone(hs: seq<Header>, n: Name)
    ensures IndexOf(hs, n) == |hs| <==> Values(hs, n) == []
  {
    if hs != [] && hs[0].name != n { IndexOfNone(hs[1..], n); }
  }

  lemma RemoveAtHead(h: Header, hs: seq<Header>, i: nat)
    requires i < |hs|
    ensures RemoveAt([h] + hs, i + 1) == [h] + RemoveAt(hs, i)
  {
  }

  lemma {:induction false} IndexOfIsFirst(hs: seq<Header>, n: Name)
    requires IndexOf(hs, n) < |hs|
    ensures hs[IndexOf(hs, n)].name == n && Values(hs[..IndexOf(hs, n)], n) == []
  {
    if hs[0].name != n {
      var i := IndexOf(hs[1..], n);
      IndexOfIsFirst(hs[1..], n);
      assert hs[..i+1] == [hs[0]] + hs[1..][..i];
      ValuesCons(hs[0], hs[1..][..i], n);
    }
  }

  /** The values around one header. */
  lemma {:induction false} ValuesAround(hs: seq<Header>, i: nat, m: Name)
    requires i < |hs|
    ensures Values(hs, m) == Values(hs[..i], m) + ValueOf(hs[i], m) + Values(hs[i+1..], m)
    ensures Values(RemoveAt(hs, i), m) == Values(hs[..i], m) + Values(hs[i+1..], m)
  {
    var a, b := hs[..i], hs[i+1..];
    assert hs == a + [hs[i]] + b;
    ValuesConcat(a + [hs[i]], b, m);
    ValuesSnoc(a, hs[i], m);
    ValuesConcat(a, b, m);
  }

  /** Removing the first header of a name takes its first value, and no value of another name. */
  lemma {:induction false} RemoveFirst(hs: seq<Header>, n: Name, m: Name)
    requires IndexOf(hs, n) < |hs|
    ensures Values(hs, n) != []
    ensures Values(RemoveAt(hs, IndexOf(hs, n)), m) == if m == n then Values(hs, m)[1..] else Values(hs, m)
  {
    var i := IndexOf(hs, n);
    IndexOfIsFirst(hs, n);
    ValuesAround(hs, i, n);
    ValuesAround(hs, i, m);
  }

  lemma {:induction false} RemoveFirstKeepsOthers(hs: seq<Header>, n: Name)
    requires IndexOf(hs, n) < |hs|
    ensures Without(RemoveAt(hs, IndexOf(hs, n)), n) == Without(hs, n)
  {
    if hs[0].name == n {
      assert RemoveAt(hs, 0) == hs[1..];
    } else {
      var rest := RemoveAt(hs[1..], IndexOf(hs[1..], n));
      RemoveFirstKeepsOthers(hs[1..], n);
      RemoveAtHead(hs[0], hs[1..], IndexOf(hs[1..], n));
      assert hs == [hs[0]] + hs[1..];
      assert ([hs[0]] + rest)[1..] == rest;
    }
  }

  // ---- requests, rewritten in place ----

  datatype Uri = Uri(host: string, port: nat)

  const DEFAULT_PORT := 5060

  function WithPort(u: Uri): Uri { if u.port == 0 then u.(port := DEFAULT_PORT) else u }

  predicate EqualFold(a: string, b: string) {
    |a| == |b| && forall i | 0 <= i < |a| :: LowerChar(a[i]) == LowerChar(b[i])
  }

  /** Two URIs that reach the same party. */
  predicate SameTarget(a: Uri, b: Uri) { EqualFold(a.host, b.host) && WithPort(a).port == WithPort(b).port }

  /** Hosts are compared without case, and a missing port is 5060. */
  lemma TargetMeans(host: string, other: string, port: nat, port': nat)
    requires EqualFold(host, other)
    ensures SameTarget(Uri(host, port), Uri(other, port')) <==>
              port == port' || (port == 0 && port' == 5060) || (port == 5060 && port' == 0)
    ensures WithPort(Uri(host, 0)) == Uri(host, 5060) && (port != 0 ==> WithPort(Uri(host, port)) == Uri(host, port))
  {
  }

  class Request {
    var recipient: Uri
    var headers: seq<Header>
    var destination: string

    constructor (uri: Uri, hs: seq<Header>, dest: string)
      ensures recipient == uri && headers == hs && destination == dest
    {
      recipient, headers, destination := uri, hs, dest;
    }

    method RemoveHeader(n: Name) returns (removed: bool)
      modifies this`headers
      ensures removed <==> Values(old(headers), n) != []
      ensures removed ==> |headers| == |old(headers)| - 1
      ensures !removed ==> headers == old(headers)
      ensures Without(headers, n) == Without(old(headers), n)
      ensures forall m :: Values(headers, m) ==
                          if removed && m == n then Values(old(headers), m)[1..] else Values(old(headers), m)
    {
      var i := IndexOf(headers, n);
      IndexOfNone(headers, n);
      removed := i < |headers|;
      if removed {
        forall m
          ensures Values(RemoveAt(headers, i), m) == if m == n then Values(headers, m)[1..] else Values(headers, m)
        {
          RemoveFirst(headers, n, m);
        }
        RemoveFirstKeepsOthers(headers, n);
        headers := RemoveAt(headers, i);
      }
    }

    method RemoveAll(n: Name) returns (any: bool)
      modifies this`headers
      ensures any <==> Values(old(headers), n) != []
      ensures headers == Without(old(headers), n)
    {
      any := false;
      var removed := true;
      while removed
        invariant Without(headers, n) == Without(old(headers), n)
        invariant if any then Values(old(headers), n) != [] else headers == old(headers)
        invariant !removed ==> Values(headers, n) == []
        decreases removed, |headers|
      {
        removed := RemoveHeader(n);
        if removed { any := true; }
      }
      ValuesWithout(headers, n, n);
    }

    /** Prepends a Route header for each value, so the last one ends up first. */
    method PrependRoutes(vs: seq<string>)
      modifies this`headers
      ensures headers == Headers(Route, Reverse(vs)) + old(headers)
    {
      for i := 0 to |vs|
        invariant headers == Headers(Route, Reverse(vs[..i])) + old(headers)
      {
        ReverseSnoc(vs[..i], vs[i]);
        assert vs[..i+1] == vs[..i] + [vs[i]];
        assert Reverse(vs[..i+1])[1..] == Reverse(vs[..i]);
        headers := [Header(Route, vs[i])] + headers;
      }
      assert vs[..|vs|] == vs;
    }

    /**
      applyInviteResponse: the route set becomes the reversed Record-Route list, whatever was there before, and
      the cached destination survives exactly if the target did not move and no route came or went.
    */
    method ApplyInviteResponse(contact: Option<Uri>, responseHeaders: seq<Header>)
      modifies this
      ensures headers == Headers(Route, Reverse(Values(responseHeaders, RecordRoute))) + Without(old(headers), Route)
      ensures recipient == if contact.Some? then WithPort(contact.value) else old(recipient)
      ensures destination == if (contact.None? || SameTarget(old(recipient), contact.value))
                                && Values(old(headers), Route) == [] && Values(responseHeaders, RecordRoute) == []
                             then old(destination) else ""
    {
      var flush := false;
      if contact.Some? {
        var target := WithPort(contact.value);
        flush := !EqualFold(recipient.host, target.host) || WithPort(recipient).port != target.port;
        recipient := target;
      }
      var any := RemoveAll(Route);
      var rrs := Values(responseHeaders, RecordRoute);
      PrependRoutes(rrs);
      if flush || any || rrs != [] { destination := ""; }
    }

    /** Replaces the first header of a name by one at the end. */
    method Replace(n: Name, value: string)
      modifies this`headers
      ensures forall m :: Values(headers, m) ==
                          if m == n
                          then (if Values(old(headers), n) == [] then [] else Values(old(headers), n)[1..]) + [value]
                          else Values(old(headers), m)
    {
      var _ := RemoveHeader(n);
      forall m ensures Values(headers + [Header(n, value)], m) == Values(headers, m) + if m == n then [value] else [] {
        ValuesSnoc(headers, Header(n, value), m);
      }
      headers := headers + [Header(n, value)];
    }

    /** The header part of swapSrcDst: our side becomes From, the Record-Route list becomes the route set. */
    method SwapSrcDst(ourTo: string, theirFrom: string, via: string)
      modifies this`headers
      ensures Values(headers, Route) == Reverse(Values(old(headers), RecordRoute)) + Values(old(headers), Route)
      ensures Values(headers, RecordRoute) == [] && Values(headers, Via) == [via]
      ensures |Values(old(headers), From)| <= 1 ==> Values(headers, From) == [ourTo]
      ensures |Values(old(headers), To)| <= 1 ==> Values(headers, To) == [theirFrom]
    {
      Replace(From, ourTo);
      Replace(To, theirFrom);
      ghost var swapped := headers;
      var _ := RemoveAll(Via);
      headers := [Header(Via, via)] + headers;
      var rrs := Values(headers, RecordRoute);
      PrependRoutes(rrs);
      var _ := RemoveAll(RecordRoute);
      SwappedValues(swapped, via, Route);
      SwappedValues(swapped, via, RecordRoute);
      SwappedValues(swapped, via, Via);
      SwappedValues(swapped, via, From);
      SwappedValues(swapped, via, To);
    }
  }

  /** What a swapped request carries under each name, given its From and To already replaced. */
  function AfterSwap(hs: seq<Header>, via: string, m: Name): seq<string> {
    match m
    case Route => Reverse(Values(hs, RecordRoute)) + Values(hs, Route)
    case RecordRoute => []
    case Via => [via]
    case _ => Values(hs, m)
  }

  lemma {:induction false} SwappedValues(hs: seq<Header>, via: string, m: Name)
    ensures var oneVia := [Header(Via, via)] + Without(hs, Via);
            var routed := Headers(Route, Reverse(Values(oneVia, RecordRoute))) + oneVia;
            Values(Without(routed, RecordRoute), m) == AfterSwap(hs, via, m)
  {
    var noVia := Without(hs, Via);
    var oneVia := [Header(Via, via)] + noVia;
    var rrs := Values(oneVia, RecordRoute);
    var routed := Headers(Route, Reverse(rrs)) + oneVia;
    ValuesWithout(hs, Via, m);
    ValuesWithout(hs, Via, RecordRoute);
    ValuesCons(Header(Via, via), noVia, m);
    ValuesCons(Header(Via, via), noVia, RecordRoute);
    ValuesConcat(Headers(Route, Reverse(rrs)), oneVia, m);
    PartsOfHeaders(Route, Reverse(rrs), m);
    ValuesWithout(routed, RecordRoute, m);
  }

  lemma {:induction false} RoutesOf(routes: seq<string>, rest: seq<Header>)
    ensures Values(Headers(Route, routes) + rest, Route) == routes + Values(rest, Route)
    ensures Values(Headers(Route, routes) + rest, RecordRoute) == Values(rest, RecordRoute)
  {
    ValuesConcat(Headers(Route, routes), rest, Route);
    ValuesConcat(Headers(Route, routes), rest, RecordRoute);
    PartsOfHeaders(Route, routes, Route);
    PartsOfHeaders(Route, routes, RecordRoute);
  }

  /** Only the middle part of a REFER's headers carries routes. */
  lemma {:induction false} ReferRoutes(vias: seq<string>, tail: seq<Header>, rest: seq<Header>, n: Name)
    requires n != Via && Values(rest, n) == []
    ensures Values(Headers(Via, vias) + tail + rest, n) == Values(tail, n)
  {
    var hs := Headers(Via, vias);
    ValuesConcat(hs + tail, rest, n);
    ValuesConcat(hs, tail, n);
    PartsOfHeaders(Via, vias, n);
  }

  /**
    The routing part of NewReferRequest: the INVITE's own routes if it has any, else the response's Record-Route list
    backwards.
  */
  method NewReferRequest(invite: Request, responseHeaders: seq<Header>, rest: seq<Header>) returns (req: Request)
    requires Values(rest, Route) == Values(rest, RecordRoute) == []
    ensures fresh(req) && req.recipient == invite.recipient
    ensures var routes := Values(invite.headers, Route);
            && Values(req.headers, Route) == routes
            && Values(req.headers, RecordRoute) ==
               if routes != [] then [] else Reverse(Values(responseHeaders, RecordRoute))
  {
    var hs := Headers(Via, Values(invite.headers, Via));
    var routes := Values(invite.headers, Route);
    ghost var vias := hs;
    ghost var tail: seq<Header>;
    if routes != [] {
      tail := Headers(Route, routes);
      hs := hs + Headers(Route, routes);
    } else {
      var rrs := Values(responseHeaders, RecordRoute);
      var i := |rrs|;
      while i > 0
        invariant 0 <= i <= |rrs|
        invariant hs == vias + Headers(RecordRoute, Reverse(rrs[i..]))
      {
        i := i - 1;
        assert rrs[i..][1..] == rrs[i+1..];
        HeadersSnoc(RecordRoute, Reverse(rrs[i+1..]), rrs[i]);
        hs := hs + [Header(RecordRoute, rrs[i])];
      }
      assert rrs[0..] == rrs;
      tail := Headers(RecordRoute, Reverse(rrs));
    }
    assert hs == vias + tail;
    ReferRoutes(Values(invite.headers, Via), tail, rest, Route);
    ReferRoutes(Values(invite.headers, Via), tail, rest, RecordRoute);
    PartsOfHeaders(Route, routes, Route);
    PartsOfHeaders(Route, routes, RecordRoute);
    PartsOfHeaders(RecordRoute, Reverse(Values(responseHeaders, RecordRoute)), Route);
    PartsOfHeaders(RecordRoute, Reverse(Values(responseHeaders, RecordRoute)), RecordRoute);
    req := new Request(invite.recipient, hs + rest, invite.destination);
  }

  /**
    A REFER on an inbound dialog whose INVITE came without Route carries the Record-Route list of our 200 in its own
    order.
  */
  method InboundRefer(invite: Request, okHeaders: seq<Header>, rest: seq<Header>, ourTo: string, theirFrom: string,
                      via: string)
    returns (req: Request)
    requires Values(rest, Route) == Values(rest, RecordRoute) == []
    ensures fresh(req) && Values(req.headers, RecordRoute) == []
    ensures Values(invite.headers, Route) == [] ==> Values(req.headers, Route) == Values(okHeaders, RecordRoute)
    ensures Values(invite.headers, Route) != [] ==> Values(req.headers, Route) == Values(invite.headers, Route)
  {
    req := NewReferRequest(invite, okHeaders, rest);
    req.SwapSrcDst(ourTo, theirFrom, via);
    ReverseTwice(Values(okHeaders, RecordRoute));
  }

  /**
    A REFER on an outbound dialog carries the Record-Route list of the 200 backwards, and none of the INVITE's own
    routes.
  */
  method OutboundRefer(invite: Request, contact: Option<Uri>, okHeaders: seq<Header>, rest: seq<Header>)
    returns (req: Request)
    requires Values(rest, Route) == Values(rest, RecordRoute) == []
    modifies invite
    ensures fresh(req) && req.recipient == if contact.Some? then WithPort(contact.value) else old(invite.recipient)
    ensures Values(req.headers, Route) == Reverse(Values(okHeaders, RecordRoute))
    ensures Values(req.headers, RecordRoute) == []
  {
    invite.ApplyInviteResponse(contact, okHeaders);
    RoutesOf(Reverse(Values(okHeaders, RecordRoute)), Without(old(invite.headers), Route));
    ValuesWithout(old(invite.headers), Route, Route);
    req := NewReferRequest(invite, okHeaders, rest);
    ReverseTwice(Values(okHeaders, RecordRoute));
  }
}
