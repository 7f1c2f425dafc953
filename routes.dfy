/**
 * The route value object of `src/route.rs`: an IP address type, the route
 * record, its builder (`new` and the six setters) and its text rendering.
 */
module Routes {
  import opened Common

  type Octets4 = s: seq<u8> | |s| == 4 witness [0, 0, 0, 0]
  type Octets16 = s: seq<u8> | |s| == 16 witness [0, 0, 0, 0, 0, 0, 0, 0, 0, 0, 0, 0, 0, 0, 0, 0]

  /** `std::net::IpAddr`: a version-4 or version-6 address given by its octets. */
  datatype IpAddr = V4(v4: Octets4) | V6(v6: Octets16) {
    function Octets(): (s: seq<u8>)
      ensures |s| == if V4? then 4 else 16
    {
      if V4? then v4 else v6
    }

    /** Every octet is zero: `0.0.0.0` or `::`. */
    predicate IsUnspecified() {
      forall i :: 0 <= i < |Octets()| ==> Octets()[i] == 0
    }
  }

  const Unspecified4: IpAddr := V4([0, 0, 0, 0])
  const Unspecified6: IpAddr := V6([0, 0, 0, 0, 0, 0, 0, 0, 0, 0, 0, 0, 0, 0, 0, 0])

  /** The two unspecified constants are exactly the all-zero addresses. */
  lemma UnspecifiedIsAllZero(a: IpAddr)
    ensures a.IsUnspecified() <==> a == Unspecified4 || a == Unspecified6
  {
    if a.IsUnspecified() {
      var z := if a.V4? then Unspecified4 else Unspecified6;
      assert |a.Octets()| == |z.Octets()|;
      forall i | 0 <= i < |a.Octets()| ensures a.Octets()[i] == z.Octets()[i] {
        assert a.Octets()[i] == 0;
      }
      assert a.Octets() == z.Octets();
    }
  }

  /** The unspecified address of `a`'s family. */
  function UnspecifiedOf(a: IpAddr): (u: IpAddr)
    ensures u.V4? == a.V4? && u.IsUnspecified()
  {
    if a.V4? then Unspecified4 else Unspecified6
  }

  /** The IP version number carried by an address. */
  function VersionOf(a: IpAddr): (v: u8)
    ensures v == 4 <==> a.V4?
    ensures v == 6 <==> a.V6?
  {
    match a
    case V4(_) => 4
    case V6(_) => 6
  }

  /** One routing-table entry. `version` is stored, as in the source. */
  datatype Route = Route(
    destination: IpAddr,
    prefix: u8,
    gateway: IpAddr,
    ifindex: Option<u32>,
    metric: Option<u32>,
    luid: Option<u64>,
    version: u8)

  /** The stored version agrees with the destination's family. */
  predicate Consistent(r: Route) {
    r.version == VersionOf(r.destination)
  }

  /** `Route::new`: the gateway is the unspecified address of the destination's family. */
  function New(destination: IpAddr, prefix: u8): (r: Route)
    ensures r.destination == destination && r.prefix == prefix
    ensures r.gateway.IsUnspecified() && r.gateway.V4? == destination.V4?
    ensures r.ifindex == None && r.metric == None && r.luid == None
    ensures Consistent(r)
  {
    Route(destination, prefix, UnspecifiedOf(destination), None, None, None, VersionOf(destination))
  }

  /** The `destination` setter recomputes `version`; nothing else changes. */
  function WithDestination(route: Route, destination: IpAddr): (r: Route)
    ensures r.destination == destination && Consistent(r)
    ensures r.(destination := route.destination, version := route.version) == route
  {
    route.(destination := destination, version := VersionOf(destination))
  }

  function WithPrefix(route: Route, prefix: u8): (r: Route)
    ensures r.prefix == prefix
    ensures r.(prefix := route.prefix) == route
    ensures Consistent(route) ==> Consistent(r)
  {
    route.(prefix := prefix)
  }

  /** The `gateway` setter leaves `version` alone, whatever the gateway's family. */
  function WithGateway(route: Route, gateway: IpAddr): (r: Route)
    ensures r.gateway == gateway
    ensures r.(gateway := route.gateway) == route
    ensures r.version == route.version
  {
    route.(gateway := gateway)
  }

  function WithIfindex(route: Route, idx: u32): (r: Route)
    ensures r.ifindex == Some(idx)
    ensures r.(ifindex := route.ifindex) == route
    ensures Consistent(route) ==> Consistent(r)
  {
    route.(ifindex := Some(idx))
  }

  function WithMetric(route: Route, metric: u32): (r: Route)
    ensures r.metric == Some(metric)
    ensures r.(metric := route.metric) == route
    ensures Consistent(route) ==> Consistent(r)
  {
    route.(metric := Some(metric))
  }

  function WithLuid(route: Route, luid: u64): (r: Route)
    ensures r.luid == Some(luid)
    ensures r.(luid := route.luid) == route
    ensures Consistent(route) ==> Consistent(r)
  {
    route.(luid := Some(luid))
  }

  /** A V6 gateway on a V4 route keeps version 4. */
  lemma MixedFamilyGatewayKeepsVersion(destination: Octets4, prefix: u8, gateway: Octets16)
    ensures WithGateway(New(V4(destination), prefix), V6(gateway)).version == 4
    ensures Consistent(WithGateway(New(V4(destination), prefix), V6(gateway)))
  {
  }

  // ---------------------------------------------------------------------
  // Text rendering (`impl Display for Route`)
  // ---------------------------------------------------------------------

  predicate IsDigit(c: char) {
    '0' <= c <= '9'
  }

  predicate IsDecimal(s: string) {
    |s| >= 1 && forall i :: 0 <= i < |s| ==> IsDigit(s[i])
  }

  function Digit(d: nat): (c: char)
    requires d < 10
    ensures IsDigit(c)
  {
    ('0' as int + d) as char
  }

  function DigitValue(c: char): (d: nat)
    requires IsDigit(c)
    ensures d < 10 && Digit(d) == c
  {
    c as int - '0' as int
  }

  /** Rust's `{}` for an unsigned integer: decimal digits, no leading zero. */
  function DecimalText(n: nat): (s: string)
    ensures IsDecimal(s)
    ensures s[0] == '0' ==> n == 0
  {
    if n < 10 then [Digit(n)] else DecimalText(n / 10) + [Digit(n % 10)]
  }

  /** Reads a decimal numeral back; the inverse of `DecimalText`. */
  function ParseDecimal(s: string): nat
    requires IsDecimal(s)
  {
    if |s| == 1 then DigitValue(s[0])
    else ParseDecimal(s[..|s| - 1]) * 10 + DigitValue(s[|s| - 1])
  }

  lemma {:induction false} ParseDecimalText(n: nat)
    ensures ParseDecimal(DecimalText(n)) == n
  {
    var s := DecimalText(n);
    if n >= 10 {
      ParseDecimalText(n / 10);
      assert s[..|s| - 1] == DecimalText(n / 10);
      assert DigitValue(s[|s| - 1]) == n % 10;
    } else {
      assert DigitValue(s[0]) == n;
    }
  }

  lemma DecimalTextInjective(m: nat, n: nat)
    ensures DecimalText(m) == DecimalText(n) <==> m == n
  {
    if DecimalText(m) == DecimalText(n) {
      ParseDecimalText(m);
      ParseDecimalText(n);
    }
  }

  /** `{:?}` of `Option<u32>`: `Some(n)` or `None`. */
  function MetricText(m: Option<u32>): string {
    match m
    case None => "None"
    case Some(v) => "Some(" + DecimalText(v) + ")"
  }

  lemma MetricTextInjective(a: Option<u32>, b: Option<u32>)
    ensures MetricText(a) == MetricText(b) <==> a == b
  {
    if MetricText(a) == MetricText(b) {
      if a.Some? && b.Some? {
        var sa, sb := DecimalText(a.value), DecimalText(b.value);
        assert MetricText(a)[5..|MetricText(a)| - 1] == sa;
        assert MetricText(b)[5..|MetricText(b)| - 1] == sb;
        DecimalTextInjective(a.value, b.value);
      }
    }
  }

  /** Dotted-quad text of version-4 octets, as `Ipv4Addr`'s `Display` writes it. */
  function DottedQuad(o: Octets4): string {
    DecimalText(o[0]) + "." + DecimalText(o[1]) + "." + DecimalText(o[2]) + "." + DecimalText(o[3])
  }

  /**
   * Text of an address. Version-6 text (with the zero compression of
   * section 4.2 of RFC 5952) is supplied by the caller as `v6Text`.
   */
  function AddrText(a: IpAddr, v6Text: Octets16 -> string): string {
    match a
    case V4(o) => DottedQuad(o)
    case V6(o) => v6Text(o)
  }

  /** `"<dest>/<prefix> gateway <gw> metric <Some(n)|None>"`. */
  function Render(r: Route, v6Text: Octets16 -> string): (s: string)
    ensures |s| > 0 && (s[|s| - 1] == ')' <==> r.metric.Some?)
  {
    AddrText(r.destination, v6Text) + "/" + DecimalText(r.prefix) + " gateway "
      + AddrText(r.gateway, v6Text) + " metric " + MetricText(r.metric)
  }

  /** Two routes that differ at most in `metric` render alike exactly when the metrics agree. */
  lemma RenderShowsMetric(r1: Route, r2: Route, v6Text: Octets16 -> string)
    requires r1.(metric := r2.metric) == r2
    ensures Render(r1, v6Text) == Render(r2, v6Text) <==> r1.metric == r2.metric
  {
    var head := AddrText(r1.destination, v6Text) + "/" + DecimalText(r1.prefix) + " gateway "
      + AddrText(r1.gateway, v6Text) + " metric ";
    assert Render(r1, v6Text) == head + MetricText(r1.metric);
    assert Render(r2, v6Text) == head + MetricText(r2.metric);
    if Render(r1, v6Text) == Render(r2, v6Text) {
      assert MetricText(r1.metric) == Render(r1, v6Text)[|head|..];
      assert MetricText(r2.metric) == Render(r2, v6Text)[|head|..];
      MetricTextInjective(r1.metric, r2.metric);
    }
  }

  const Fe80_9464: Octets16 := [0xfe, 0x80, 0x94, 0x64, 0, 0, 0, 0, 0, 0, 0, 0, 0, 0, 0, 0]

  lemma DecimalExamples()
    ensures DecimalText(0) == "0" && DecimalText(1) == "1"
    ensures DecimalText(24) == "24" && DecimalText(32) == "32"
    ensures DecimalText(168) == "168" && DecimalText(172) == "172"
    ensures DecimalText(192) == "192" && DecimalText(254) == "254"
  {
    assert DecimalText(2) == "2" && DecimalText(3) == "3";
    assert DecimalText(16) == "16" && DecimalText(17) == "17";
    assert DecimalText(19) == "19" && DecimalText(25) == "25";
  }

  lemma DottedQuadExamples()
    ensures DottedQuad([192, 168, 1, 0]) == "192.168.1.0"
    ensures DottedQuad([192, 168, 0, 0]) == "192.168.0.0"
    ensures DottedQuad([172, 1, 1, 254]) == "172.1.1.254"
    ensures DottedQuad([0, 0, 0, 0]) == "0.0.0.0"
  {
    DecimalExamples();
  }

  lemma MetricTextExamples()
    ensures MetricText(None) == "None" && MetricText(Some(1)) == "Some(1)"
  {
    assert DecimalText(1) == "1";
  }

  /** Any route with these fields renders as the first example of the source's tests. */
  lemma RenderUnsetMetricV4(r: Route, v6Text: Octets16 -> string)
    requires r.destination == V4([192, 168, 1, 0]) && r.prefix == 32
    requires r.gateway == Unspecified4 && r.metric == None
    ensures Render(r, v6Text) == "192.168.1.0/32 gateway 0.0.0.0 metric None"
  {
    DecimalExamples();
    DottedQuadExamples();
  }

  lemma RenderNewV4(v6Text: Octets16 -> string)
    ensures Render(New(V4([192, 168, 1, 0]), 32), v6Text) == "192.168.1.0/32 gateway 0.0.0.0 metric None"
    ensures New(V4([192, 168, 1, 0]), 32).version == 4
  {
    RenderUnsetMetricV4(New(V4([192, 168, 1, 0]), 32), v6Text);
  }

  /** Any route with these fields renders as the second example of the source's tests. */
  lemma RenderSetMetricV4(r: Route, v6Text: Octets16 -> string)
    requires r.destination == V4([192, 168, 0, 0]) && r.prefix == 24
    requires r.gateway == V4([172, 1, 1, 254]) && r.metric == Some(1)
    ensures Render(r, v6Text) == "192.168.0.0/24 gateway 172.1.1.254 metric Some(1)"
  {
    DottedQuadExamples();
    MetricTextExamples();
    var d, p, g, m := AddrText(r.destination, v6Text), DecimalText(r.prefix), AddrText(r.gateway, v6Text), MetricText(r.metric);
    assert Render(r, v6Text) == d + "/" + p + " gateway " + g + " metric " + m;
    assert p == "24";
    ConcatSetMetricText(d, p, g, m);
  }

  lemma ConcatSetMetricText(d: string, p: string, g: string, m: string)
    requires d == "192.168.0.0" && p == "24" && g == "172.1.1.254" && m == "Some(1)"
    ensures d + "/" + p + " gateway " + g + " metric " + m == "192.168.0.0/24 gateway 172.1.1.254 metric Some(1)"
  {
  }

  lemma RenderBuiltV4(v6Text: Octets16 -> string)
    ensures Render(WithMetric(WithLuid(WithIfindex(WithGateway(WithPrefix(WithDestination(
        New(V4([192, 168, 1, 0]), 32), V4([192, 168, 0, 0])), 24), V4([172, 1, 1, 254])), 1), 123456), 1), v6Text)
      == "192.168.0.0/24 gateway 172.1.1.254 metric Some(1)"
    ensures WithMetric(WithLuid(WithIfindex(WithGateway(WithPrefix(WithDestination(
        New(V4([192, 168, 1, 0]), 32), V4([192, 168, 0, 0])), 24), V4([172, 1, 1, 254])), 1), 123456), 1).version == 4
  {
    RenderSetMetricV4(WithMetric(WithLuid(WithIfindex(WithGateway(WithPrefix(WithDestination(
        New(V4([192, 168, 1, 0]), 32), V4([192, 168, 0, 0])), 24), V4([172, 1, 1, 254])), 1), 123456), 1), v6Text);
  }

  lemma RenderNewV6(v6Text: Octets16 -> string)
    requires v6Text(Fe80_9464) == "fe80:9464::" && v6Text(Unspecified6.v6) == "::"
    ensures Render(New(V6(Fe80_9464), 32), v6Text) == "fe80:9464::/32 gateway :: metric None"
    ensures New(V6(Fe80_9464), 32).version == 6
  {
    DecimalExamples();
  }
}
