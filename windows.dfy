/**
 * The Windows route operator of `src/windows.rs`: the conversion between a
 * `Route` and the kernel's `MIB_IPFORWARD_ROW2`, the mapping of Win32 error
 * codes and notification kinds, and the operator that calls the kernel.
 *
 * The union `SOCKADDR_INET` becomes a family tag with the octets written
 * through the matching view. The kernel's routing API becomes a `Kernel`
 * object that logs every call together with the status it returned; the
 * status is chosen arbitrarily, so every proof holds whatever the kernel
 * answers.
 */
module Windows {
  import opened Common
  import opened Routes
  import opened Cache

  const AF_UNSPEC: u16 := 0
  const AF_INET: u16 := 2
  const AF_INET6: u16 := 23
  const MIB_IPPROTO_NETMGMT: u32 := 3

  /** `MIB_NOTIFICATION_TYPE` values. */
  const MibParameterNotification: u32 := 0
  const MibAddInstance: u32 := 1
  const MibDeleteInstance: u32 := 2
  const MibInitialNotification: u32 := 3

  /** Win32 status codes the crate names. */
  const ERROR_FILE_NOT_FOUND: u32 := 2
  const ERROR_ACCESS_DENIED: u32 := 5
  const ERROR_INVALID_PARAMETER: u32 := 87
  const ERROR_NOT_FOUND: u32 := 1168
  const ERROR_OBJECT_ALREADY_EXISTS: u32 := 5010

  // ---------------------------------------------------------------------
  // Error codes
  // ---------------------------------------------------------------------

  /** The `ErrorKind` a Win32 status code maps to. */
  function KindOfCode(code: u32): (k: ErrorKind)
    ensures k == NotFound <==> code == ERROR_FILE_NOT_FOUND || code == ERROR_NOT_FOUND
    ensures k == PermissionDenied <==> code == ERROR_ACCESS_DENIED
    ensures k == InvalidInput <==> code == ERROR_INVALID_PARAMETER
    ensures k == AlreadyExists <==> code == ERROR_OBJECT_ALREADY_EXISTS
    ensures k == Other <==> code !in {2, 5, 87, 1168, 5010}
  {
    match code
    case 2 => NotFound
    case 5 => PermissionDenied
    case 87 => InvalidInput
    case 5010 => AlreadyExists
    case 1168 => NotFound
    case _ => Other
  }

  /** `ErrorKind`'s `Display` text. */
  function KindText(k: ErrorKind): string {
    match k
    case NotFound => "entity not found"
    case PermissionDenied => "permission denied"
    case InvalidInput => "invalid input parameter"
    case AlreadyExists => "entity already exists"
    case Other => "other error"
  }

  /** `code_to_error`: an I/O error of the mapped kind whose message is `"<msg>: <kind>"`. */
  function CodeToError(code: u32, msg: string): (e: Error)
    ensures e.Io? && e.kind == KindOfCode(code)
    ensures e.message == msg + ": " + KindText(e.kind)
  {
    var kind := KindOfCode(code);
    Io(kind, msg + ": " + KindText(kind))
  }

  /** Under one operation description, the message tells the kinds apart. */
  lemma MessageDeterminesKind(c1: u32, c2: u32, msg: string)
    ensures CodeToError(c1, msg).message == CodeToError(c2, msg).message
        <==> KindOfCode(c1) == KindOfCode(c2)
  {
    var k1, k2 := KindOfCode(c1), KindOfCode(c2);
    var head := msg + ": ";
    if CodeToError(c1, msg).message == CodeToError(c2, msg).message {
      assert KindText(k1) == (head + KindText(k1))[|head|..];
      assert KindText(k2) == (head + KindText(k2))[|head|..];
      assert KindText(k1) == KindText(k2);
    }
  }

  /** A kernel status turned into the call's outcome: zero is success. */
  function StatusResult(status: u32, msg: string): (r: Result<(), Error>)
    ensures r.Ok? <==> status == 0
    ensures r.Err? ==> r.error == CodeToError(status, msg)
  {
    if status == 0 then Ok(()) else Err(CodeToError(status, msg))
  }

  // ---------------------------------------------------------------------
  // The native row
  // ---------------------------------------------------------------------

  /** `SOCKADDR_INET`: the family tag and the octets written through one of its views. */
  datatype SockAddr = SockAddr(family: u16, octets: seq<u8>)

  /** The tag names the view that was written: what the kernel hands out. */
  predicate Readable(a: SockAddr) {
    && (a.family == AF_INET ==> |a.octets| == 4)
    && (a.family == AF_INET6 ==> |a.octets| == 16)
  }

  predicate KnownFamily(a: SockAddr) {
    a.family == AF_INET || a.family == AF_INET6
  }

  /** The fields of `MIB_IPFORWARD_ROW2` that the crate reads or writes. */
  datatype Row = Row(
    interfaceLuid: u64,
    interfaceIndex: u32,
    destinationPrefix: SockAddr,
    prefixLength: u8,
    nextHop: SockAddr,
    metric: u32,
    protocol: u32)

  predicate RowReadable(row: Row) {
    Readable(row.destinationPrefix) && Readable(row.nextHop)
  }

  /** A zeroed row after `InitializeIpForwardEntry`: no interface and no address set. */
  const InitialRow: Row := Row(0, 0, SockAddr(AF_UNSPEC, []), 0, SockAddr(AF_UNSPEC, []), 0, 0)

  /** The socket address of `a`, tagged by its own family. */
  function SockAddrOf(a: IpAddr): (s: SockAddr)
    ensures s.family == (if a.V4? then AF_INET else AF_INET6)
    ensures s.octets == a.Octets()
    ensures Readable(s) && KnownFamily(s)
  {
    match a
    case V4(o) => SockAddr(AF_INET, o)
    case V6(o) => SockAddr(AF_INET6, o)
  }

  /**
   * `From<&Route> for MIB_IPFORWARD_ROW2`. The destination is tagged by its
   * own family; the next hop is tagged `AF_INET` for both families. Unset
   * options keep the initial row's zeros; an unset metric is 0.
   */
  function RowOf(route: Route): (row: Row)
    ensures row.destinationPrefix == SockAddrOf(route.destination)
    ensures row.prefixLength == route.prefix
    ensures row.nextHop == SockAddr(AF_INET, route.gateway.Octets())
    ensures row.metric == route.metric.GetOr(0)
    ensures row.protocol == MIB_IPPROTO_NETMGMT
    ensures row.interfaceIndex == route.ifindex.GetOr(InitialRow.interfaceIndex)
    ensures row.interfaceLuid == route.luid.GetOr(InitialRow.interfaceLuid)
  {
    Row(route.luid.GetOr(InitialRow.interfaceLuid), route.ifindex.GetOr(InitialRow.interfaceIndex),
        SockAddrOf(route.destination), route.prefix, SockAddr(AF_INET, route.gateway.Octets()),
        route.metric.GetOr(0), MIB_IPPROTO_NETMGMT)
  }

  /**
   * A V6 gateway is written with the `AF_INET` tag: the row claims a
   * version-4 next hop but holds sixteen octets, so no decoding applies to
   * it and no round trip is claimed for it.
   */
  lemma V6GatewayMisTagged(r: Route)
    ensures RowReadable(RowOf(r)) <==> r.gateway.V4?
    ensures r.gateway.V6? ==> RowOf(r).nextHop.family == AF_INET && |RowOf(r).nextHop.octets| == 16
  {
  }

  /** The conversion, field by field on a freshly initialised row. */
  method EncodeRow(route: Route) returns (row: Row)
    ensures row == RowOf(route)
  {
    row := InitialRow;
    if route.ifindex.Some? {
      row := row.(interfaceIndex := route.ifindex.value);
    }
    if route.luid.Some? {
      row := row.(interfaceLuid := route.luid.value);
    }
    match route.gateway {
      case V4(o) =>
        row := row.(nextHop := SockAddr(AF_INET, o));
      case V6(o) =>
        row := row.(nextHop := SockAddr(AF_INET, o));
    }
    row := row.(prefixLength := route.prefix);
    match route.destination {
      case V4(o) =>
        row := row.(destinationPrefix := SockAddr(AF_INET, o));
      case V6(o) =>
        row := row.(destinationPrefix := SockAddr(AF_INET6, o));
    }
    if route.metric.Some? {
      row := row.(metric := route.metric.value);
    } else {
      row := row.(metric := 0);
    }
    row := row.(protocol := MIB_IPPROTO_NETMGMT);
  }

  /** Reads one tagged address; any family but `AF_INET`/`AF_INET6` is the panic, reporting `reported`. */
  function AddrOf(a: SockAddr, reported: u16): (r: Result<IpAddr, Error>)
    requires Readable(a)
    ensures r.Ok? <==> KnownFamily(a)
    ensures r.Ok? ==> r.value.Octets() == a.octets && (r.value.V4? <==> a.family == AF_INET)
    ensures r.Err? ==> r.error == UnexpectedFamily(reported)
  {
    if a.family == AF_INET then Ok(V4(a.octets))
    else if a.family == AF_INET6 then Ok(V6(a.octets))
    else Err(UnexpectedFamily(reported))
  }

  /**
   * `From<&MIB_IPFORWARD_ROW2> for Route`. Both panics report the
   * destination's family, as the source's messages do.
   */
  function RouteOf(row: Row): (r: Result<Route, Error>)
    requires RowReadable(row)
    ensures r.Ok? <==> KnownFamily(row.destinationPrefix) && KnownFamily(row.nextHop)
    ensures r.Err? ==> r.error == UnexpectedFamily(row.destinationPrefix.family)
    ensures r.Ok? ==> && Consistent(r.value)
                      && r.value.destination.Octets() == row.destinationPrefix.octets
                      && r.value.gateway.Octets() == row.nextHop.octets
                      && r.value.prefix == row.prefixLength
                      && r.value.ifindex == Some(row.interfaceIndex)
                      && r.value.luid == Some(row.interfaceLuid)
                      && r.value.metric == Some(row.metric)
  {
    match AddrOf(row.destinationPrefix, row.destinationPrefix.family)
    case Err(e) => Err(e)
    case Ok(dst) =>
      match AddrOf(row.nextHop, row.destinationPrefix.family)
      case Err(e) => Err(e)
      case Ok(gw) =>
        var route := WithMetric(WithLuid(WithIfindex(New(dst, row.prefixLength), row.interfaceIndex), row.interfaceLuid), row.metric);
        Ok(route.(gateway := gw))
  }

  /**
   * Decoding an encoded route with a V4 gateway gives back its destination,
   * prefix and gateway; the options come back set, to zero where they were
   * unset, and the version is the destination's.
   */
  lemma DecodeEncode(r: Route)
    requires r.gateway.V4?
    ensures RowReadable(RowOf(r))
    ensures RouteOf(RowOf(r)) == Ok(Route(r.destination, r.prefix, r.gateway,
      Some(r.ifindex.GetOr(0)), Some(r.metric.GetOr(0)), Some(r.luid.GetOr(0)), VersionOf(r.destination)))
  {
  }

  /** A consistent route with a V4 gateway and every option set survives the round trip unchanged. */
  lemma DecodeEncodeIdentity(r: Route)
    requires Consistent(r) && r.gateway.V4?
    requires r.ifindex.Some? && r.metric.Some? && r.luid.Some?
    ensures RouteOf(RowOf(r)) == Ok(r)
  {
    DecodeEncode(r);
  }

  /**
   * Every kernel row with a known destination family, a V4 next hop and
   * the network-management protocol is the encoding of its own decoding.
   */
  lemma EncodeDecode(row: Row)
    requires RowReadable(row) && KnownFamily(row.destinationPrefix) && row.nextHop.family == AF_INET
    requires row.protocol == MIB_IPPROTO_NETMGMT
    ensures RouteOf(row).Ok? && RowOf(RouteOf(row).value) == row
  {
    var r := RouteOf(row).value;
    assert RowOf(r).destinationPrefix == row.destinationPrefix;
    assert RowOf(r).nextHop == row.nextHop;
  }

  /** `read_all_routes`' conversion: every row in order; the first bad family is the panic. */
  function DecodeAll(rows: seq<Row>): (r: Result<seq<Route>, Error>)
    requires forall row <- rows :: RowReadable(row)
    ensures r.Ok? <==> forall i :: 0 <= i < |rows| ==> RouteOf(rows[i]).Ok?
    ensures r.Ok? ==> |r.value| == |rows| && forall i :: 0 <= i < |rows| ==> RouteOf(rows[i]) == Ok(r.value[i])
    ensures r.Err? ==> exists i :: 0 <= i < |rows| && RouteOf(rows[i]) == Err(r.error)
                          && forall j :: 0 <= j < i ==> RouteOf(rows[j]).Ok?
  {
    if rows == [] then Ok([])
    else
      match RouteOf(rows[0])
      case Err(e) => Err(e)
      case Ok(first) =>
        match DecodeAll(rows[1..])
        case Err(e) => Err(e)
        case Ok(rest) => Ok([first] + rest)
  }

  /**
   * The kernel callback's choice of event: the row is decoded first (a bad
   * family panics whatever the kind), then parameter change, add and delete
   * give `Change`, `Add` and `Delete`; any other kind gives no event.
   */
  function Notification(row: Row, kind: u32): (r: Result<Option<RouteEvent>, Error>)
    requires RowReadable(row)
    ensures RouteOf(row).Err? ==> r == Err(RouteOf(row).error)
    ensures RouteOf(row).Ok? ==> r.Ok?
    ensures r.Ok? ==> (r.value.None? <==> kind !in {MibParameterNotification, MibAddInstance, MibDeleteInstance})
    ensures r.Ok? && r.value.Some? ==>
      && r.value.value.route == RouteOf(row).value
      && (r.value.value.Change? <==> kind == MibParameterNotification)
      && (r.value.value.Add? <==> kind == MibAddInstance)
      && (r.value.value.Delete? <==> kind == MibDeleteInstance)
  {
    match RouteOf(row)
    case Err(e) => Err(e)
    case Ok(route) =>
      if kind == MibParameterNotification then Ok(Some(Change(route)))
      else if kind == MibAddInstance then Ok(Some(Add(route)))
      else if kind == MibDeleteInstance then Ok(Some(Delete(route)))
      else Ok(None)
  }

  // ---------------------------------------------------------------------
  // The kernel and the operator
  // ---------------------------------------------------------------------

  /** An opaque notification handle. */
  datatype Handle = Handle(id: nat)

  /** One call into the kernel's routing API, with what it returned. */
  datatype Call =
    | Notified(status: u32, handle: Handle)                        // NotifyRouteChange2
    | Created(row: Row, status: u32)                               // CreateIpForwardEntry2
    | Deleted(row: Row, status: u32)                               // DeleteIpForwardEntry2
    | TableRead(status: u32, rows: seq<Row>)                       // GetIpForwardTable2
    | BestInterfaceFound(address: IpAddr, status: u32, index: u32) // GetBestInterfaceEx

  /** The kernel's routing API. Each call returns an arbitrary status and is logged. */
  class Kernel {
    var log: seq<Call>

    constructor ()
      ensures log == []
    {
      log := [];
    }

    method NotifyRouteChange2() returns (status: u32, handle: Handle)
      modifies this
      ensures log == old(log) + [Notified(status, handle)]
    {
      status :| true;
      handle :| true;
      log := log + [Notified(status, handle)];
    }

    method CreateIpForwardEntry2(row: Row) returns (status: u32)
      modifies this
      ensures log == old(log) + [Created(row, status)]
    {
      status :| true;
      log := log + [Created(row, status)];
    }

    method DeleteIpForwardEntry2(row: Row) returns (status: u32)
      modifies this
      ensures log == old(log) + [Deleted(row, status)]
    {
      status :| true;
      log := log + [Deleted(row, status)];
    }

    /** The table rows are well formed: their tags name the view the kernel wrote. */
    method GetIpForwardTable2() returns (status: u32, rows: seq<Row>)
      modifies this
      ensures forall row <- rows :: RowReadable(row)
      ensures log == old(log) + [TableRead(status, rows)]
    {
      status :| true;
      assert forall row <- [] :: RowReadable(row);
      rows :| forall row <- rows :: RowReadable(row);
      log := log + [TableRead(status, rows)];
    }

    method GetBestInterfaceEx(address: IpAddr) returns (status: u32, index: u32)
      modifies this
      ensures log == old(log) + [BestInterfaceFound(address, status, index)]
    {
      status :| true;
      index :| true;
      log := log + [BestInterfaceFound(address, status, index)];
    }
  }

  /** What `init` issues and returns, given the stored handle before the call. */
  ghost predicate InitCalls(handle: Option<Handle>, calls: seq<Call>, res: Result<(), Error>) {
    if handle.Some? then
      calls == [] && res == Err(CodeToError(ERROR_OBJECT_ALREADY_EXISTS, "Already registered"))
    else
      |calls| == 1 && calls[0].Notified? && res == StatusResult(calls[0].status, "error notify route change")
  }

  /** `find_best_interface`: the kernel's best interface for `address`, or its error. */
  ghost predicate BestInterfaceCall(address: IpAddr, call: Call, res: Result<u32, Error>) {
    && call.BestInterfaceFound?
    && call.address == address
    && res == (if call.status != 0 then Err(CodeToError(call.status, "Failed to get best interface"))
               else Ok(call.index))
  }

  /**
   * What `add_route` issues and returns: without an interface index or
   * LUID it first asks for the best interface towards the gateway and
   * submits the route with that index; otherwise it submits the route as given.
   */
  ghost predicate AddRouteCalls(route: Route, calls: seq<Call>, res: Result<(), Error>) {
    if route.ifindex.None? && route.luid.None? then
      && |calls| >= 1
      && calls[0].BestInterfaceFound?
      && calls[0].address == route.gateway
      && if calls[0].status != 0 then
           calls == [calls[0]] && res == Err(CodeToError(calls[0].status, "Failed to get best interface"))
         else
           && |calls| == 2
           && calls[1] == Created(RowOf(WithIfindex(route, calls[0].index)), calls[1].status)
           && res == StatusResult(calls[1].status, "error creating entry")
    else
      && |calls| == 1
      && calls[0] == Created(RowOf(route), calls[0].status)
      && res == StatusResult(calls[0].status, "error creating entry")
  }

  /** What `delete_route` issues and returns. */
  ghost predicate DeleteRouteCalls(route: Route, calls: seq<Call>, res: Result<(), Error>) {
    && |calls| == 1
    && calls[0] == Deleted(RowOf(route), calls[0].status)
    && res == StatusResult(calls[0].status, "error deleting entry")
  }

  /** What `read_all_routes` issues and returns. */
  ghost predicate ReadAllCalls(calls: seq<Call>, res: Result<seq<Route>, Error>) {
    && |calls| == 1
    && calls[0].TableRead?
    && (forall row <- calls[0].rows :: RowReadable(row))
    && res == (if calls[0].status != 0 then Err(CodeToError(calls[0].status, "Error getting table"))
               else DecodeAll(calls[0].rows))
  }

  /**
   * A submitted row always names an interface: the caller's index or LUID,
   * or else the best interface the kernel reported; apart from the index it
   * is the encoding of the route as given.
   */
  lemma AddRouteNamesInterface(route: Route, calls: seq<Call>, res: Result<(), Error>, k: nat)
    requires AddRouteCalls(route, calls, res)
    requires k < |calls| && calls[k].Created?
    ensures RowOf(route).(interfaceIndex := calls[k].row.interfaceIndex) == calls[k].row
    ensures route.ifindex.Some? ==> calls[k].row.interfaceIndex == route.ifindex.value
    ensures route.ifindex.None? && route.luid.None? ==>
      calls[0].BestInterfaceFound? && calls[0].status == 0 && calls[k].row.interfaceIndex == calls[0].index
    ensures route.luid.Some? ==> calls[k].row.interfaceLuid == route.luid.value
  {
  }

  /** `WindowsOperator`: the stored notification handle and the kernel it calls. */
  class WindowsOperator {
    var notifyHandle: Option<Handle>
    const kernel: Kernel

    constructor (kernel: Kernel)
      ensures this.kernel == kernel && notifyHandle == None
    {
      this.kernel := kernel;
      notifyHandle := None;
    }

    /**
     * `init` (`register_route_listener`) as written: the guard refuses a
     * second registration only if a handle is stored, but the handle the
     * kernel returns is never stored.
     */
    method Init() returns (res: Result<(), Error>)
      modifies kernel
      ensures old(kernel.log) <= kernel.log
      ensures InitCalls(old(notifyHandle), kernel.log[|old(kernel.log)|..], res)
      ensures notifyHandle == old(notifyHandle)
    {
      if notifyHandle.Some? {
        return Err(CodeToError(ERROR_OBJECT_ALREADY_EXISTS, "Already registered"));
      }
      var status, handle := kernel.NotifyRouteChange2();
      if status != 0 {
        return Err(CodeToError(status, "error notify route change"));
      }
      return Ok(());
    }

    /** `init` with the returned handle stored, so that the guard and the teardown can see it. */
    method InitStoringHandle() returns (res: Result<(), Error>)
      modifies this, kernel
      ensures old(kernel.log) <= kernel.log
      ensures InitCalls(old(notifyHandle), kernel.log[|old(kernel.log)|..], res)
      ensures notifyHandle == (if res.Ok? then Some(Last(kernel.log).handle) else old(notifyHandle))
    {
      if notifyHandle.Some? {
        return Err(CodeToError(ERROR_OBJECT_ALREADY_EXISTS, "Already registered"));
      }
      var status, handle := kernel.NotifyRouteChange2();
      if status != 0 {
        return Err(CodeToError(status, "error notify route change"));
      }
      notifyHandle := Some(handle);
      return Ok(());
    }

    /** `find_best_interface`: the kernel's best interface towards `address`, or its error. */
    method FindBestInterface(address: IpAddr) returns (res: Result<u32, Error>)
      modifies kernel
      ensures |kernel.log| == |old(kernel.log)| + 1 && old(kernel.log) <= kernel.log
      ensures BestInterfaceCall(address, Last(kernel.log), res)
    {
      var status, index := kernel.GetBestInterfaceEx(address);
      if status != 0 {
        return Err(CodeToError(status, "Failed to get best interface"));
      }
      return Ok(index);
    }

    method AddRoute(route: Route) returns (res: Result<(), Error>)
      modifies kernel
      ensures old(kernel.log) <= kernel.log
      ensures AddRouteCalls(route, kernel.log[|old(kernel.log)|..], res)
    {
      var row;
      if route.ifindex.None? && route.luid.None? {
        var best := FindBestInterface(route.gateway);
        if best.Err? {
          return Err(best.error);
        }
        var clone := route.(ifindex := Some(best.value));
        row := EncodeRow(clone);
      } else {
        row := EncodeRow(route);
      }
      var err := kernel.CreateIpForwardEntry2(row);
      if err != 0 {
        return Err(CodeToError(err, "error creating entry"));
      }
      return Ok(());
    }

    method DeleteRoute(route: Route) returns (res: Result<(), Error>)
      modifies kernel
      ensures old(kernel.log) <= kernel.log
      ensures DeleteRouteCalls(route, kernel.log[|old(kernel.log)|..], res)
    {
      var row := EncodeRow(route);
      var err := kernel.DeleteIpForwardEntry2(row);
      if err != 0 {
        return Err(CodeToError(err, "error deleting entry"));
      }
      return Ok(());
    }

    method ReadAllRoutes() returns (res: Result<seq<Route>, Error>)
      modifies kernel
      ensures old(kernel.log) <= kernel.log
      ensures ReadAllCalls(kernel.log[|old(kernel.log)|..], res)
    {
      var ret, rows := kernel.GetIpForwardTable2();
      if ret != 0 {
        return Err(CodeToError(ret, "Error getting table"));
      }
      return DecodeAll(rows);
    }
  }

  function Last(log: seq<Call>): Call
    requires log != []
  {
    log[|log| - 1]
  }

  /**
   * As written, a second `init` on the same operator reaches the kernel
   * again: two registrations, and a second success whenever the kernel
   * accepts it, instead of `AlreadyExists`.
   */
  method InitTwiceAsWritten(op: WindowsOperator) returns (first: Result<(), Error>, second: Result<(), Error>)
    requires op.notifyHandle.None?
    modifies op.kernel
    ensures old(op.kernel.log) <= op.kernel.log
    ensures var calls := op.kernel.log[|old(op.kernel.log)|..];
      && |calls| == 2 && calls[0].Notified? && calls[1].Notified?
      && (calls[1].status == 0 ==> second.Ok?)
    ensures op.notifyHandle.None?
  {
    ghost var before := op.kernel.log;
    first := op.Init();
    ghost var middle := op.kernel.log;
    second := op.Init();
    assert op.kernel.log[|before|..] == middle[|before|..] + op.kernel.log[|middle|..];
  }

  /** With the handle stored, a second `init` after a successful one fails with `AlreadyExists` without calling the kernel. */
  method InitTwiceStoringHandle(op: WindowsOperator) returns (first: Result<(), Error>, second: Result<(), Error>)
    requires op.notifyHandle.None?
    modifies op, op.kernel
    ensures old(op.kernel.log) <= op.kernel.log
    ensures var calls := op.kernel.log[|old(op.kernel.log)|..];
      first.Ok? ==> && |calls| == 1 && calls[0].Notified?
                    && second.Err? && second.error.Io? && second.error.kind == AlreadyExists
                    && second == Err(CodeToError(ERROR_OBJECT_ALREADY_EXISTS, "Already registered"))
  {
    first := op.InitStoringHandle();
    second := op.InitStoringHandle();
  }
}
