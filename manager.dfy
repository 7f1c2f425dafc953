/**
 * `RouteManager` of `src/manager.rs`: a cache of the routing table kept in
 * step with the kernel's change notifications, which it forwards to its
 * subscribers.
 *
 * The two channels become sequences: `inbox` holds the events the
 * notification callback has sent and `poll` has not yet received;
 * `outbox` holds every event `poll` has forwarded to the subscribers. The
 * mutex is modelled by whether it is poisoned.
 */
module Manager {
  import opened Common
  import opened Routes
  import opened Cache
  import opened Windows

  const LockRoutesMessage := "Can not lock private field routes"
  const LockInnerMessage := "Can not lock inner data, this is a thread safe error"
  const NoDefaultMessage := "can not found defualt route"

  /**
   * `Result::unwrap` on the outcome of `read_all_routes`: an error becomes
   * the unwrap panic, while a decoding panic has already happened inside.
   */
  function Unwrapped(r: Result<seq<Route>, Error>): (u: Result<seq<Route>, Error>)
    ensures r.Ok? ==> u == r
    ensures r.Err? && r.error.UnexpectedFamily? ==> u == r
    ensures r.Err? && !r.error.UnexpectedFamily? ==> u == Err(UnwrapOnErr(r.error))
  {
    if r.Err? && !r.error.UnexpectedFamily? then Err(UnwrapOnErr(r.error)) else r
  }

  /**
   * What `RouteManager::new` issues and obtains: a listener registration,
   * and, when it succeeds, one read of the whole table.
   */
  ghost predicate StartupCalls(calls: seq<Call>, res: Result<seq<Route>, Error>) {
    && |calls| >= 1
    && calls[0].Notified?
    && if calls[0].status != 0 then
         calls == [calls[0]] && res == Err(CodeToError(calls[0].status, "error notify route change"))
       else
         && |calls| == 2
         && calls[1].TableRead?
         && (forall row <- calls[1].rows :: RowReadable(row))
         && res == Unwrapped(if calls[1].status != 0 then Err(CodeToError(calls[1].status, "Error getting table"))
                             else DecodeAll(calls[1].rows))
  }

  /** The default route of `cache`: its first default route, if any. */
  function DefaultOf(cache: seq<Route>): (d: Option<Route>)
    ensures d.Some? ==> exists i :: 0 <= i < |cache| && cache[i] == d.value && IsDefaultRoute(d.value)
                          && forall j :: 0 <= j < i ==> !IsDefaultRoute(cache[j])
    ensures d.None? <==> forall v :: v in cache ==> !IsDefaultRoute(v)
  {
    match FirstMatch(cache, DefaultGateway)
    case None => None
    case Some(i) => Some(cache[i])
  }

  class RouteManager {
    /** The cached routing table, in kernel-read order then event order. */
    var cache: seq<Route>
    /** Events sent by the notification callback and not yet polled. */
    var inbox: seq<RouteEvent>
    /** Events forwarded to the subscribers, oldest first. */
    var outbox: seq<RouteEvent>
    /** Whether the mutex around `cache` is poisoned. */
    var lockPoisoned: bool
    const operator: WindowsOperator
    /** The table as read when the manager was created. */
    ghost var seed: seq<Route>

    /** The cache is the table read at creation with every forwarded event applied in order. */
    ghost predicate Valid()
      reads this
    {
      cache == Replay(seed, outbox)
    }

    constructor (operator: WindowsOperator, routes: seq<Route>)
      ensures this.operator == operator
      ensures cache == routes && seed == routes && inbox == [] && outbox == [] && !lockPoisoned
      ensures Valid()
    {
      this.operator := operator;
      cache := routes;
      seed := routes;
      inbox := [];
      outbox := [];
      lockPoisoned := false;
    }

    /**
     * `RouteManager::new`: register the listener, then read the table; a
     * failed registration is returned, a failed read is the unwrap panic.
     * As in the source, the operator keeps no handle.
     */
    static method New(kernel: Kernel) returns (res: Result<RouteManager, Error>)
      modifies kernel
      ensures old(kernel.log) <= kernel.log
      ensures StartupCalls(kernel.log[|old(kernel.log)|..], if res.Ok? then Ok(res.value.cache) else Err(res.error))
      ensures res.Ok? ==> && fresh(res.value) && fresh(res.value.operator)
                          && res.value.operator.kernel == kernel
                          && res.value.operator.notifyHandle.None?
                          && res.value.Valid() && res.value.seed == res.value.cache
                          && res.value.inbox == [] && res.value.outbox == []
                          && !res.value.lockPoisoned
    {
      ghost var before := kernel.log;
      var operator := new WindowsOperator(kernel);
      var init := operator.Init();
      if init.Err? {
        return Err(init.error);
      }
      ghost var middle := kernel.log;
      var routes := operator.ReadAllRoutes();
      assert kernel.log[|before|..] == middle[|before|..] + kernel.log[|middle|..];
      if routes.Err? {
        return Err(Unwrapped(routes).error);
      }
      var manager := new RouteManager(operator, routes.value);
      return Ok(manager);
    }

    /**
     * `poll`: receive the oldest event, apply it to the cache and forward
     * it. On a poisoned lock the event is received but neither applied nor
     * forwarded.
     */
    method Poll() returns (res: Result<(), Error>)
      requires Valid() && |inbox| > 0
      modifies this
      ensures Valid()
      ensures inbox == old(inbox[1..])
      ensures lockPoisoned == old(lockPoisoned) && seed == old(seed)
      ensures old(lockPoisoned) ==>
        res == Err(Poisoned(LockRoutesMessage)) && cache == old(cache) && outbox == old(outbox)
      ensures !old(lockPoisoned) ==>
        && res == Ok(())
        && cache == ApplyEvent(old(cache), old(inbox[0]))
        && outbox == old(outbox) + [old(inbox[0])]
    {
      var event := inbox[0];
      inbox := inbox[1..];
      if lockPoisoned {
        return Err(Poisoned(LockRoutesMessage));
      }
      match event {
        case Add(route) =>
          cache := cache + [route];
        case Delete(route) =>
          var index := Position(cache, EqualTo(route));
          if index.Some? {
            cache := cache[..index.value] + cache[index.value + 1..];
          }
        case Change(route) =>
          var index := Position(cache, SameKeyAs(route));
          if index.Some? {
            cache := cache[..index.value] + cache[index.value + 1..];
            cache := cache + [route];
          }
      }
      ReplaySnoc(seed, outbox, event);
      outbox := outbox + [event];
      return Ok(());
    }

    /**
     * A thread panicking while it holds the lock poisons it for good; the
     * cache and both queues are left as they were.
     */
    method PoisonLock()
      modifies this
      ensures lockPoisoned
      ensures cache == old(cache) && inbox == old(inbox) && outbox == old(outbox) && seed == old(seed)
    {
      lockPoisoned := true;
    }

    /** `routes`: a copy of the cache, or the lock error. */
    method Routes() returns (res: Result<seq<Route>, Error>)
      ensures !lockPoisoned ==> res == Ok(cache)
      ensures lockPoisoned ==> res == Err(Io(Other, LockInnerMessage))
    {
      if lockPoisoned {
        return Err(Io(Other, LockInnerMessage));
      }
      return Ok(cache);
    }

    /** `default_route`: the first default route of the cache, scanning in order. */
    method DefaultRoute() returns (res: Result<Option<Route>, Error>)
      ensures !lockPoisoned ==> res == Ok(DefaultOf(cache))
      ensures lockPoisoned ==> res == Err(Io(NotFound, NoDefaultMessage))
    {
      if lockPoisoned {
        return Err(Io(NotFound, NoDefaultMessage));
      }
      var i := 0;
      while i < |cache|
        invariant 0 <= i <= |cache|
        invariant forall j :: 0 <= j < i ==> !Matches(DefaultGateway, cache[j])
      {
        var route := cache[i];
        if (route.destination == Unspecified4 || route.destination == Unspecified6)
          && route.gateway != Unspecified4
          && route.gateway != Unspecified6
          && route.prefix == 0
        {
          assert FirstMatch(cache, DefaultGateway) == Some(i);
          return Ok(Some(route));
        }
        i := i + 1;
      }
      return Ok(None);
    }

    /** `add_route`: the operator's outcome; the cache changes only through the notification that follows. */
    method AddRoute(route: Route) returns (res: Result<(), Error>)
      modifies operator.kernel
      ensures old(operator.kernel.log) <= operator.kernel.log
      ensures AddRouteCalls(route, operator.kernel.log[|old(operator.kernel.log)|..], res)
    {
      res := operator.AddRoute(route);
    }

    /** `delete_route`: the operator's outcome; the cache changes only through the notification that follows. */
    method DeleteRoute(route: Route) returns (res: Result<(), Error>)
      modifies operator.kernel
      ensures old(operator.kernel.log) <= operator.kernel.log
      ensures DeleteRouteCalls(route, operator.kernel.log[|old(operator.kernel.log)|..], res)
    {
      res := operator.DeleteRoute(route);
    }

    /**
     * The kernel's notification callback: decode the row, choose the event
     * by kind and send it to `poll`. A kind with no event sends nothing; a
     * row that cannot be decoded is the panic and sends nothing.
     */
    method Notify(row: Row, kind: u32) returns (res: Result<(), Error>)
      requires RowReadable(row)
      modifies this
      ensures cache == old(cache) && outbox == old(outbox) && lockPoisoned == old(lockPoisoned) && seed == old(seed)
      ensures Notification(row, kind).Err? ==> res == Err(Notification(row, kind).error) && inbox == old(inbox)
      ensures Notification(row, kind) == Ok(None) ==> res == Ok(()) && inbox == old(inbox)
      ensures Notification(row, kind).Ok? && Notification(row, kind).value.Some? ==>
        res == Ok(()) && inbox == old(inbox) + [Notification(row, kind).value.value]
    {
      var event := Notification(row, kind);
      match event {
        case Err(e) =>
          return Err(e);
        case Ok(None) =>
          return Ok(());
        case Ok(Some(e)) =>
          inbox := inbox + [e];
          return Ok(());
      }
    }
  }

  /**
   * The kernel reports the addition of route `r` (with a V4 gateway) by an
   * `Add` notification carrying its row: once polled, the route is the last
   * entry of the cache, with r's destination, prefix and gateway, and the
   * subscribers have seen its `Add` event.
   */
  method AddThenPoll(manager: RouteManager, r: Route)
    requires manager.Valid() && manager.inbox == [] && !manager.lockPoisoned
    requires r.gateway.V4?
    modifies manager
    ensures manager.Valid() && manager.inbox == []
    ensures manager.cache == old(manager.cache) + [RouteOf(RowOf(r)).value]
    ensures manager.outbox == old(manager.outbox) + [Add(RouteOf(RowOf(r)).value)]
    ensures var added := manager.cache[|manager.cache| - 1];
      added.destination == r.destination && added.prefix == r.prefix && added.gateway == r.gateway
  {
    DecodeEncode(r);
    var row := RowOf(r);
    var sent := manager.Notify(row, MibAddInstance);
    var polled := manager.Poll();
  }
}
