/**
 * The event type of `src/manager.rs` and the rules by which one event
 * changes the cached routing table, as pure functions over sequences.
 * The `RouteManager` class applies these rules in place.
 */
module Cache {
  import opened Common
  import opened Routes

  /** One kernel routing-table mutation. */
  datatype RouteEvent = Add(route: Route) | Delete(route: Route) | Change(route: Route)

  /**
   * A default route: destination `0.0.0.0` or `::`, prefix 0, and a gateway
   * that is neither `0.0.0.0` nor `::`.
   */
  predicate IsDefaultRoute(v: Route) {
    && (v.destination == Unspecified4 || v.destination == Unspecified6)
    && v.gateway != Unspecified4
    && v.gateway != Unspecified6
    && v.prefix == 0
  }

  /** In terms of all-zero addresses: the zero destination, prefix 0, a non-zero gateway. */
  lemma DefaultRouteMeaning(v: Route)
    ensures IsDefaultRoute(v) <==>
      v.destination.IsUnspecified() && v.prefix == 0 && !v.gateway.IsUnspecified()
  {
    UnspecifiedIsAllZero(v.destination);
    UnspecifiedIsAllZero(v.gateway);
  }

  /** Two routes name the same table slot: same destination and prefix. */
  predicate SameKey(v: Route, w: Route) {
    v.destination == w.destination && v.prefix == w.prefix
  }

  /** What a first-match scan of the cache looks for. */
  datatype Matcher = EqualTo(target: Route) | SameKeyAs(target: Route) | DefaultGateway

  predicate Matches(m: Matcher, v: Route) {
    match m
    case EqualTo(t) => v == t
    case SameKeyAs(t) => SameKey(v, t)
    case DefaultGateway => IsDefaultRoute(v)
  }

  /** The index of the first entry of `s` that `m` accepts, as `Iterator::position` finds it. */
  function FirstMatch(s: seq<Route>, m: Matcher): (r: Option<nat>)
    ensures r.Some? ==> r.value < |s| && Matches(m, s[r.value])
    ensures r.Some? ==> forall j :: 0 <= j < r.value ==> !Matches(m, s[j])
    ensures r.None? <==> forall j :: 0 <= j < |s| ==> !Matches(m, s[j])
  {
    if |s| == 0 then None
    else if Matches(m, s[0]) then Some(0)
    else match FirstMatch(s[1..], m)
      case None => None
      case Some(i) => Some(i + 1)
  }

  /** `Vec::remove(i)`: drop the entry at `i`, shifting the later ones down. */
  function RemoveAt(s: seq<Route>, i: nat): (r: seq<Route>)
    requires i < |s|
    ensures |r| == |s| - 1
    ensures forall j :: 0 <= j < i ==> r[j] == s[j]
    ensures forall j :: i <= j < |r| ==> r[j] == s[j + 1]
    ensures multiset(r) == multiset(s) - multiset{s[i]}
  {
    assert s == s[..i] + [s[i]] + s[i + 1..];
    s[..i] + s[i + 1..]
  }

  /** The cache after one event, as `RouteManager::poll` computes it. */
  function ApplyEvent(cache: seq<Route>, e: RouteEvent): (c: seq<Route>)
    ensures e.Add? ==> |c| == |cache| + 1
    ensures e.Delete? ==> |c| == |cache| || |c| == |cache| - 1
    ensures e.Change? ==> |c| == |cache|
  {
    match e
    case Add(r) => cache + [r]
    case Delete(r) =>
      (match FirstMatch(cache, EqualTo(r))
       case None => cache
       case Some(i) => RemoveAt(cache, i))
    case Change(r) =>
      (match FirstMatch(cache, SameKeyAs(r))
       case None => cache
       case Some(i) => RemoveAt(cache, i) + [r])
  }

  /**
   * No event invents a route: every entry afterwards was in the cache or is
   * the event's route, and `Delete` only ever takes entries away.
   */
  lemma ApplyEventBounds(cache: seq<Route>, e: RouteEvent)
    ensures multiset(ApplyEvent(cache, e)) <= multiset(cache) + multiset{e.route}
    ensures e.Delete? ==> multiset(ApplyEvent(cache, e)) <= multiset(cache)
  {
  }

  /** `Add(r)` appends `r`; every earlier entry stays where it was. */
  lemma AddAppends(cache: seq<Route>, r: Route)
    ensures var c := ApplyEvent(cache, Add(r));
      |c| == |cache| + 1 && c[..|cache|] == cache && c[|cache|] == r
  {
  }

  /**
   * `Delete(r)` removes exactly the first entry equal to `r`, keeping the
   * order of the rest; without such an entry the cache is unchanged.
   */
  lemma DeleteRemovesFirstEqual(cache: seq<Route>, r: Route)
    ensures var c := ApplyEvent(cache, Delete(r));
      r in cache ==>
        && |c| == |cache| - 1
        && multiset(c) == multiset(cache) - multiset{r}
        && exists i :: 0 <= i < |cache| && cache[i] == r && r !in cache[..i] && c == cache[..i] + cache[i + 1..]
    ensures r !in cache ==> ApplyEvent(cache, Delete(r)) == cache
  {
    var c := ApplyEvent(cache, Delete(r));
    if r in cache {
      var k :| 0 <= k < |cache| && cache[k] == r;
      assert FirstMatch(cache, EqualTo(r)).Some? by {
        assert Matches(EqualTo(r), cache[k]);
      }
      var i := FirstMatch(cache, EqualTo(r)).value;
      assert r !in cache[..i] by {
        forall j | 0 <= j < i ensures cache[..i][j] != r {
          assert !Matches(EqualTo(r), cache[j]);
        }
      }
      assert c == cache[..i] + cache[i + 1..];
    } else {
      assert FirstMatch(cache, EqualTo(r)).None? by {
        forall j | 0 <= j < |cache| ensures !Matches(EqualTo(r), cache[j]) {
          assert cache[j] in cache;
        }
      }
    }
  }

  /** Deleting the only copy of `r` leaves no copy of `r` behind; `Delete(r)` on `[r]` empties it. */
  lemma DeleteOnlyCopy(cache: seq<Route>, r: Route)
    requires multiset(cache)[r] == 1
    ensures r !in ApplyEvent(cache, Delete(r))
    ensures cache == [r] ==> ApplyEvent(cache, Delete(r)) == []
  {
    DeleteRemovesFirstEqual(cache, r);
    var c := ApplyEvent(cache, Delete(r));
    assert multiset(c)[r] == 0;
  }

  /**
   * `Change(r)` with an entry in `r`'s slot: the first such entry leaves,
   * the others keep their relative order, and `r` goes at the end.
   */
  lemma ChangeReplacesFirstSameKey(cache: seq<Route>, r: Route, k: nat)
    requires k < |cache| && SameKey(cache[k], r)
    ensures var c := ApplyEvent(cache, Change(r));
      && |c| == |cache|
      && c[|c| - 1] == r
      && exists i :: 0 <= i <= k && SameKey(cache[i], r)
           && (forall j :: 0 <= j < i ==> !SameKey(cache[j], r))
           && c[..|c| - 1] == cache[..i] + cache[i + 1..]
           && multiset(c) == multiset(cache) - multiset{cache[i]} + multiset{r}
  {
    assert Matches(SameKeyAs(r), cache[k]);
    var i := FirstMatch(cache, SameKeyAs(r)).value;
    var c := ApplyEvent(cache, Change(r));
    assert i <= k;
    assert c[..|c| - 1] == cache[..i] + cache[i + 1..];
    assert forall j :: 0 <= j < i ==> !Matches(SameKeyAs(r), cache[j]);
  }

  /** `Change(r)` with no entry in `r`'s slot leaves the cache as it was: `r` is not inserted. */
  lemma ChangeWithoutSlotIgnored(cache: seq<Route>, r: Route)
    requires forall v :: v in cache ==> !SameKey(v, r)
    ensures ApplyEvent(cache, Change(r)) == cache
  {
    assert FirstMatch(cache, SameKeyAs(r)).None? by {
      forall j | 0 <= j < |cache| ensures !Matches(SameKeyAs(r), cache[j]) {
        assert cache[j] in cache;
      }
    }
  }

  /**
   * When two routes share r's slot, `Change(r)` removes the first of them,
   * whichever route it is: with the slot's first entry different from `r`
   * and a copy of `r` later on, that first entry leaves and `r` ends up in
   * the cache once more than before.
   */
  lemma ChangeDropsFirstOfSharedSlot(cache: seq<Route>, r: Route, i: nat, j: nat)
    requires i < j < |cache|
    requires SameKey(cache[i], r) && cache[i] != r && cache[j] == r
    requires forall k :: 0 <= k < i ==> !SameKey(cache[k], r)
    ensures var c := ApplyEvent(cache, Change(r));
      && c == RemoveAt(cache, i) + [r]
      && multiset(c)[cache[i]] == multiset(cache)[cache[i]] - 1
      && multiset(c)[r] == multiset(cache)[r] + 1
  {
    assert forall k :: 0 <= k < i ==> !Matches(SameKeyAs(r), cache[k]);
    assert Matches(SameKeyAs(r), cache[i]);
    assert FirstMatch(cache, SameKeyAs(r)) == Some(i);
  }

  /** No two entries share a (destination, prefix) slot. */
  predicate KeysUnique(cache: seq<Route>) {
    forall i, j :: 0 <= i < j < |cache| ==> !SameKey(cache[i], cache[j])
  }

  /**
   * Slot uniqueness is kept by `Delete` and `Change`, and by `Add` of a
   * route whose slot is free.
   */
  lemma {:induction false} ApplyKeepsKeysUnique(cache: seq<Route>, e: RouteEvent)
    requires KeysUnique(cache)
    requires e.Add? ==> forall v :: v in cache ==> !SameKey(v, e.route)
    ensures KeysUnique(ApplyEvent(cache, e))
  {
    var c := ApplyEvent(cache, e);
    match e
    case Add(r) =>
      forall i, j | 0 <= i < j < |c| ensures !SameKey(c[i], c[j]) {
        if j == |cache| {
          assert c[i] in cache;
        }
      }
    case Delete(r) =>
      if FirstMatch(cache, EqualTo(r)).Some? {
        var k := FirstMatch(cache, EqualTo(r)).value;
        forall i, j | 0 <= i < j < |c| ensures !SameKey(c[i], c[j]) {
          var i', j' := if i < k then i else i + 1, if j < k then j else j + 1;
          assert c[i] == cache[i'] && c[j] == cache[j'];
        }
      }
    case Change(r) =>
      if FirstMatch(cache, SameKeyAs(r)).Some? {
        var k := FirstMatch(cache, SameKeyAs(r)).value;
        var rest := RemoveAt(cache, k);
        assert c == rest + [r];
        forall i, j | 0 <= i < j < |c| ensures !SameKey(c[i], c[j]) {
          var i' := if i < k then i else i + 1;
          assert c[i] == cache[i'] && i' != k;
          if j == |rest| {
            assert SameKey(cache[k], r);
            if i' < k {
              assert !SameKey(cache[i'], cache[k]);
            } else {
              assert !SameKey(cache[k], cache[i']);
            }
          } else {
            var j' := if j < k then j else j + 1;
            assert c[j] == cache[j'];
          }
        }
      }
  }

  /** The cache after applying `events` in order. */
  function Replay(cache: seq<Route>, events: seq<RouteEvent>): seq<Route>
    decreases |events|
  {
    if events == [] then cache
    else Replay(ApplyEvent(cache, events[0]), events[1..])
  }

  /** Applying one more event after a replay is replaying the longer sequence. */
  lemma {:induction false} ReplaySnoc(cache: seq<Route>, events: seq<RouteEvent>, e: RouteEvent)
    ensures Replay(cache, events + [e]) == ApplyEvent(Replay(cache, events), e)
    decreases |events|
  {
    if events == [] {
      assert [e][1..] == [];
    } else {
      assert (events + [e])[1..] == events[1..] + [e];
      ReplaySnoc(ApplyEvent(cache, events[0]), events[1..], e);
    }
  }

  /** `Iterator::position`: the index of the first entry that `m` accepts. */
  method Position(s: seq<Route>, m: Matcher) returns (index: Option<nat>)
    ensures index == FirstMatch(s, m)
  {
    var i := 0;
    while i < |s|
      invariant 0 <= i <= |s|
      invariant forall j :: 0 <= j < i ==> !Matches(m, s[j])
    {
      if Matches(m, s[i]) {
        return Some(i);
      }
      i := i + 1;
    }
    return None;
  }
}
