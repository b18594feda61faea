/**
 The call budget per minute: a sliding window whose old entries are pruned, used as a
 hard limit and as a report's share (src/mailhelp/llm/openrouter.py,
 src/mailhelp/activity/budget.py). Times are real seconds.
 */
module CallBudget {
  import opened PyText

  const WINDOW: real := 60.0

  predicate Ascending(s: seq<real>) {
    forall i, j :: 0 <= i < j < |s| ==> s[i] <= s[j]
  }

  /** The calls that still count at `now`. */
  function Recent(calls: seq<real>, now: real): seq<real> {
    if calls == [] then []
    else
      var rest := Recent(calls[..|calls| - 1], now);
      if now - calls[|calls| - 1] < WINDOW then rest + [calls[|calls| - 1]] else rest
  }

  function Insert(x: real, s: seq<real>): seq<real> {
    if s == [] || x <= s[0] then [x] + s else [s[0]] + Insert(x, s[1..])
  }

  function Sorted(s: seq<real>): seq<real> {
    if s == [] then [] else Insert(s[0], Sorted(s[1..]))
  }

  /** The clock never goes back, so what is stored is in order already. */
  lemma {:induction false} SortedStays(s: seq<real>)
    requires Ascending(s)
    ensures Sorted(s) == s
  {
    if s != [] {
      SortedStays(s[1..]);
      assert s == [s[0]] + s[1..];
    }
  }

  lemma {:induction false} NoneRecent(calls: seq<real>, now: real)
    requires forall i :: 0 <= i < |calls| ==> now - calls[i] >= WINDOW
    ensures Recent(calls, now) == []
  {
    if calls != [] { NoneRecent(calls[..|calls| - 1], now); }
  }

  lemma SuffixSnoc(calls: seq<real>, n: nat)
    requires n < |calls|
    ensures calls[n..] == calls[..|calls| - 1][n..] + [calls[|calls| - 1]]
  {
  }

  /** Of ascending calls the ones that count are the last ones. */
  lemma {:induction false} RecentIsSuffix(calls: seq<real>, now: real) returns (n: nat)
    requires Ascending(calls)
    ensures n <= |calls| && Recent(calls, now) == calls[n..]
    ensures forall i :: 0 <= i < n ==> now - calls[i] >= WINDOW
    ensures forall i :: n <= i < |calls| ==> now - calls[i] < WINDOW
  {
    var m := |calls| - 1;
    if calls == [] {
      n := 0;
    } else if now - calls[m] < WINDOW {
      n := RecentIsSuffix(calls[..m], now);
      SuffixSnoc(calls, n);
      forall i | n <= i < m ensures now - calls[i] < WINDOW { assert calls[..m][i] == calls[i]; }
      forall i | 0 <= i < n ensures now - calls[i] >= WINDOW { assert calls[..m][i] == calls[i]; }
    } else {
      forall i | 0 <= i < m ensures now - calls[i] >= WINDOW { assert calls[i] <= calls[m]; }
      NoneRecent(calls[..m], now);
      n := |calls|;
    }
  }

  /** When a reservation is possible at all: the `limit`-th newest call has left the window. */
  lemma RoomExactlyWhen(calls: seq<real>, now: real, limit: nat)
    requires Ascending(calls) && limit >= 1
    ensures |Recent(calls, now)| < limit <==> |calls| < limit || now - calls[|calls| - limit] >= WINDOW
  {
    var n := RecentIsSuffix(calls, now);
    if |calls| >= limit && |calls| - limit >= n {
      assert now - calls[|calls| - limit] < WINDOW;
    }
  }

  /** What is stored with the new call is the part of the last 60 seconds, in its order. */
  predicate YoungerStay(before: seq<real>, after: seq<real>, now: real) {
    exists n {:trigger before[n..]} :: 0 <= n <= |before| && after == before[n..] + [now]
      && (forall i :: 0 <= i < n ==> now - before[i] >= 60.0)
      && forall i :: n <= i < |before| ==> now - before[i] < 60.0
  }

  lemma RoomIn(calls: seq<real>, granted: seq<real>, latest: real, now: real, limit: nat)
    requires Tracks(calls, granted, latest) && latest <= now && limit >= 1
    ensures |Recent(calls, now)| < limit <==> |calls| < limit || now - calls[|calls| - limit] >= 60.0
    ensures YoungerStay(calls, Recent(calls, now) + [now], now)
  {
    PruneTracks(calls, granted, latest, now);
    RoomExactlyWhen(calls, now, limit);
    var n := RecentIsSuffix(calls, now);
    assert Recent(calls, now) + [now] == calls[n..] + [now];
  }

  /** Among any `limit` + 1 consecutive reservations the last is 60 seconds later than the first. */
  predicate Spaced(granted: seq<real>, limit: nat) {
    forall i {:trigger granted[i]} :: 0 <= i && i + limit < |granted| ==> granted[i + limit] - granted[i] >= 60.0
  }

  /** The stored calls are the latest reservations; everything before them has left the window. */
  predicate Tracks(calls: seq<real>, granted: seq<real>, latest: real) {
    && |calls| <= |granted| && calls == granted[|granted| - |calls|..]
    && Ascending(granted)
    && (forall i :: 0 <= i < |granted| ==> granted[i] <= latest)
    && (forall i :: 0 <= i < |granted| - |calls| ==> latest - granted[i] >= WINDOW)
  }

  lemma PruneTracks(calls: seq<real>, granted: seq<real>, latest: real, now: real)
    requires Tracks(calls, granted, latest) && latest <= now
    ensures Tracks(Recent(calls, now), granted, now) && Ascending(calls)
  {
    var k := |granted| - |calls|;
    forall i | 0 <= i < |calls| ensures calls[i] == granted[k + i] {
    }
    var n := RecentIsSuffix(calls, now);
    assert calls[n..] == granted[k + n..];
    forall i | 0 <= i < k + n ensures now - granted[i] >= WINDOW {
      if i >= k { assert granted[i] == calls[i - k]; }
    }
  }

  lemma GrantTracks(calls: seq<real>, granted: seq<real>, now: real)
    requires Tracks(calls, granted, now)
    ensures Tracks(calls + [now], granted + [now], now)
  {
    var k := |granted| - |calls|;
    assert (granted + [now])[k..] == granted[k..] + [now];
  }

  /** With room in the window the next reservation keeps the spacing. */
  lemma GrantKeepsSpacing(calls: seq<real>, granted: seq<real>, now: real, limit: nat)
    requires Tracks(calls, granted, now) && |calls| < limit && Spaced(granted, limit)
    ensures Spaced(granted + [now], limit)
  {
    var after := granted + [now];
    forall i | 0 <= i && i + limit < |after| ensures after[i + limit] - after[i] >= WINDOW {
      if i + limit < |granted| {
        assert after[i] == granted[i] && granted[i + limit] - granted[i] >= WINDOW;
      } else {
        assert i < |granted| - |calls|;
        assert after[i] == granted[i] && after[i + limit] == now;
      }
    }
  }

  /** A reservation with room in the window. */
  lemma GrantStep(calls: seq<real>, granted: seq<real>, latest: real, now: real, limit: nat)
    requires Tracks(calls, granted, latest) && latest <= now
    ensures var recent := Recent(calls, now);
      && Ascending(calls) && Ascending(recent) && Tracks(recent, granted, now)
      && Tracks(recent + [now], granted + [now], now)
      && (|recent| < limit && Spaced(granted, limit) ==> Spaced(granted + [now], limit))
  {
    var recent := Recent(calls, now);
    PruneTracks(calls, granted, latest, now);
    PruneTracks(recent, granted, now, now);
    GrantTracks(recent, granted, now);
    if |recent| < limit && Spaced(granted, limit) {
      GrantKeepsSpacing(recent, granted, now, limit);
    }
  }

  datatype Reservation = Granted | Exceeded(nextAllowedAt: real)

  class OpenRouterClient {
    const limit: nat
    var calls: seq<real>           // durable
    ghost var granted: seq<real>   // every reservation that is known
    ghost var latest: real         // the last reading of the clock

    ghost predicate Valid()
      reads this
    {
      limit >= 1 && Tracks(calls, granted, latest)
    }

    /** What is stored may come from an earlier process with any other limit. */
    constructor (limit: nat, stored: seq<real>, ghost latest: real)
      requires limit >= 1 && Ascending(stored) && forall i :: 0 <= i < |stored| ==> stored[i] <= latest
      ensures Valid() && granted == calls == stored && this.latest == latest && this.limit == limit
    {
      this.limit, calls, granted, this.latest := limit, stored, stored, latest;
    }

    /** `_reserve_call`; the clock never goes back. */
    method ReserveCall(now: real) returns (r: Reservation)
      requires Valid() && latest <= now
      modifies this
      ensures Valid() && latest == now
      ensures r.Granted? <==> |Recent(old(calls), now)| < limit
      ensures r.Granted? <==> |old(calls)| < limit || now - old(calls)[|old(calls)| - limit] >= 60.0
      ensures r.Granted? ==> YoungerStay(old(calls), calls, now)
      ensures r.Granted? ==> granted == old(granted) + [now] && calls == Recent(old(calls), now) + [now]
      ensures r.Granted? ==> |calls| <= limit
      ensures r.Granted? && Spaced(old(granted), limit) ==> Spaced(granted, limit)
      ensures r.Exceeded? ==> granted == old(granted) && calls == old(calls)
      ensures r.Exceeded? ==> (ExactFrom(old(calls), limit, now, r.nextAllowedAt)
                               <==> Decisive(Recent(old(calls), now), limit) == Recent(old(calls), now)[0])
      ensures r.Exceeded? && |old(calls)| <= limit ==> ExactFrom(old(calls), limit, now, r.nextAllowedAt)
    {
      SortedRecent(calls, granted, latest, now);
      RoomIn(calls, granted, latest, now, limit);
      var recent := Sorted(Recent(calls, now));
      if |recent| >= limit {
        var next := recent[0] + WINDOW;
        Refuse(now, next);
        return Exceeded(next);
      }
      Grant(now, recent);
      r := Granted;
    }

    method Grant(now: real, recent: seq<real>)
      requires Valid() && latest <= now && recent == Recent(calls, now) && |recent| < limit
      modifies this
      ensures Valid() && latest == now && granted == old(granted) + [now] && calls == recent + [now]
      ensures Spaced(old(granted), limit) ==> Spaced(granted, limit)
    {
      GrantStep(calls, granted, latest, now, limit);
      calls := recent + [now];
      granted, latest := granted + [now], now;
    }

    /** Nothing is saved. */
    ghost method Refuse(now: real, next: real)
      requires Valid() && latest <= now && |Recent(calls, now)| >= limit && next == Recent(calls, now)[0] + WINDOW
      modifies this`latest
      ensures Valid() && latest == now
      ensures ExactFrom(calls, limit, now, next) <==> Decisive(Recent(calls, now), limit) == Recent(calls, now)[0]
      ensures |calls| <= limit ==> ExactFrom(calls, limit, now, next)
    {
      LoweredLimit(calls, now, limit);
      if |calls| <= limit {
        ExceededIsExact(calls, now, limit);
      }
      LaterTracks(calls, granted, latest, now);
      latest := now;
    }
  }

  lemma SortedRecent(calls: seq<real>, granted: seq<real>, latest: real, now: real)
    requires Tracks(calls, granted, latest) && latest <= now
    ensures Sorted(Recent(calls, now)) == Recent(calls, now)
  {
    GrantStep(calls, granted, latest, now, 1);
    SortedStays(Recent(calls, now));
  }

  lemma LaterTracks(calls: seq<real>, granted: seq<real>, latest: real, now: real)
    requires Tracks(calls, granted, latest) && latest <= now
    ensures Tracks(calls, granted, now)
  {
  }

  /** If no other reservation comes first, one succeeds from `next` on and none before. */
  ghost predicate ExactFrom(calls: seq<real>, limit: nat, now: real, next: real) {
    forall t: real :: now <= t ==> (|Recent(calls, t)| < limit <==> t >= next)
  }

  /** The call that has to leave the window before there is room. */
  function Decisive(calls: seq<real>, limit: nat): real
    requires 1 <= limit <= |calls|
  {
    calls[|calls| - limit]
  }

  lemma RoomFromDecisive(calls: seq<real>, now: real, limit: nat)
    requires Ascending(calls) && 1 <= limit <= |Recent(calls, now)|
    ensures Recent(calls, now)[0] > now - WINDOW && Recent(calls, now)[0] <= Decisive(Recent(calls, now), limit)
    ensures ExactFrom(calls, limit, now, Decisive(Recent(calls, now), limit) + WINDOW)
  {
    var n := RecentIsSuffix(calls, now);
    var recent := Recent(calls, now);
    assert recent[0] == calls[n] && Decisive(recent, limit) == calls[|calls| - limit];
    forall t | now <= t ensures |Recent(calls, t)| < limit <==> t >= calls[|calls| - limit] + WINDOW {
      RoomExactlyWhen(calls, t, limit);
    }
  }

  /**
   The reported time is exact if and only if the call that decides is as old as the oldest
   one that counts. With more calls than a lowered limit allows it is too early otherwise.
   */
  lemma LoweredLimit(calls: seq<real>, now: real, limit: nat)
    requires Ascending(calls) && 1 <= limit <= |Recent(calls, now)|
    ensures ExactFrom(calls, limit, now, Recent(calls, now)[0] + WINDOW)
      <==> Decisive(Recent(calls, now), limit) == Recent(calls, now)[0]
  {
    var recent := Recent(calls, now);
    RoomFromDecisive(calls, now, limit);
    if recent[0] != Decisive(recent, limit) {
      var t := recent[0] + WINDOW;
      assert now <= t && !(|Recent(calls, t)| < limit);
    }
  }

  /** With a constant limit the window never holds more, and the reported time is exact. */
  lemma ExceededIsExact(calls: seq<real>, now: real, limit: nat)
    requires Ascending(calls) && 1 <= limit && |calls| <= limit && |Recent(calls, now)| >= limit
    ensures ExactFrom(calls, limit, now, Recent(calls, now)[0] + WINDOW)
  {
    var n := RecentIsSuffix(calls, now);
    LoweredLimit(calls, now, limit);
  }

  lemma RecentOfTwo(a: real, b: real, now: real)
    ensures Recent([a, b], now) == (if now - a < WINDOW then [a] else []) + (if now - b < WINDOW then [b] else [])
  {
    assert [a, b][..1] == [a] && [a][..0] == [];
    assert Recent([a], now) == if now - a < WINDOW then [] + [a] else [];
  }

  /** Two calls at 0 and 1 under a limit lowered to one: refused at 1, the reported 60 is still too early. */
  lemma LoweredLimitFails()
    ensures Recent([0.0, 1.0], 1.0) == [0.0, 1.0]
    ensures !ExactFrom([0.0, 1.0], 1, 1.0, 0.0 + WINDOW) && |Recent([0.0, 1.0], 60.0)| == 1
  {
    var calls := [0.0, 1.0];
    RecentOfTwo(0.0, 1.0, 1.0);
    RecentOfTwo(0.0, 1.0, 60.0);
    LoweredLimit(calls, 1.0, 1);
  }

  /** The reservations granted when the clock shows these readings, from stored calls. */
  function Grants(calls: seq<real>, limit: nat, readings: seq<real>): seq<real>
    decreases |readings|
  {
    if readings == [] then []
    else
      var recent := Recent(calls, readings[0]);
      if |recent| >= limit then Grants(calls, limit, readings[1..])
      else [readings[0]] + Grants(recent + [readings[0]], limit, readings[1..])
  }

  lemma {:induction false} GrantsKeepSpacing(calls: seq<real>, granted: seq<real>, latest: real, limit: nat,
                                             readings: seq<real>)
    requires Tracks(calls, granted, latest) && Spaced(granted, limit)
    requires Ascending(readings) && (readings != [] ==> latest <= readings[0])
    ensures Spaced(granted + Grants(calls, limit, readings), limit)
    decreases |readings|
  {
    if readings == [] {
      assert granted + [] == granted;
    } else {
      var now := readings[0];
      var recent := Recent(calls, now);
      GrantStep(calls, granted, latest, now, limit);
      if |recent| >= limit {
        LaterTracks(calls, granted, latest, now);
        GrantsKeepSpacing(calls, granted, now, limit, readings[1..]);
      } else {
        GrantsKeepSpacing(recent + [now], granted + [now], now, limit, readings[1..]);
        var rest := Grants(recent + [now], limit, readings[1..]);
        assert granted + ([now] + rest) == (granted + [now]) + rest;
      }
    }
  }

  /** Over any run with a clock that never goes back, any `limit` + 1 consecutive calls span a full window. */
  lemma GrantsAreSpaced(limit: nat, readings: seq<real>)
    requires Ascending(readings) && (readings != [] ==> readings[0] >= 0.0)
    ensures Spaced(Grants([], limit, readings), limit)
  {
    GrantsKeepSpacing([], [], 0.0, limit, readings);
    assert [] + Grants([], limit, readings) == Grants([], limit, readings);
  }

  // ------------------------------------------------------- a report's share

  /** At least one call, at most the whole part of the share. */
  function AllowedCalls(perMinute: nat, share: real): (n: nat)
    requires share >= 0.0
    ensures n >= 1 && (n > 1 ==> n as real <= perMinute as real * share) && perMinute as real * share < n as real + 1.0
  {
    var n := (perMinute as real * share).Floor;
    if n < 1 then 1 else n
  }

  /** A larger limit is kept as well. */
  lemma LargerLimit(granted: seq<real>, now: real, allowed: nat, limit: nat)
    requires Ascending(granted) && (forall i :: 0 <= i < |granted| ==> granted[i] <= now) && 1 <= allowed <= limit
    requires |granted| >= allowed ==> now - granted[|granted| - allowed] >= WINDOW
    requires Spaced(granted, limit)
    ensures Spaced(granted + [now], limit)
  {
    var after := granted + [now];
    forall i | 0 <= i && i + limit < |after| ensures after[i + limit] - after[i] >= WINDOW {
      if i + limit < |granted| {
        assert granted[i + limit] - granted[i] >= WINDOW;
      } else {
        assert granted[i] <= granted[|granted| - allowed];
      }
    }
  }

  /** A call with room in the window comes a full window after the one `allowed` places before it. */
  lemma RoomIsSpacing(calls: seq<real>, granted: seq<real>, now: real, allowed: nat)
    requires Tracks(calls, granted, now) && |calls| < allowed
    ensures |granted| >= allowed ==> now - granted[|granted| - allowed] >= WINDOW
  {
  }

  /** What was pruned earlier would be pruned later. */
  lemma {:induction false} RecentTwice(calls: seq<real>, now: real, t: real)
    requires now <= t
    ensures Recent(Recent(calls, now), t) == Recent(calls, t)
  {
    if calls != [] {
      var n := |calls| - 1;
      RecentTwice(calls[..n], now, t);
      if now - calls[n] < WINDOW {
        var kept := Recent(calls[..n], now);
        assert (kept + [calls[n]])[..|kept|] == kept;
      }
    }
  }

  /** From `since` on both count the same calls. */
  ghost predicate SameRecent(a: seq<real>, b: seq<real>, since: real) {
    forall t: real {:trigger Recent(b, t)} :: t >= since ==> Recent(a, t) == Recent(b, t)
  }

  lemma PrunedIsSame(calls: seq<real>, now: real)
    ensures SameRecent(calls, Recent(calls, now), now)
  {
    forall t: real | t >= now ensures Recent(calls, t) == Recent(Recent(calls, now), t) {
      RecentTwice(calls, now, t);
    }
  }

  lemma SameRecentTwice(a: seq<real>, b: seq<real>, c: seq<real>, earlier: real, later: real)
    requires SameRecent(a, b, earlier) && SameRecent(b, c, later) && earlier <= later
    ensures SameRecent(a, c, later)
  {
    forall t: real | t >= later ensures Recent(a, t) == Recent(c, t) {
      assert Recent(b, t) == Recent(c, t);
    }
  }

  /** There is no room at any of the first `n` readings. */
  predicate Full(calls: seq<real>, readings: seq<real>, n: nat, allowed: nat)
    requires n <= |readings|
  {
    forall j :: 0 <= j < n ==> |Recent(calls, readings[j])| >= allowed
  }

  class ReportCalls {
    var calls: seq<real>
    ghost var granted: seq<real>
    ghost var latest: real

    ghost predicate Valid()
      reads this
    {
      Tracks(calls, granted, latest)
    }

    constructor ()
      ensures Valid() && granted == [] && latest == 0.0
    {
      calls, granted, latest := [], [], 0.0;
    }

    /**
     `wait_for_share`: the settings are read once, then each waking reads the clock; the
     stop is requested before waking `stopAt`. Whatever the settings were before, every
     spacing at least as wide as the present share is kept.
     */
    method WaitForShare(perMinute: nat, share: real, readings: seq<real>, stopAt: nat)
      returns (returned: bool, wakes: nat)
      requires Valid() && share >= 0.0
      requires Ascending(readings) && (readings != [] ==> latest <= readings[0])
      modifies this
      ensures Valid() && wakes <= |readings|
      ensures returned ==> 0 < wakes <= stopAt + 1 && granted == old(granted) + [readings[wakes - 1]]
      ensures returned ==> wakes > stopAt || |Recent(old(calls), readings[wakes - 1])| < AllowedCalls(perMinute, share)
      ensures Full(old(calls), readings, if returned then wakes - 1 else wakes, AllowedCalls(perMinute, share))
      ensures !returned ==> granted == old(granted) && wakes == |readings| <= stopAt
      ensures wakes <= stopAt ==> KeepsSpacing(old(granted), granted, AllowedCalls(perMinute, share))
    {
      returned, wakes := WaitForRoom(AllowedCalls(perMinute, share), readings, stopAt);
    }

    /** The loop of `wait_for_share`. */
    method WaitForRoom(allowed: nat, readings: seq<real>, stopAt: nat) returns (returned: bool, wakes: nat)
      requires Valid() && allowed >= 1
      requires Ascending(readings) && (readings != [] ==> latest <= readings[0])
      modifies this
      ensures Valid() && wakes <= |readings|
      ensures returned ==> 0 < wakes <= stopAt + 1 && granted == old(granted) + [readings[wakes - 1]]
      ensures returned ==> wakes > stopAt || |Recent(old(calls), readings[wakes - 1])| < allowed
      ensures Full(old(calls), readings, if returned then wakes - 1 else wakes, allowed)
      ensures !returned ==> granted == old(granted) && wakes == |readings| <= stopAt
      ensures returned && wakes <= stopAt ==> KeepsSpacing(old(granted), granted, allowed)
    {
      wakes := 0;
      while wakes < |readings|
        invariant 0 <= wakes <= |readings|
        invariant Valid() && granted == old(granted)
        invariant wakes < |readings| ==> latest <= readings[wakes]
        invariant SameRecent(old(calls), calls, latest)
        invariant wakes <= stopAt && Full(old(calls), readings, wakes, allowed)
      {
        wakes := wakes + 1;
        assert wakes < |readings| ==> readings[wakes - 1] <= readings[wakes];
        returned := Wake(readings[wakes - 1], allowed, wakes > stopAt, old(calls));
        if returned {
          return;
        }
      }
      returned := false;
    }

    /**
     One turn of the loop: old calls are pruned, and the call goes out if there is room or a
     stop. `first` are the calls before any pruning of this loop.
     */
    method Wake(now: real, allowed: nat, stopped: bool, ghost first: seq<real>) returns (returned: bool)
      requires Valid() && latest <= now && allowed >= 1 && SameRecent(first, calls, latest)
      modifies this
      ensures Valid() && latest == now
      ensures returned <==> |Recent(first, now)| < allowed || stopped
      ensures granted == if returned then old(granted) + [now] else old(granted)
      ensures !returned ==> SameRecent(first, calls, now)
      ensures !stopped ==> KeepsSpacing(old(granted), granted, allowed)
    {
      GrantStep(calls, granted, latest, now, allowed);
      assert Recent(first, now) == Recent(calls, now);
      PrunedIsSame(calls, now);
      SameRecentTwice(first, calls, Recent(calls, now), latest, now);
      calls := Recent(calls, now);
      latest := now;
      returned := |calls| < allowed || stopped;
      if returned {
        SpacingKept(calls, granted, now, allowed);
        calls := calls + [now];
        granted := granted + [now];
      }
    }
  }

  ghost predicate KeepsSpacing(before: seq<real>, after: seq<real>, allowed: nat) {
    forall limit: nat {:trigger Spaced(after, limit)} :: limit >= allowed && Spaced(before, limit) ==>
      Spaced(after, limit)
  }

  lemma SpacingKept(calls: seq<real>, granted: seq<real>, now: real, allowed: nat)
    requires Tracks(calls, granted, now) && allowed >= 1
    ensures |calls| < allowed ==> KeepsSpacing(granted, granted + [now], allowed)
  {
    if |calls| < allowed {
      RoomIsSpacing(calls, granted, now, allowed);
      forall limit: nat | limit >= allowed && Spaced(granted, limit) ensures Spaced(granted + [now], limit) {
        LargerLimit(granted, now, allowed, limit);
      }
    }
  }
}
