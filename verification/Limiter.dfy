/** The request limiter of the companion (apps/companion/src/lib.rs): a sliding window of accepted calls. */
module Limiter {
  const REQUESTS := 60
  const WINDOW := 60_000_000_000          // nanoseconds

  /** The accepted calls younger than the window at a given time: the simple specification. */
  ghost function Young(accepted: seq<nat>, now: nat): seq<nat> {
    if accepted == [] then []
    else
      var init, last := accepted[..|accepted| - 1], accepted[|accepted| - 1];
      Young(init, now) + (if now - last < WINDOW then [last] else [])
  }

  ghost predicate Sorted(s: seq<nat>) {
    forall i, j :: 0 <= i < j < |s| ==> s[i] <= s[j]
  }

  /** How many of the calls fall into the half-open window starting at `start`. */
  ghost function CountIn(s: seq<nat>, start: nat): nat {
    if s == [] then 0
    else
      var init, last := s[..|s| - 1], s[|s| - 1];
      CountIn(init, start) + (if start <= last < start + WINDOW then 1 else 0)
  }

  /** Any 61 consecutive acceptances span at least a window. */
  ghost predicate Spaced(s: seq<nat>) {
    forall i :: 0 <= i < |s| - REQUESTS ==> s[i] + WINDOW <= s[i + REQUESTS]
  }

  /** In a sorted log the young calls are a suffix. */
  lemma {:induction false} YoungIsSuffix(s: seq<nat>, now: nat, cut: nat)
    requires cut <= |s|
    requires forall i :: 0 <= i < cut ==> now - s[i] >= WINDOW
    requires forall i :: cut <= i < |s| ==> now - s[i] < WINDOW
    ensures Young(s, now) == s[cut..]
    decreases |s|
  {
    if s != [] {
      var init := s[..|s| - 1];
      if cut == |s| {
        YoungIsSuffix(init, now, |init|);
      } else {
        YoungIsSuffix(init, now, cut);
        SuffixSnoc(s, cut);
      }
    }
  }

  lemma SuffixSnoc(s: seq<nat>, cut: nat)
    requires cut < |s|
    ensures s[cut..] == s[..|s| - 1][cut..] + [s[|s| - 1]]
  {}

  lemma {:induction false} NoneBefore(s: seq<nat>, start: nat)
    requires forall i :: 0 <= i < |s| ==> s[i] < start
    ensures CountIn(s, start) == 0
  {
    if s != [] { NoneBefore(s[..|s| - 1], start); }
  }

  lemma {:induction false} CountSplit(a: seq<nat>, b: seq<nat>, start: nat)
    ensures CountIn(a + b, start) == CountIn(a, start) + CountIn(b, start)
    ensures CountIn(b, start) <= |b|
    decreases |b|
  {
    if b == [] {
      assert a + b == a;
    } else {
      assert (a + b)[..|a + b| - 1] == a + b[..|b| - 1];
      CountSplit(a, b[..|b| - 1], start);
    }
  }

  /** Spacing out acceptances bounds every window, wherever it starts. */
  lemma {:induction false} WindowBound(s: seq<nat>, start: nat)
    requires Sorted(s) && Spaced(s)
    ensures CountIn(s, start) <= REQUESTS
    decreases |s|
  {
    if |s| <= REQUESTS {
      assert [] + s == s;
      CountSplit([], s, start);
    } else {
      var last := s[|s| - 1];
      if start <= last < start + WINDOW {
        var a, b := s[..|s| - REQUESTS], s[|s| - REQUESTS..];
        assert s == a + b;
        assert s[|s| - 1 - REQUESTS] + WINDOW <= last;
        NoneBefore(a, start);
        CountSplit(a, b, start);
      } else {
        WindowBound(s[..|s| - 1], start);
      }
    }
  }

  /** The start of the half-open window of sixty seconds that ends with this moment. */
  function WindowEnding(now: nat): nat { if now + 1 >= WINDOW then now + 1 - WINDOW else 0 }

  /** The young calls are those of that window. */
  lemma {:induction false} YoungIsCounted(s: seq<nat>, now: nat)
    requires forall i :: 0 <= i < |s| ==> s[i] <= now
    ensures |Young(s, now)| == CountIn(s, WindowEnding(now))
  {
    if s != [] { YoungIsCounted(s[..|s| - 1], now); }
  }

  class RequestLimiter {
    var events: seq<nat>
    ghost var accepted: seq<nat>          // every acceptance so far
    ghost var latest: nat                 // time of the last call

    constructor ()
      ensures Valid() && accepted == [] && latest == 0
    {
      events, accepted, latest := [], [], 0;
    }

    ghost predicate Valid()
      reads this
    {
      Tracked(accepted, events, latest)
    }

    /** Forget the calls that left the window. */
    method Expire(now: nat)
      requires Valid() && latest <= now
      modifies this`events, this`latest
      ensures Valid() && latest == now
      ensures events == Young(accepted, now)
    {
      latest := now;
      while events != [] && now - events[0] >= WINDOW
        invariant latest == now && Tracked(accepted, events, now)
        decreases |events|
      {
        DropFront(accepted, events, now);
        events := events[1..];
      }
      YoungRest(accepted, events, now);
    }

    /** The deque is exactly the young acceptances, the answer depends on nothing else, and no
        half-open window of sixty seconds ever holds more than sixty acceptances. */
    method Allow(now: nat) returns (allowed: bool)
      requires Valid() && latest <= now
      modifies this
      ensures Valid() && latest == now
      ensures allowed <==> |Young(old(accepted), now)| < REQUESTS
      ensures allowed <==> CountIn(old(accepted), WindowEnding(now)) < 60
      ensures accepted == if allowed then old(accepted) + [now] else old(accepted)
      ensures events == Young(accepted, now)
      ensures forall start :: CountIn(accepted, start) <= REQUESTS
    {
      Expire(now);
      YoungIsCounted(accepted, now);
      allowed := |events| < REQUESTS;
      if allowed { Remember(now); }
      AllWindows(accepted);
    }

    /** The call is accepted. */
    method Remember(now: nat)
      requires Valid() && latest == now && events == Young(accepted, now) && |events| < REQUESTS
      modifies this`events, this`accepted
      ensures Valid() && events == Young(accepted, now) && accepted == old(accepted) + [now]
    {
      PushBack(accepted, events, now);
      events := events + [now];
      accepted := accepted + [now];
    }
  }

  lemma AllWindows(accepted: seq<nat>)
    requires Sorted(accepted) && Spaced(accepted)
    ensures forall start :: CountIn(accepted, start) <= REQUESTS
  {
    forall start ensures CountIn(accepted, start) <= REQUESTS { WindowBound(accepted, start); }
  }

  /** The deque holds a suffix of the acceptances, and what it has forgotten is old. */
  ghost predicate Tracked(accepted: seq<nat>, events: seq<nat>, latest: nat) {
    && Sorted(accepted) && Spaced(accepted)
    && (forall i :: 0 <= i < |accepted| ==> accepted[i] <= latest)
    && |events| <= |accepted| && events == accepted[|accepted| - |events|..]
    && |events| <= REQUESTS
    && (forall i :: 0 <= i < |accepted| - |events| ==> latest - accepted[i] >= WINDOW)
  }

  lemma DropFront(accepted: seq<nat>, events: seq<nat>, now: nat)
    requires Tracked(accepted, events, now) && events != [] && now - events[0] >= WINDOW
    ensures Tracked(accepted, events[1..], now)
  {
    var cut := |accepted| - |events|;
    assert events[0] == accepted[cut];
    assert events[1..] == accepted[cut + 1..];
  }

  lemma YoungRest(accepted: seq<nat>, events: seq<nat>, now: nat)
    requires Tracked(accepted, events, now) && (events != [] ==> now - events[0] < WINDOW)
    ensures Young(accepted, now) == events
  {
    var cut := |accepted| - |events|;
    forall i | cut <= i < |accepted| ensures now - accepted[i] < WINDOW {
      assert events[0] == accepted[cut] <= accepted[i];
    }
    YoungIsSuffix(accepted, now, cut);
  }

  lemma SpacedSnoc(accepted: seq<nat>, now: nat)
    requires Spaced(accepted) && (|accepted| >= REQUESTS ==> accepted[|accepted| - REQUESTS] + WINDOW <= now)
    ensures Spaced(accepted + [now])
  {}

  lemma PushBack(accepted: seq<nat>, events: seq<nat>, now: nat)
    requires Tracked(accepted, events, now) && |events| < REQUESTS && Young(accepted, now) == events
    ensures Tracked(accepted + [now], events + [now], now)
    ensures Young(accepted + [now], now) == events + [now]
  {
    var after := accepted + [now];
    assert after[..|accepted|] == accepted;
    assert after[|after| - |events| - 1..] == events + [now];
    SpacedSnoc(accepted, now);
  }
}
