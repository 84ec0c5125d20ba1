// live-pacing.ts: recorded auth calls and the wait until more of them fit in the window.
//
// Times are milliseconds of one clock that does not run backwards. Between any two steps the clock may move on by
// any amount, and a timer may fire up to EARLY milliseconds before its time.

module AuthPacer {
  datatype Kind = Login | Refresh

  const WINDOW := 61_000
  const BUDGET := 4
  const EARLY := 250

  // The server's own limit: five calls in sixty seconds.
  const SERVER_WINDOW := 60_000
  const SERVER_LIMIT := 5

  // calls[kind].filter((t) => now - t < WINDOW_MS)
  function Recent(calls: seq<int>, now: int): seq<int> {
    if calls == [] then []
    else if now - calls[0] < WINDOW then [calls[0]] + Recent(calls[1..], now)
    else Recent(calls[1..], now)
  }

  predicate Sorted(times: seq<int>) {
    forall i, j :: 0 <= i < j < |times| ==> times[i] <= times[j]
  }

  predicate NotAfter(times: seq<int>, now: int) {
    forall i :: 0 <= i < |times| ==> times[i] <= now
  }

  // Any five calls in a row span at least a window.
  predicate Spaced(history: seq<int>) {
    forall i :: 0 <= i < |history| - BUDGET ==> history[i + BUDGET] - history[i] >= WINDOW
  }

  // calls are the latest of all calls made; every earlier one has left the window.
  predicate Tracks(calls: seq<int>, history: seq<int>, now: int) {
    && |calls| <= |history|
    && calls == history[|history| - |calls|..]
    && forall i :: 0 <= i < |history| - |calls| ==> now - history[i] >= WINDOW
  }

  // ------------------------------------------------------------------ filtering

  lemma {:induction false} RecentKeepsAll(calls: seq<int>, now: int)
    requires forall i :: 0 <= i < |calls| ==> now - calls[i] < WINDOW
    ensures Recent(calls, now) == calls
    decreases |calls|
  {
    if calls != [] {
      RecentKeepsAll(calls[1..], now);
      assert calls == [calls[0]] + calls[1..];
    }
  }

  // Of sorted calls the filter drops a front part, whose calls have left the window.
  lemma {:induction false} RecentDropsFront(calls: seq<int>, now: int)
    requires Sorted(calls)
    ensures var r := Recent(calls, now);
            && |r| <= |calls| && r == calls[|calls| - |r|..]
            && (forall i :: 0 <= i < |calls| - |r| ==> now - calls[i] >= WINDOW)
            && (r != [] ==> now - r[0] < WINDOW)
    decreases |calls|
  {
    if calls != [] {
      if now - calls[0] < WINDOW {
        RecentKeepsAll(calls, now);
      } else {
        var r := Recent(calls[1..], now);
        RecentDropsFront(calls[1..], now);
        assert calls[1..][|calls| - 1 - |r|..] == calls[|calls| - |r|..];
        forall i | 0 <= i < |calls| - |r|
          ensures now - calls[i] >= WINDOW
        {
          if i > 0 { assert calls[i] == calls[1..][i - 1]; }
        }
      }
    }
  }

  lemma {:induction false} RecentTracks(calls: seq<int>, history: seq<int>, before: int, now: int)
    requires Sorted(history) && Tracks(calls, history, before) && before <= now
    ensures Tracks(Recent(calls, now), history, now)
  {
    RecentDropsFront(calls, now);
    var r, n := Recent(calls, now), |history|;
    assert calls[|calls| - |r|..] == history[n - |r|..];
    forall i | 0 <= i < n - |r|
      ensures now - history[i] >= WINDOW
    {
      if i >= n - |calls| { assert history[i] == calls[i - (n - |calls|)]; }
    }
  }

  lemma {:induction false} RecentAgain(calls: seq<int>, before: int, now: int)
    requires before <= now
    ensures Recent(Recent(calls, before), now) == Recent(calls, now)
    decreases |calls|
  {
    if calls != [] {
      var rest := Recent(calls[1..], before);
      RecentAgain(calls[1..], before, now);
      if now - calls[0] < WINDOW {
        assert ([calls[0]] + rest)[1..] == rest;
      } else if before - calls[0] < WINDOW {
        assert ([calls[0]] + rest)[1..] == rest;
      }
    }
  }

  // Once the oldest call has left the window, fewer are recent.
  lemma {:induction false} OldestLeaves(calls: seq<int>, now: int)
    requires calls != [] && now - calls[0] >= WINDOW
    ensures |Recent(calls, now)| < |calls|
  {
    RecentShorter(calls[1..], now);
  }

  lemma {:induction false} RecentShorter(calls: seq<int>, now: int)
    ensures |Recent(calls, now)| <= |calls|
    decreases |calls|
  {
    if calls != [] {
      RecentShorter(calls[1..], now);
    }
  }

  // One more call, when fewer than the budget are tracked.
  lemma {:induction false} CallKeepsSpacing(calls: seq<int>, history: seq<int>, now: int)
    requires Sorted(history) && NotAfter(history, now) && Spaced(history)
    requires Tracks(calls, history, now) && |calls| < BUDGET
    ensures var next := history + [now];
            && Sorted(next) && NotAfter(next, now) && Spaced(next) && Tracks(calls + [now], next, now)
  {
    var next := history + [now];
    assert next[|next| - |calls + [now]|..] == calls + [now];
  }

  // Later, no more calls are recent.
  lemma {:induction false} RecentFewer(calls: seq<int>, before: int, now: int)
    requires before <= now
    ensures |Recent(calls, now)| <= |Recent(calls, before)|
  {
    RecentAgain(calls, before, now);
    RecentShorter(Recent(calls, before), now);
  }

  // A wait for the oldest recent call leaves fewer recent ones, of the calls there were at first.
  lemma {:induction false} Waited(first: seq<int>, calls: seq<int>, start: int, asked: int, now: int)
    requires start <= asked <= now && calls == Recent(first, asked) && calls != [] && now - calls[0] >= WINDOW
    ensures Recent(calls, now) == Recent(first, now) && |Recent(calls, now)| < |calls|
    ensures |calls| <= |Recent(first, start)|
  {
    hide Recent;
    OldestLeaves(calls, now);
    RecentAgain(first, asked, now);
    RecentFewer(first, start, asked);
  }

  lemma {:induction false} TrackedLater(calls: seq<int>, history: seq<int>, before: int, now: int)
    requires Sorted(history) && NotAfter(history, before) && Tracks(calls, history, before) && before <= now
    ensures Sorted(calls) && NotAfter(history, now) && Tracks(calls, history, now)
  {
  }

  // Waiting can end exactly when the budget admits the upcoming calls at all.
  lemma {:induction false} WaitCanEnd(calls: seq<int>, upcoming: nat)
    ensures (exists now :: |Recent(calls, now)| + upcoming <= BUDGET) <==> upcoming <= BUDGET
  {
    var now := Late(calls);
    AllLeave(calls, now);
    assert |Recent(calls, now)| == 0;
  }

  // An input: with five upcoming calls no wait is long enough.
  lemma {:induction false} FiveWaitForEver(calls: seq<int>, now: int)
    ensures |Recent(calls, now)| + 5 > BUDGET
  {
  }

  // A time at which all calls have left the window.
  function Late(calls: seq<int>): (now: int)
    ensures forall i :: 0 <= i < |calls| ==> now - calls[i] >= WINDOW
  {
    if calls == [] then 0
    else
      var rest := Late(calls[1..]);
      var now := if rest - calls[0] >= WINDOW then rest else calls[0] + WINDOW;
      assert forall i :: 1 <= i < |calls| ==> calls[i] == calls[1..][i - 1];
      now
  }

  lemma {:induction false} AllLeave(calls: seq<int>, now: int)
    requires forall i :: 0 <= i < |calls| ==> now - calls[i] >= WINDOW
    ensures Recent(calls, now) == []
    decreases |calls|
  {
    if calls != [] {
      AllLeave(calls[1..], now);
    }
  }

  // ------------------------------------------------------------------ windows

  // How many of the times lie in [start, start + length).
  function CountIn(times: seq<int>, start: int, length: nat): nat {
    if times == [] then 0
    else CountIn(times[..|times| - 1], start, length) +
         if start <= times[|times| - 1] < start + length then 1 else 0
  }

  lemma {:induction false} SpacedPrefix(times: seq<int>)
    requires Sorted(times) && times != []
    ensures Sorted(times[..|times| - 1])
    ensures Spaced(times) ==> Spaced(times[..|times| - 1])
  {
  }

  lemma {:induction false} CountAtMostLength(times: seq<int>, start: int, length: nat)
    ensures CountIn(times, start, length) <= |times|
    decreases |times|
  {
    if times != [] {
      CountAtMostLength(times[..|times| - 1], start, length);
    }
  }

  lemma {:induction false} CountLater(times: seq<int>, start: int, length: nat, k: nat)
    requires Sorted(times) && k <= |times| && forall i :: 0 <= i < k ==> times[i] < start
    ensures CountIn(times, start, length) <= |times| - k
    decreases |times|
  {
    if |times| == k {
      CountNone(times, start, length);
    } else {
      CountLater(times[..|times| - 1], start, length, k);
    }
  }

  lemma {:induction false} CountNone(times: seq<int>, start: int, length: nat)
    requires forall i :: 0 <= i < |times| ==> times[i] < start
    ensures CountIn(times, start, length) == 0
    decreases |times|
  {
    if times != [] {
      CountNone(times[..|times| - 1], start, length);
    }
  }

  // Calls spaced over five in a row: no window holds more than the budget.
  lemma {:induction false} SpacedCount(times: seq<int>, start: int)
    requires Sorted(times) && Spaced(times)
    ensures CountIn(times, start, WINDOW) <= BUDGET
    decreases |times|
  {
    var n := |times|;
    if n <= BUDGET {
      CountAtMostLength(times, start, WINDOW);
    } else if times[n - 1] >= start + WINDOW || times[n - 1] < start {
      SpacedPrefix(times);
      SpacedCount(times[..n - 1], start);
    } else {
      assert times[n - 1 - BUDGET + BUDGET] - times[n - 1 - BUDGET] >= WINDOW;
      CountLater(times, start, WINDOW, n - BUDGET);
    }
  }

  lemma {:induction false} CountSuffix(times: seq<int>, start: int, length: nat, k: nat)
    requires Sorted(times) && k <= |times|
    requires forall i :: k <= i < |times| ==> start <= times[i] < start + length
    ensures CountIn(times, start, length) >= |times| - k
    decreases |times|
  {
    if |times| > k {
      CountSuffix(times[..|times| - 1], start, length, k);
    }
  }

  lemma {:induction false} CountPrefix(times: seq<int>, n: nat, start: int, length: nat)
    requires n <= |times|
    ensures CountIn(times[..n], start, length) <= CountIn(times, start, length)
    decreases |times|
  {
    if n == |times| {
      assert times[..n] == times;
    } else {
      CountPrefix(times[..|times| - 1], n, start, length);
      assert times[..|times| - 1][..n] == times[..n];
    }
  }

  // Spacing says exactly that no window of any start holds more than the budget.
  lemma {:induction false} SpacedIsSafe(times: seq<int>)
    requires Sorted(times)
    ensures Spaced(times) <==> forall start :: CountIn(times, start, WINDOW) <= BUDGET
  {
    if Spaced(times) {
      forall start
        ensures CountIn(times, start, WINDOW) <= BUDGET
      {
        SpacedCount(times, start);
      }
    } else {
      var i :| 0 <= i < |times| - BUDGET && times[i + BUDGET] - times[i] < WINDOW;
      var front := times[..i + BUDGET + 1];
      CountSuffix(front, times[i], WINDOW, i);
      CountPrefix(times, i + BUDGET + 1, times[i], WINDOW);
      assert CountIn(times, times[i], WINDOW) > BUDGET;
    }
  }

  // A call reaches the server some time after it is sent.
  lemma {:induction false} CountDelayed(sent: seq<int>, received: seq<int>, start: int)
    requires |sent| == |received|
    requires forall i :: 0 <= i < |sent| ==> sent[i] <= received[i] <= sent[i] + (WINDOW - SERVER_WINDOW)
    ensures CountIn(received, start, SERVER_WINDOW) <= CountIn(sent, start - (WINDOW - SERVER_WINDOW), WINDOW)
    decreases |sent|
  {
    if sent != [] {
      CountDelayed(sent[..|sent| - 1], received[..|sent| - 1], start);
    }
  }

  // If no call takes more than the second by which the window exceeds the server's, the server never sees its limit.
  lemma {:induction false} ServerNeverRefuses(sent: seq<int>, received: seq<int>, start: int)
    requires Sorted(sent) && Spaced(sent) && |sent| == |received|
    requires forall i :: 0 <= i < |sent| ==> sent[i] <= received[i] <= sent[i] + (WINDOW - SERVER_WINDOW)
    ensures CountIn(received, start, SERVER_WINDOW) < SERVER_LIMIT
  {
    CountDelayed(sent, received, start);
    SpacedCount(sent, start - (WINDOW - SERVER_WINDOW));
  }

  // ------------------------------------------------------------------ the module state

  datatype Batch = Batch(kind: Kind, upcoming: nat, made: nat)

  function Planned(batches: seq<Batch>, k: Kind): nat {
    if batches == [] then 0
    else Planned(batches[..|batches| - 1], k) +
         if batches[|batches| - 1].kind == k then batches[|batches| - 1].made else 0
  }

  // Some time later, at least so many milliseconds.
  method Later(now: int, atLeast: nat) returns (later: int)
    ensures later >= now + atLeast
  {
    var more: nat :| true;
    later := now + atLeast + more;
  }

  // The calls of one kind. Each step is given the time at which it is made.
  class Ledger {
    var calls: seq<int>
    // Every call ever made, how many are still announced, and the time of the latest step.
    ghost var history: seq<int>
    ghost var announced: nat
    ghost var latest: int

    ghost predicate Valid()
      reads this
    {
      && Sorted(history) && NotAfter(history, latest) && Spaced(history)
      && Tracks(calls, history, latest)
      && |calls| + announced <= BUDGET
    }

    constructor (now: int)
      ensures Valid() && history == [] && latest == now
    {
      calls, history, announced, latest := [], [], 0, now;
    }

    // An announced call is sent and recorded.
    method Observe(now: int)
      requires Valid() && announced > 0 && latest <= now
      modifies this
      ensures Valid() && latest == now
      ensures history == old(history) + [now] && calls == old(calls) + [now]
      ensures announced == old(announced) - 1
    {
      hide Sorted, NotAfter, Spaced, Tracks;
      TrackedLater(calls, history, latest, now);
      CallKeepsSpacing(calls, history, now);
      calls, history, announced, latest := calls + [now], history + [now], announced - 1, now;
    }

    // paceAuth(): waits until the upcoming calls fit, forgetting only calls that have left the window; when they fit
    // at once it does not wait.
    method Pace(upcoming: nat, start: int) returns (now: int)
      requires Valid() && latest <= start && upcoming <= BUDGET
      modifies this
      ensures Valid() && start <= now == latest
      ensures history == old(history) && announced == upcoming
      ensures calls == Recent(old(calls), now)
      ensures |Recent(old(calls), start)| + upcoming <= BUDGET ==> now == start
    {
      hide Sorted, NotAfter, Spaced, Tracks, Recent;
      now := start;
      announced := 0;
      while true
        invariant Valid() && start <= now && latest <= now && announced == 0 && history == old(history)
        invariant Recent(calls, now) == Recent(old(calls), now)
        invariant |Recent(old(calls), start)| + upcoming <= BUDGET ==> now == start
        decreases |Recent(calls, now)|
      {
        Forget(now);
        if |calls| + upcoming <= BUDGET {
          announced := upcoming;
          return;
        }
        var later := Later(now, WINDOW - (now - calls[0]) + 250 - EARLY);
        Waited(old(calls), calls, start, now, later);
        now := later;
      }
    }

    // calls[kind] = calls[kind].filter((t) => now - t < WINDOW_MS)
    method Forget(now: int)
      requires Valid() && latest <= now
      modifies `calls, `latest
      ensures Valid() && latest == now
      ensures calls == Recent(old(calls), now)
      ensures calls != [] ==> now - calls[0] < WINDOW
    {
      hide Sorted, NotAfter, Spaced, Tracks, Recent;
      RecentTracks(calls, history, latest, now);
      TrackedLater(calls, history, latest, now);
      RecentDropsFront(calls, now);
      calls, latest := Recent(calls, now), now;
    }
  }

  // Whole runs: each batch waits for its turn, makes at most the calls it has announced, and is over before the next.
  // No window, whenever it starts, holds more calls of a kind than the budget.
  method Run(batches: seq<Batch>, start: int) returns (login: seq<int>, refresh: seq<int>, end: int)
    requires forall i :: 0 <= i < |batches| ==> batches[i].made <= batches[i].upcoming <= BUDGET
    ensures |login| == Planned(batches, Login) && |refresh| == Planned(batches, Refresh)
    ensures Sorted(login) && Sorted(refresh)
    ensures forall from :: CountIn(login, from, WINDOW) <= BUDGET && CountIn(refresh, from, WINDOW) <= BUDGET
  {
    hide Sorted, NotAfter, Spaced, Tracks, Recent, CountIn;
    login, refresh, end := [], [], start;
    var l := new Ledger(start);
    var r := new Ledger(start);
    for i := 0 to |batches|
      invariant fresh(l) && fresh(r) && l != r && l.Valid() && r.Valid() && l.latest <= end && r.latest <= end
      invariant l.history == login && r.history == refresh
      invariant |login| == Planned(batches[..i], Login) && |refresh| == Planned(batches[..i], Refresh)
    {
      assert batches[..i + 1][..i] == batches[..i];
      var sent: seq<int>;
      if batches[i].kind == Login {
        sent, end := Make(l, batches[i], end);
        login := login + sent;
      } else {
        sent, end := Make(r, batches[i], end);
        refresh := refresh + sent;
      }
    }
    assert batches[..|batches|] == batches;
    forall from
      ensures CountIn(login, from, WINDOW) <= BUDGET && CountIn(refresh, from, WINDOW) <= BUDGET
    {
      SpacedCount(login, from);
      SpacedCount(refresh, from);
    }
  }

  method Make(ledger: Ledger, b: Batch, start: int) returns (sent: seq<int>, now: int)
    requires ledger.Valid() && ledger.latest <= start && b.made <= b.upcoming <= BUDGET
    modifies ledger
    ensures ledger.Valid() && start <= now && ledger.latest <= now
    ensures ledger.history == old(ledger.history) + sent && |sent| == b.made
  {
    hide Sorted, NotAfter, Spaced, Tracks, Recent;
    sent := [];
    now := ledger.Pace(b.upcoming, start);
    for j := 0 to b.made
      invariant ledger.Valid() && start <= now && ledger.latest <= now && ledger.announced == b.upcoming - j
      invariant ledger.history == old(ledger.history) + sent && |sent| == j
    {
      now := Later(now, 0);
      ledger.Observe(now);
      sent := sent + [now];
    }
    now := Later(now, 0);
  }
}
