/** The server goroutine of WaitGroupChan (utils/channels.go): it owns the counter
    and closes the broadcast channel `chWait`. */
module WaitGroupChans {
  import opened Wrappers

  /** What the server's select can pick: the context or the stop channel is
      closed, or a caller of Add or Done hands over its delta. */
  datatype Event = CtxDone | Stop | Request(delta: int)

  /** The string sent back: "", "called Done() too many times", or "WaitGroupChan
      already finished". */
  datatype Reply = Accepted | TooManyDone | AlreadyFinished

  /** The running total of the first `k` events. */
  function Total(events: seq<Event>, k: nat): int
    requires k <= |events|
  {
    if k == 0 then 0
    else Total(events, k - 1) + if events[k - 1].Request? then events[k - 1].delta else 0
  }

  /** Waiters may go once this event has been seen. */
  predicate Releases(events: seq<Event>, k: nat)
    requires k < |events|
  {
    events[k].Request? ==> Total(events, k + 1) <= 0
  }

  ghost predicate ReleasedBefore(events: seq<Event>, k: nat)
    requires k <= |events|
  {
    exists j :: 0 <= j < k && Releases(events, j)
  }

  ghost predicate FirstRelease(events: seq<Event>, k: nat) {
    k < |events| && Releases(events, k) && !ReleasedBefore(events, k)
  }

  /** The server returns after this event. */
  ghost predicate Ends(events: seq<Event>, k: nat)
    requires k < |events|
  {
    events[k].Request? ==> ReleasedBefore(events, k) || Total(events, k + 1) < 0
  }

  ghost function ReplyTo(events: seq<Event>, k: nat): Option<Reply>
    requires k < |events|
  {
    if !events[k].Request? then None
    else if ReleasedBefore(events, k) then Some(AlreadyFinished)
    else if Total(events, k + 1) < 0 then Some(TooManyDone)
    else Some(Accepted)
  }

  lemma FirstReleaseIsUnique(events: seq<Event>, k: nat)
    requires FirstRelease(events, k)
    ensures forall other: nat :: FirstRelease(events, other) ==> other == k
  {
  }

  lemma ReleasedStep(events: seq<Event>, k: nat)
    requires k < |events|
    ensures ReleasedBefore(events, k + 1) <==> ReleasedBefore(events, k) || Releases(events, k)
    ensures Releases(events, k) && !ReleasedBefore(events, k) ==> FirstRelease(events, k)
  {
  }

  /** `replies[k]` answers event k; `closes` lists the events at which `chWait`
      was closed.  Whatever happens, `chWait` is closed at most once, and at the
      first release; every request that is taken gets exactly one reply; and the
      server goes on until an event that ends it. */
  method Serve(events: seq<Event>) returns (replies: seq<Option<Reply>>, closes: seq<nat>)
    ensures |replies| <= |events|
    ensures forall k :: 0 <= k < |replies| ==> replies[k] == ReplyTo(events, k)
    ensures forall k :: 0 <= k < |replies| ==> (Ends(events, k) <==> k == |replies| - 1 && Ends(events, |replies| - 1))
    ensures |replies| < |events| ==> |replies| > 0 && Ends(events, |replies| - 1)
    ensures |closes| <= 1 && forall k: nat :: k in closes <==> FirstRelease(events, k)
  {
    replies, closes := [], [];
    var i, done := 0, false;
    var n := 0;
    while n < |events|
      invariant 0 <= n <= |events| && |replies| == n
      invariant forall k :: 0 <= k < n ==> replies[k] == ReplyTo(events, k) && !Ends(events, k)
      invariant done <==> ReleasedBefore(events, n)
      invariant !done ==> i == Total(events, n) && closes == []
      invariant done ==> |closes| == 1 && FirstRelease(events, closes[0]) && closes[0] < n
    {
      var event := events[n];
      ReleasedStep(events, n);
      if event.Request? {
        if done {
          FirstReleaseIsUnique(events, closes[0]);
          replies := replies + [Some(AlreadyFinished)];
          return;
        }
        i := i + event.delta;
        if i < 0 {
          FirstReleaseIsUnique(events, n);
          replies := replies + [Some(TooManyDone)];
          closes := [n];
          return;
        } else if i == 0 {
          done := true;
          closes := [n];
        }
        replies := replies + [Some(Accepted)];
      } else {
        if !done {
          closes := [n];
        }
        FirstReleaseIsUnique(events, closes[0]);
        replies := replies + [None];
        return;
      }
      n := n + 1;
    }
    if done {
      FirstReleaseIsUnique(events, closes[0]);
    }
  }

  // -------------------------------------------------- what callers can rely on

  /** Add(total), then one Done at a time. */
  function AddThenDone(total: int, dones: nat): seq<Event> {
    if dones == 0 then [Request(total)] else AddThenDone(total, dones - 1) + [Request(-1)]
  }

  lemma {:induction false} AddThenDoneTotals(total: int, dones: nat, k: nat)
    requires k <= dones
    ensures |AddThenDone(total, dones)| == dones + 1
    ensures Total(AddThenDone(total, dones), k + 1) == total - k
  {
    var events := AddThenDone(total, dones);
    if dones == 0 {
      assert Total(events, 0) == 0;
    } else {
      var before := AddThenDone(total, dones - 1);
      if k < dones {
        AddThenDoneTotals(total, dones - 1, k);
        TotalPrefix(before, [Request(-1)], k + 1);
      } else {
        AddThenDoneTotals(total, dones - 1, dones - 1);
        TotalPrefix(before, [Request(-1)], dones);
        assert events[dones] == Request(-1);
      }
    }
  }

  lemma {:induction false} TotalPrefix(a: seq<Event>, b: seq<Event>, k: nat)
    requires k <= |a|
    ensures Total(a + b, k) == Total(a, k)
  {
    if k > 0 {
      TotalPrefix(a, b, k - 1);
    }
  }

  /** After Add(n) the waiters are released by the n-th Done and not before. */
  lemma ReleasedByTheLastDone(n: nat)
    requires n > 0
    ensures FirstRelease(AddThenDone(n, n), n)
    ensures ReplyTo(AddThenDone(n, n), n) == Some(Accepted)
  {
    var events := AddThenDone(n, n);
    AddThenDoneTotals(n, n, n);
    AllRequests(n, n);
    forall j | 0 <= j < n ensures !Releases(events, j) {
      AddThenDoneTotals(n, n, j);
    }
  }

  lemma {:induction false} AllRequests(total: int, dones: nat)
    ensures forall k :: 0 <= k < |AddThenDone(total, dones)| ==> AddThenDone(total, dones)[k].Request?
  {
    if dones > 0 {
      AllRequests(total, dones - 1);
    }
  }

  /** There is at most one first release, and there is one as soon as any event
      releases: the context's end, the stop, or a total that is not positive. */
  lemma {:induction false} ReleaseHappens(events: seq<Event>, k: nat) returns (first: nat)
    requires k < |events| && Releases(events, k)
    ensures FirstRelease(events, first) && first <= k
    ensures forall other :: FirstRelease(events, other) ==> other == first
  {
    if ReleasedBefore(events, k) {
      var j :| 0 <= j < k && Releases(events, j);
      first := ReleaseHappens(events, j);
    } else {
      first := k;
    }
  }
}
