/**
 * The request throttle of `ljSession.RoundTrip` (main.go:926-962): every
 * request to the server waits until at least 250 ms have passed since the
 * time the session remembers. Clock readings are nanoseconds; the zero
 * `time.Time` of a fresh session is `None`.
 */
module Throttle {
  import opened Wrappers

  /** `minimalTimeBetweenRequests`, 250 ms in nanoseconds. */
  const MinimalTimeBetweenRequests: int := 250_000_000

  /** How long a request made at clock reading `now` sleeps before it is sent. */
  function Delay(last: Option<int>, now: int): (d: nat)
    ensures last.None? || now - last.value >= MinimalTimeBetweenRequests ==> d == 0
    ensures last.Some? && now - last.value < MinimalTimeBetweenRequests ==>
      now + d == last.value + MinimalTimeBetweenRequests
  {
    if last.None? then 0
    else
      var sinceLastRequest := now - last.value;
      if sinceLastRequest < MinimalTimeBetweenRequests then MinimalTimeBetweenRequests - sinceLastRequest else 0
  }

  /** The time a request made at `now` leaves: after the sleep. */
  function SendTime(last: Option<int>, now: int): (t: int)
    ensures t >= now
    ensures last.Some? ==> t >= last.value + MinimalTimeBetweenRequests
    ensures t == now || (last.Some? && t == last.value + MinimalTimeBetweenRequests)
  {
    now + Delay(last, now)
  }

  /** The HTTP session, reduced to the timestamp the throttle keeps. */
  class Session {
    var lastRequestTime: Option<int>

    constructor()
      ensures lastRequestTime.None?
    {
      lastRequestTime := None;
    }

    /**
     * `RoundTrip` as written: it sleeps as needed and returns the send
     * time, but remembers the clock reading taken before the sleep.
     */
    method RoundTrip(now: int) returns (sent: int)
      modifies this
      ensures sent == SendTime(old(lastRequestTime), now)
      ensures lastRequestTime == Some(now)
    {
      var newRequestTime := now;
      var sleep := 0;
      if lastRequestTime.Some? {
        var sinceLastRequest := newRequestTime - lastRequestTime.value;
        if sinceLastRequest < MinimalTimeBetweenRequests {
          sleep := MinimalTimeBetweenRequests - sinceLastRequest;
        }
      }
      lastRequestTime := Some(newRequestTime);
      sent := now + sleep;
    }

    /** `RoundTrip` remembering the time the request actually left. */
    method RoundTripCorrected(now: int) returns (sent: int)
      modifies this
      ensures sent == SendTime(old(lastRequestTime), now)
      ensures lastRequestTime == Some(sent)
    {
      var sleep := 0;
      if lastRequestTime.Some? {
        var sinceLastRequest := now - lastRequestTime.value;
        if sinceLastRequest < MinimalTimeBetweenRequests {
          sleep := MinimalTimeBetweenRequests - sinceLastRequest;
        }
      }
      sent := now + sleep;
      lastRequestTime := Some(sent);
    }
  }

  /** The send times of requests made at the clock readings `calls`, through `RoundTrip` as written. */
  function SendsAsWritten(last: Option<int>, calls: seq<int>): (sends: seq<int>)
    ensures |sends| == |calls|
    decreases |calls|
  {
    if calls == [] then [] else [SendTime(last, calls[0])] + SendsAsWritten(Some(calls[0]), calls[1..])
  }

  /** The send times through the corrected `RoundTrip`. */
  function SendsCorrected(last: Option<int>, calls: seq<int>): (sends: seq<int>)
    ensures |sends| == |calls|
    decreases |calls|
  {
    if calls == [] then [] else
      var sent := SendTime(last, calls[0]);
      [sent] + SendsCorrected(Some(sent), calls[1..])
  }

  /** Requests leave at least `MinimalTimeBetweenRequests` apart. */
  predicate WellSpaced(sends: seq<int>) {
    forall i :: 0 < i < |sends| ==> sends[i] >= sends[i - 1] + MinimalTimeBetweenRequests
  }

  /**
   * One request at a time: each request is made no earlier than the
   * previous one left, as on the single control path of the archiver.
   */
  predicate Sequential(calls: seq<int>, sends: seq<int>)
    requires |calls| == |sends|
  {
    forall i :: 0 < i < |calls| ==> calls[i] >= sends[i - 1]
  }

  /** As written, the spacing holds only from the previous request's call time. */
  lemma {:induction false} AsWrittenSpacesFromCalls(last: Option<int>, calls: seq<int>)
    ensures var sends := SendsAsWritten(last, calls);
      forall i :: 0 < i < |calls| ==> sends[i] >= calls[i - 1] + MinimalTimeBetweenRequests
    decreases |calls|
  {
    if calls != [] {
      var sends := SendsAsWritten(last, calls);
      AsWrittenSpacesFromCalls(Some(calls[0]), calls[1..]);
      forall i | 0 < i < |calls|
        ensures sends[i] >= calls[i - 1] + MinimalTimeBetweenRequests
      {
        assert sends[i] == SendsAsWritten(Some(calls[0]), calls[1..])[i - 1];
        if i == 1 {
          assert sends[1] == SendTime(Some(calls[0]), calls[1]);
        } else {
          assert calls[i - 1] == calls[1..][i - 2];
        }
      }
    }
  }

  /** The corrected throttle keeps every pair of consecutive requests apart, whenever they are made. */
  lemma {:induction false} CorrectedIsWellSpaced(last: Option<int>, calls: seq<int>)
    ensures WellSpaced(SendsCorrected(last, calls))
    ensures last.Some? && calls != [] ==> SendsCorrected(last, calls)[0] >= last.value + MinimalTimeBetweenRequests
    decreases |calls|
  {
    if calls != [] {
      var sent := SendTime(last, calls[0]);
      var sends := SendsCorrected(last, calls);
      var rest := SendsCorrected(Some(sent), calls[1..]);
      CorrectedIsWellSpaced(Some(sent), calls[1..]);
      forall i | 0 < i < |sends|
        ensures sends[i] >= sends[i - 1] + MinimalTimeBetweenRequests
      {
        assert sends[i] == rest[i - 1];
        if i > 1 {
          assert sends[i - 1] == rest[i - 2];
        }
      }
    }
  }

  /**
   * The corrected throttle waits no longer than needed: each request
   * leaves when it is made or exactly the minimal spacing after the
   * previous one.
   */
  lemma {:induction false} CorrectedWaitsNoLonger(last: Option<int>, calls: seq<int>)
    ensures var sends := SendsCorrected(last, calls);
      forall i :: 0 < i < |calls| ==>
        sends[i] >= calls[i] && (sends[i] == calls[i] || sends[i] == sends[i - 1] + MinimalTimeBetweenRequests)
    decreases |calls|
  {
    if calls != [] {
      var sent := SendTime(last, calls[0]);
      var sends := SendsCorrected(last, calls);
      var rest := SendsCorrected(Some(sent), calls[1..]);
      CorrectedWaitsNoLonger(Some(sent), calls[1..]);
      forall i | 0 < i < |calls|
        ensures sends[i] >= calls[i] && (sends[i] == calls[i] || sends[i] == sends[i - 1] + MinimalTimeBetweenRequests)
      {
        assert sends[i] == rest[i - 1] && calls[i] == calls[1..][i - 1];
        if i == 1 {
          assert rest[0] == SendTime(Some(sent), calls[1]);
        } else {
          assert sends[i - 1] == rest[i - 2];
        }
      }
    }
  }

  /**
   * Requests made one at a time at 0 ms, 100 ms and 260 ms leave at 0,
   * 250 and 350 ms through `RoundTrip` as written: the last two are only
   * 100 ms apart. The corrected throttle sends them at 0, 250 and 500 ms.
   */
  lemma AsWrittenSpacingCounterexample()
    ensures var calls := [0, 100_000_000, 260_000_000];
      && SendsAsWritten(None, calls) == [0, 250_000_000, 350_000_000]
      && Sequential(calls, SendsAsWritten(None, calls))
      && !WellSpaced(SendsAsWritten(None, calls))
      && SendsCorrected(None, calls) == [0, 250_000_000, 500_000_000]
  {
    var calls := [0, 100_000_000, 260_000_000];
    assert calls[1..] == [100_000_000, 260_000_000];
    assert calls[1..][1..] == [260_000_000];
    assert calls[1..][1..][1..] == [];
    var sends := SendsAsWritten(None, calls);
    assert sends[2] < sends[1] + MinimalTimeBetweenRequests;
  }
}
