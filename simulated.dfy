/**
 * The simulated change source: a stack of pre-seeded git events.
 * `insert` pushes onto the end of the event list and `listen` pops from the
 * end, so events come back last-in-first-out, and once the stack is empty
 * every `listen` reports no event.
 */
module Simulated {
  import opened Wrappers

  /** What one `listen` reports, and the events that remain after it. */
  datatype Step<E> = Step(event: Option<E>, rest: seq<E>)

  /**
   * `Vec::pop` on the event list: the last event, and the list without it.
   * Popping is the inverse of pushing, and an empty list stays empty.
   */
  function Pop<E>(events: seq<E>): (r: Step<E>)
    ensures r.event.None? <==> events == []
    ensures r.event.None? ==> r.rest == events
    ensures r.event.Some? ==> r.rest + [r.event.value] == events
  {
    if events == [] then Step(None, [])
    else Step(Some(events[|events| - 1]), events[..|events| - 1])
  }

  /** The reports of `k` successive `listen` calls on the event list `events`. */
  function Drain<E>(events: seq<E>, k: nat): (r: seq<Option<E>>)
    ensures |r| == k
  {
    if k == 0 then []
    else
      var step := Pop(events);
      [step.event] + Drain(step.rest, k - 1)
  }

  /** A drained provider reports no event, however often it is asked. */
  lemma {:induction false} DrainEmpty<E>(k: nat)
    ensures forall i :: 0 <= i < k ==> Drain<E>([], k)[i] == None
  {
    if k > 0 {
      DrainEmpty<E>(k - 1);
      assert Drain<E>([], k) == [None] + Drain<E>([], k - 1);
    }
  }

  /**
   * Drain order: `k` listens on a provider holding `events` (with `k` at least
   * `|events|`) report the events from the most recently inserted to the
   * earliest, then `None` every time after.
   */
  lemma {:induction false} DrainOrder<E>(events: seq<E>, k: nat)
    requires |events| <= k
    ensures forall i :: 0 <= i < |events| ==> Drain(events, k)[i] == Some(events[|events| - 1 - i])
    ensures forall i :: |events| <= i < k ==> Drain(events, k)[i] == None
  {
    if events == [] {
      DrainEmpty<E>(k);
    } else {
      var n := |events|;
      var rest := events[..n - 1];
      assert Pop(events) == Step(Some(events[n - 1]), rest);
      DrainOrder(rest, k - 1);
      var r := Drain(events, k);
      assert r == [Some(events[n - 1])] + Drain(rest, k - 1);
      forall i | 1 <= i < k
        ensures r[i] == Drain(rest, k - 1)[i - 1]
      {
      }
    }
  }

  /** `GitSimulated`: a git provider whose changes are seeded in memory. */
  class GitSimulated<E> {
    /** The pending events; the last one is reported first. */
    var events: seq<E>

    /** `GitSimulated::new`: a provider with no events. */
    constructor ()
      ensures events == []
    {
      events := [];
    }

    /** `GitSimulated::insert`: push `value` onto the end of the event list. */
    method Insert(value: E)
      modifies this
      ensures events == old(events) + [value]
    {
      events := events + [value];
    }

    /**
     * `listen`: never fails; reports and removes the most recently inserted
     * remaining event, or reports `None` and changes nothing when empty.
     */
    method Listen() returns (r: Result<Option<E>>)
      modifies this
      ensures r.Ok?
      ensures Step(r.value, events) == Pop(old(events))
    {
      if |events| == 0 {
        r := Ok(None);
      } else {
        var last := events[|events| - 1];
        events := events[..|events| - 1];
        r := Ok(Some(last));
      }
    }
  }

  /**
   * A provider seeded with `first` and then `second` reports `second`, then
   * `first`, then nothing.
   */
  method ListenAfterTwoInserts<E>(first: E, second: E)
    returns (a: Result<Option<E>>, b: Result<Option<E>>, c: Result<Option<E>>)
    ensures a == Ok(Some(second)) && b == Ok(Some(first)) && c == Ok(None)
  {
    var provider := new GitSimulated<E>();
    provider.Insert(first);
    provider.Insert(second);
    a := provider.Listen();
    b := provider.Listen();
    c := provider.Listen();
  }
}
