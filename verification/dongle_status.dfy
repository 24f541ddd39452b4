/** `DongleStatus.get`: a cached health reading of the signature stick. The
    stick is consulted only when more than the check interval has passed since
    the last consultation; otherwise the cached reading is returned. Time is
    an integer number of seconds and the stick's answer is a parameter. */
module DongleStatus {

  const CHECK_INTERVAL: int := 60

  /** The cache: when the stick was last consulted, and what it said
      (1 up, 0 down). */
  datatype DongleState = DongleState(lastChecked: int, status: int)

  /** The class attributes before the first reading. */
  const INITIAL: DongleState := DongleState(0, 1)

  /** A reading is 0 or 1. */
  predicate ValidState(s: DongleState) {
    s.status == 0 || s.status == 1
  }

  /** One call: the cache afterwards, the reading returned, and whether the
      stick was consulted. */
  datatype Reading = Reading(state: DongleState, status: int, consulted: bool)

  /** `get` at time `now`; `stickUp` is what the stick would answer. */
  function Get(s: DongleState, now: int, stickUp: bool): (r: Reading)
    ensures r.consulted <==> now - s.lastChecked > CHECK_INTERVAL
    ensures r.consulted ==> r.state.lastChecked == now && (r.status == 1 <==> stickUp)
    ensures !r.consulted ==> r.state == s
    ensures r.status == r.state.status
    ensures ValidState(s) ==> ValidState(r.state)
    ensures r.consulted ==> ValidState(r.state)
  {
    if now - s.lastChecked > CHECK_INTERVAL then
      var status := if stickUp then 1 else 0;
      Reading(DongleState(now, status), status, true)
    else
      Reading(s, s.status, false)
  }

  /** The first reading, at any time more than a minute after the epoch,
      consults the stick; before that it reports the stick as up. */
  lemma FirstReading(now: int, stickUp: bool)
    ensures Get(INITIAL, now, stickUp).consulted <==> now > 60
    ensures !Get(INITIAL, now, stickUp).consulted ==> Get(INITIAL, now, stickUp).status == 1
  {
  }

  /** After a consultation at `t`, every call up to and including `t + 60`
      returns the same reading without consulting the stick, whatever the
      stick would say. */
  lemma CacheWindow(s: DongleState, t: int, up: bool, later: int, upLater: bool)
    requires Get(s, t, up).consulted
    requires later <= t + CHECK_INTERVAL
    ensures var second := Get(Get(s, t, up).state, later, upLater);
      !second.consulted && second.status == Get(s, t, up).status
  {
  }

  /** A sequence of calls, each with its time and the stick's answer: the
      final cache and the times at which the stick was consulted. */
  function Run(s: DongleState, calls: seq<(int, bool)>): (r: (DongleState, seq<int>))
    ensures ValidState(s) ==> ValidState(r.0)
    decreases |calls|
  {
    if |calls| == 0 then (s, [])
    else
      var first := Get(s, calls[0].0, calls[0].1);
      var rest := Run(first.state, calls[1..]);
      (rest.0, (if first.consulted then [calls[0].0] else []) + rest.1)
  }

  /** Each consultation time lies more than the interval after the previous
      one, the first more than the interval after `last`. */
  predicate Spaced(last: int, ts: seq<int>)
    decreases |ts|
  {
    |ts| == 0 || (ts[0] - last > CHECK_INTERVAL && Spaced(ts[0], ts[1..]))
  }

  /** The stick is never consulted twice within one interval, whatever the
      call times and answers: consecutive consultations are more than 60
      seconds apart, and the cache remembers the last one. */
  lemma {:induction false} RunSpaced(s: DongleState, calls: seq<(int, bool)>)
    ensures Spaced(s.lastChecked, Run(s, calls).1)
    ensures |Run(s, calls).1| > 0 ==> Run(s, calls).0.lastChecked == Run(s, calls).1[|Run(s, calls).1| - 1]
    ensures |Run(s, calls).1| == 0 ==> Run(s, calls).0 == s
    decreases |calls|
  {
    if |calls| > 0 {
      var first := Get(s, calls[0].0, calls[0].1);
      RunSpaced(first.state, calls[1..]);
      var rest := Run(first.state, calls[1..]);
      if first.consulted {
        assert Run(s, calls).1 == [calls[0].0] + rest.1;
        assert Run(s, calls).1[1..] == rest.1;
      } else {
        assert Run(s, calls).1 == rest.1;
      }
    }
  }
}
