/**
 The guest-token refresh cycle of the embedded SDK: `embedDashboard` (ax-bi-embedded-sdk/src/index.ts),
 `getGuestTokenRefreshTiming` (guestTokenRefresh.ts) and `withTimeout` (withTimeout.ts).

 Time is in whole milliseconds. The host's event loop decides which enabled event happens next; an expiry is the
 `exp` claim of section 4.1.4 of RFC 7519, already turned into a date.
 */
module GuestToken {
  import opened Optional

  const REFRESH_TIMING_BUFFER_MS := 5000
  const MIN_REFRESH_WAIT_MS := 10000
  const DEFAULT_TOKEN_EXP_MS := 300000
  const DEFAULT_TOKEN_REFRESH_RETRY_MS := 10000

  /** Host timers keep their delay in 32 signed bits. */
  const DELAY_LIMIT := 0x8000_0000

  /** A token whose claims cannot be read makes the timing throw; one without a valid date has no expiry. */
  datatype Token = Undecodable | Claims(exp: Option<int>)

  /** `getGuestTokenRefreshTiming`: never shorter than the buffer, and strictly before a valid expiry exactly when
      more than the buffer remained. */
  function RefreshTiming(exp: Option<int>, now: int): (wait: int)
    ensures wait >= REFRESH_TIMING_BUFFER_MS
    ensures exp.Some? ==> (now + wait < exp.value <==> exp.value - now > REFRESH_TIMING_BUFFER_MS)
  {
    var ttl := match exp
      case Some(e) => if e - now > MIN_REFRESH_WAIT_MS then e - now else MIN_REFRESH_WAIT_MS
      case None => DEFAULT_TOKEN_EXP_MS;
    ttl - REFRESH_TIMING_BUFFER_MS
  }

  /** The earliest moment a timer may fire: a delay the host cannot hold may not be waited for at all. (Browsers wait for
      the delay modulo 2^32, and not at all if that is negative as a signed number.) */
  function EarliestFiring(now: int, delay: int): int {
    if delay < DELAY_LIMIT then now + delay else now
  }

  /** A refresh may fire less than the buffer after it was armed exactly if the expiry is too far ahead for a timer. */
  lemma DelayIsOverlongIff(exp: Option<int>, now: int)
    ensures EarliestFiring(now, RefreshTiming(exp, now)) < now + REFRESH_TIMING_BUFFER_MS
            <==> exp.Some? && exp.value - now >= DELAY_LIMIT + REFRESH_TIMING_BUFFER_MS
    ensures RefreshTiming(exp, now) >= DELAY_LIMIT
            <==> exp.Some? && exp.value - now >= DELAY_LIMIT + REFRESH_TIMING_BUFFER_MS
  {
  }

  /** When the refresh after a token of this expiry is due, in numbers: five seconds before an expiry more than ten seconds
      ahead, five seconds from now for a nearer one, and five minutes less five seconds from now without one. A due time
      too far ahead for a timer may be missed. */
  predicate RefreshDue(exp: Option<int>, now: int, due: int) {
    match exp
    case None => due == now + 295000
    case Some(e) =>
      if e - now <= 10000 then due == now + 5000
      else if e - now - 5000 < 0x8000_0000 then due == e - 5000
      else due == now
  }

  lemma RefreshIsDue(exp: Option<int>, now: int)
    ensures RefreshDue(exp, now, EarliestFiring(now, RefreshTiming(exp, now)))
  {
  }

  /** The retry after a failure is due in ten seconds. */
  predicate RetryDue(now: int, due: int) { due == now + 10000 }

  datatype Timer = Refresh(due: int) | Timeout(due: int, fetch: nat)

  datatype Outcome = Resolved(token: Token) | Rejected | TimedOut

  /** One awaited call of `fetchGuestTokenWithTimeout`: its timeout timer, and its outcome once the race is settled
      but the code after the `await` has not run yet. */
  datatype Fetch = Fetch(timer: Option<nat>, outcome: Option<Outcome>)

  /** Every token sent to the iframe and the fetch that brought it; fetch 0 is the one of the set-up. */
  datatype Emission = Emission(fetch: nat, token: Token)

  datatype Event =
    | Elapse(ms: nat)
    | RefreshFires(timer: nat, hostThrows: bool)
    | TimeoutFires(timer: nat)
    | HostSettles(fetch: nat, outcome: Outcome)
    | Resume(fetch: nat)
    | Unmount

  /** Fetches that are pairwise the buffer apart: the n-th starts at least n buffers after the first. */
  lemma {:induction false} StartsAreSpaced(starts: seq<int>, n: nat)
    requires n < |starts|
    requires forall i :: 0 < i < |starts| ==> starts[i] >= starts[i - 1] + REFRESH_TIMING_BUFFER_MS
    ensures starts[n] >= starts[0] + REFRESH_TIMING_BUFFER_MS * n
  {
    if n > 0 {
      StartsAreSpaced(starts, n - 1);
    }
  }

  /** The refresh part of one embedded dashboard, together with the timers and promises it leaves with the host. */
  class EmbeddedDashboard {
    const timeoutMs: int
    var now: int
    var refreshTimer: Option<nat>
    var unmounted: bool
    var timers: map<nat, Timer>
    var flights: map<nat, Fetch>
    var nextTimer: nat
    var nextFetch: nat
    var emitted: seq<Emission>
    // When each refresh fetch started.
    ghost var starts: seq<int>
    // The fetches whose timeout won the race.
    ghost var late: set<nat>
    // Some refresh was armed with a delay the host cannot hold.
    ghost var overlong: bool

    function RefreshTimers(): set<nat>
      reads this
    {
      set t | t in timers && timers[t].Refresh?
    }

    /** The timer the closure remembers, if any, has fired: clearing it has no effect. */
    ghost predicate Stale()
      reads this
    {
      refreshTimer.Some? ==> refreshTimer.value !in timers && refreshTimer.value < nextTimer
    }

    /** Mounted: one armed refresh timer, the one the closure remembers, or one fetch in flight, never both. */
    ghost predicate ExactlyOne()
      reads this
    {
      || (flights == map[] && refreshTimer.Some? && RefreshTimers() == {refreshTimer.value})
      || (RefreshTimers() == {} && Stale() && exists f :: flights.Keys == {f})
    }

    /** Unmounted: no armed refresh timer, and at most the fetch that was under way. */
    ghost predicate AtRest()
      reads this
    {
      refreshTimer == None && RefreshTimers() == {} && (flights == map[] || exists f :: flights.Keys == {f})
    }

    /** Consecutive refresh fetches, the next one included, are at least the buffer apart. */
    ghost predicate Spaced()
      reads this
    {
      && (forall i :: 0 <= i < |starts| ==> starts[i] <= now)
      && (!overlong ==>
            && (forall i :: 0 < i < |starts| ==> starts[i] >= starts[i - 1] + REFRESH_TIMING_BUFFER_MS)
            && (starts != [] ==> forall t <- RefreshTimers() ::
                  timers[t].due >= starts[|starts| - 1] + REFRESH_TIMING_BUFFER_MS))
    }

    /** Emitted tokens come from distinct fetches, in order, none of them timed out or still in flight. */
    ghost predicate NothingLateEmitted()
      reads this
    {
      && (forall i :: 0 <= i < |emitted| ==>
            emitted[i].fetch < nextFetch && emitted[i].fetch !in late && forall f <- flights :: emitted[i].fetch < f)
      && (forall i, j :: 0 <= i < j < |emitted| ==> emitted[i].fetch < emitted[j].fetch)
      && (forall f <- late :: f < nextFetch && (f in flights ==> flights[f].outcome == Some(TimedOut)))
    }

    /** With the timeout enabled, a fetch the host leaves unsettled has its timeout armed, so no cycle can hang. */
    ghost predicate Timed()
      reads this
    {
      forall f <- flights ::
        && f < nextFetch
        && (flights[f].timer.Some? ==> flights[f].timer.value !in RefreshTimers())
        && (flights[f].outcome.None? && timeoutMs > 0 ==>
              flights[f].timer.Some? && flights[f].timer.value in timers && timers[flights[f].timer.value].fetch == f)
    }

    /** Between a timer or a fetch and what `refreshGuestToken` does next. */
    ghost predicate Idle()
      reads this
    {
      && flights == map[] && RefreshTimers() == {} && Stale()
      && (forall t <- timers :: t < nextTimer) && Spaced() && NothingLateEmitted()
    }

    ghost predicate Valid()
      reads this
    {
      && (forall t <- timers :: t < nextTimer)
      && (forall f <- flights :: f < nextFetch)
      && (forall f <- flights :: flights[f].timer.Some? ==> flights[f].timer.value < nextTimer)
      && (if unmounted then AtRest() else ExactlyOne())
      && Spaced() && NothingLateEmitted() && Timed()
    }

    /** What is left of `embedDashboard` once the first token and the iframe are there. */
    constructor (timeoutMs: int, now: int, exp: Option<int>)
      ensures Valid() && !unmounted && this.timeoutMs == timeoutMs && this.now == now
      ensures emitted == [Emission(0, Claims(exp))] && starts == [] && late == {} && flights == map[]
      ensures timers == map[0 := Refresh(EarliestFiring(now, RefreshTiming(exp, now)))]
      ensures overlong <==> RefreshTiming(exp, now) >= DELAY_LIMIT
    {
      this.timeoutMs, this.now, unmounted := timeoutMs, now, false;
      emitted, starts, late := [Emission(0, Claims(exp))], [], {};
      flights, nextFetch := map[], 1;
      timers, nextTimer := map[0 := Refresh(EarliestFiring(now, RefreshTiming(exp, now)))], 1;
      refreshTimer, overlong := Some(0), RefreshTiming(exp, now) >= DELAY_LIMIT;
    }

    /** The end of `embedDashboard`: a first token whose claims cannot be read is emitted, but no dashboard is returned
        and nothing is armed. */
    static method Embed(timeoutMs: int, now: int, token: Token) returns (d: Option<EmbeddedDashboard>, sent: seq<Emission>)
      ensures sent == [Emission(0, token)]
      ensures d.None? <==> token.Undecodable?
      ensures d.Some? ==>
                && fresh(d.value) && d.value.Valid() && !d.value.unmounted && d.value.emitted == sent
                && d.value.timers == map[0 := Refresh(EarliestFiring(now, RefreshTiming(token.exp, now)))]
                && RefreshDue(token.exp, now, d.value.timers[0].due)
    {
      sent := [Emission(0, token)];
      if token.Undecodable? {
        return None, sent;
      }
      RefreshIsDue(token.exp, now);
      var dashboard := new EmbeddedDashboard(timeoutMs, now, token.exp);
      d := Some(dashboard);
    }

    /** `refreshTimer = setTimeout(refreshGuestToken, delay)`, where nothing else is pending. */
    method ArmRefresh(delay: int)
      requires delay >= REFRESH_TIMING_BUFFER_MS && !unmounted && Idle()
      modifies this`timers, this`nextTimer, this`refreshTimer, this`overlong
      ensures Valid()
      ensures timers == old(timers)[old(nextTimer) := Refresh(EarliestFiring(now, delay))]
      ensures overlong == (old(overlong) || delay >= DELAY_LIMIT)
    {
      var t := nextTimer;
      timers := timers[t := Refresh(EarliestFiring(now, delay))];
      refreshTimer, nextTimer := Some(t), t + 1;
      overlong := overlong || delay >= DELAY_LIMIT;
      assert RefreshTimers() == {t};
    }

    /** `fetchGuestTokenWithTimeout` with a host callback that returned a promise: `withTimeout` arms its timer unless
        the timeout is disabled. */
    method StartFetch()
      requires !unmounted && Idle()
      modifies this`timers, this`nextTimer, this`flights, this`nextFetch
      ensures Valid()
      ensures flights == map[old(nextFetch) := Fetch(if timeoutMs > 0 then Some(old(nextTimer)) else None, None)]
      ensures timers == if timeoutMs > 0
                        then old(timers)[old(nextTimer) := Timeout(EarliestFiring(now, timeoutMs), old(nextFetch))]
                        else old(timers)
    {
      var f, timer := nextFetch, None;
      if timeoutMs > 0 {
        timers := timers[nextTimer := Timeout(EarliestFiring(now, timeoutMs), f)];
        timer, nextTimer := Some(nextTimer), nextTimer + 1;
      }
      flights, nextFetch := map[f := Fetch(timer, None)], f + 1;
      assert flights.Keys == {f};
      assert RefreshTimers() == {};
    }

    /** The refresh timer is taken off the host's list, and a fetch is about to start. */
    method TakeRefresh(t: nat)
      requires Valid() && t in timers && timers[t].Refresh? && timers[t].due <= now
      modifies this`timers, this`starts
      ensures Idle() && !unmounted && flights == map[]
      ensures timers == old(timers) - {t} && starts == old(starts) + [now]
    {
      assert t in RefreshTimers();
      assert RefreshTimers() == {t};
      timers := timers - {t};
      assert RefreshTimers() == {};
      starts := starts + [now];
    }

    /** The refresh timer fires, and `refreshGuestToken` runs up to its `await`. A callback that throws at once is
        caught like a rejection. */
    method RefreshFires(t: nat, hostThrows: bool)
      requires Valid() && t in timers && timers[t].Refresh? && timers[t].due <= now
      modifies this
      ensures Valid() && !unmounted && !old(unmounted) && now == old(now) && emitted == old(emitted) && late == old(late)
      ensures starts == old(starts) + [now]
      ensures overlong == old(overlong)
      ensures hostThrows ==>
                && flights == map[]
                && timers == (old(timers) - {t})[old(nextTimer) := Refresh(now + DEFAULT_TOKEN_REFRESH_RETRY_MS)]
                && RetryDue(now, timers[old(nextTimer)].due)
      ensures !hostThrows ==>
                && flights.Keys == {old(nextFetch)}
                && timers == if timeoutMs > 0
                             then (old(timers) - {t})[old(nextTimer) := Timeout(EarliestFiring(now, timeoutMs), old(nextFetch))]
                             else old(timers) - {t}
    {
      TakeRefresh(t);
      if hostThrows {
        ArmRefresh(DEFAULT_TOKEN_REFRESH_RETRY_MS);
      } else {
        StartFetch();
      }
    }

    /** The race of a fetch settles; once it has, or the fetch is gone, nothing happens. */
    method Settle(f: nat, outcome: Outcome)
      requires Valid()
      modifies this`flights, this`late
      ensures Valid()
      ensures var open := f in old(flights) && old(flights)[f].outcome.None?;
              && flights == (if open then old(flights)[f := old(flights)[f].(outcome := Some(outcome))] else old(flights))
              && late == (if open && outcome.TimedOut? then old(late) + {f} else old(late))
    {
      if f in flights && flights[f].outcome.None? {
        flights := flights[f := flights[f].(outcome := Some(outcome))];
        late := if outcome.TimedOut? then late + {f} else late;
        assert flights.Keys == old(flights.Keys);
      }
    }

    /** The timeout of a fetch fires: it settles the race unless the host's answer did. */
    method TimeoutFires(t: nat)
      requires Valid() && t in timers && timers[t].Timeout? && timers[t].due <= now
      modifies this`timers, this`flights, this`late
      ensures Valid() && timers == old(timers) - {t}
      ensures var f := old(timers)[t].fetch;
              if f in old(flights) && old(flights)[f].outcome.None? then
                && late == old(late) + {f}
                && flights == old(flights)[f := old(flights)[f].(outcome := Some(TimedOut))]
              else flights == old(flights) && late == old(late)
    {
      Settle(timers[t].fetch, TimedOut);
      timers := timers - {t};
      assert RefreshTimers() == old(RefreshTimers());
    }

    /** The host's promise for a fetch settles. */
    method HostSettles(f: nat, outcome: Outcome)
      requires Valid() && outcome != TimedOut
      modifies this`flights, this`late
      ensures Valid() && late == old(late)
      ensures flights == if f in old(flights) && old(flights)[f].outcome.None?
                         then old(flights)[f := old(flights)[f].(outcome := Some(outcome))] else old(flights)
    {
      Settle(f, outcome);
    }

    /** `finally`: the timeout timer of a settled fetch is cleared, and the `await` returns. */
    method Land(f: nat) returns (outcome: Outcome)
      requires Valid() && f in flights && flights[f].outcome.Some?
      modifies this`timers, this`flights
      ensures Idle() && outcome == old(flights)[f].outcome.value
      ensures outcome.Resolved? ==> f < nextFetch && f !in late && forall e <- emitted :: e.fetch < f
      ensures timers == if old(flights)[f].timer.Some? then old(timers) - {old(flights)[f].timer.value} else old(timers)
    {
      var fetch := flights[f];
      outcome := fetch.outcome.value;
      assert flights.Keys == {f};
      assert RefreshTimers() == {};
      if fetch.timer.Some? {
        timers := timers - {fetch.timer.value};
      }
      assert RefreshTimers() == {};
      flights := flights - {f};
    }

    method Emit(f: nat, token: Token)
      requires Idle() && f < nextFetch && f !in late && forall e <- emitted :: e.fetch < f
      modifies this`emitted
      ensures Idle() && emitted == old(emitted) + [Emission(f, token)]
    {
      emitted := emitted + [Emission(f, token)];
    }

    /** While mounted, an answer arms the next refresh; a token is emitted first. */
    method TakeAnswer(f: nat, outcome: Outcome)
      requires Idle() && !unmounted
      requires outcome.Resolved? ==> f < nextFetch && f !in late && forall e <- emitted :: e.fetch < f
      modifies this`emitted, this`timers, this`nextTimer, this`refreshTimer, this`overlong
      ensures Valid() && emitted == old(emitted) + (if outcome.Resolved? then [Emission(f, outcome.token)] else [])
      ensures var delay := if outcome.Resolved? && outcome.token.Claims? then RefreshTiming(outcome.token.exp, now)
                           else DEFAULT_TOKEN_REFRESH_RETRY_MS;
              && timers == old(timers)[old(nextTimer) := Refresh(EarliestFiring(now, delay))]
              && overlong == (old(overlong) || delay >= DELAY_LIMIT)
      ensures var due := timers[old(nextTimer)].due;
              if outcome.Resolved? && outcome.token.Claims? then RefreshDue(outcome.token.exp, now, due)
              else RetryDue(now, due)
    {
      match outcome
      case Resolved(token) =>
        Emit(f, token);
        if token.Claims? { RefreshIsDue(token.exp, now); }
        ArmRefresh(if token.Claims? then RefreshTiming(token.exp, now) else DEFAULT_TOKEN_REFRESH_RETRY_MS);
      case _ =>
        ArmRefresh(DEFAULT_TOKEN_REFRESH_RETRY_MS);
    }

    /** The code after the `await` runs. A token is emitted only while mounted; one whose claims cannot be read is
        emitted too, and its refresh is then retried like a failure. */
    method Resume(f: nat)
      requires Valid() && f in flights && flights[f].outcome.Some?
      modifies this
      ensures Valid() && now == old(now) && unmounted == old(unmounted) && starts == old(starts) && late == old(late)
      ensures flights == map[] && nextFetch == old(nextFetch)
      ensures var outcome := old(flights)[f].outcome.value;
              var timer := old(flights)[f].timer;
              var cleared := if timer.Some? then old(timers) - {timer.value} else old(timers);
              if unmounted then emitted == old(emitted) && timers == cleared && overlong == old(overlong)
              else
                var delay := if outcome.Resolved? && outcome.token.Claims? then RefreshTiming(outcome.token.exp, now)
                             else DEFAULT_TOKEN_REFRESH_RETRY_MS;
                && emitted == old(emitted) + (if outcome.Resolved? then [Emission(f, outcome.token)] else [])
                && timers == cleared[old(nextTimer) := Refresh(EarliestFiring(now, delay))]
                && (if outcome.Resolved? && outcome.token.Claims?
                    then RefreshDue(outcome.token.exp, now, timers[old(nextTimer)].due)
                    else RetryDue(now, timers[old(nextTimer)].due))
                && overlong == (old(overlong) || delay >= DELAY_LIMIT)
    {
      var outcome := Land(f);
      if !unmounted {
        TakeAnswer(f, outcome);
      }
    }

    method Unmount()
      requires Valid()
      modifies this`unmounted, this`refreshTimer, this`timers
      ensures Valid() && unmounted && timers == old(timers) - old(RefreshTimers())
    {
      unmounted := true;
      if refreshTimer.Some? {
        timers := timers - {refreshTimer.value};
        refreshTimer := None;
      }
      assert RefreshTimers() == {};
    }

    method Elapse(ms: nat)
      requires Valid()
      modifies this`now
      ensures Valid() && now == old(now) + ms
    {
      now := now + ms;
    }

    predicate Enabled(e: Event)
      reads this
    {
      match e
      case Elapse(_) => true
      case RefreshFires(t, _) => t in timers && timers[t].Refresh? && timers[t].due <= now
      case TimeoutFires(t) => t in timers && timers[t].Timeout? && timers[t].due <= now
      case HostSettles(_, outcome) => outcome != TimedOut
      case Resume(f) => f in flights && flights[f].outcome.Some?
      case Unmount => true
    }

    /** One event of the host's event loop. */
    method Step(e: Event)
      requires Valid() && Enabled(e)
      modifies this
      ensures Valid() && now >= old(now) && (old(unmounted) ==> unmounted) && (e.Unmount? ==> unmounted)
      ensures starts == old(starts) + (if e.RefreshFires? then [now] else [])
      ensures old(emitted) <= emitted && old(late) <= late && (old(overlong) ==> overlong)
      // Once unmounted no fetch starts, no timer of any kind is armed and no token is emitted.
      ensures old(unmounted) ==>
                && starts == old(starts) && emitted == old(emitted)
                && timers.Keys <= old(timers.Keys) && flights.Keys <= old(flights.Keys)
      // A token is emitted only when a mounted dashboard resumes a fetch whose answer won the race.
      ensures emitted != old(emitted) ==>
                && e.Resume? && !unmounted && old(flights)[e.fetch].outcome.value.Resolved?
                && emitted == old(emitted) + [Emission(e.fetch, old(flights)[e.fetch].outcome.value.token)]
    {
      match e
      case Elapse(ms) => Elapse(ms);
      case RefreshFires(t, hostThrows) => RefreshFires(t, hostThrows);
      case TimeoutFires(t) => TimeoutFires(t);
      case HostSettles(f, outcome) => HostSettles(f, outcome);
      case Resume(f) => Resume(f);
      case Unmount => Unmount();
    }

    /** What `overlong` keeps out of `Run`: on a host that does not wait for such a delay, a token that expires too far
        ahead for a timer makes the dashboard fetch again in the very same millisecond. */
    method RefetchesAtOnce(f: nat, exp: int)
      requires Valid() && !unmounted && f in flights && flights[f].outcome.None?
      requires exp - now >= DELAY_LIMIT + REFRESH_TIMING_BUFFER_MS
      modifies this
      ensures Valid() && !unmounted && now == old(now) && overlong
      ensures starts == old(starts) + [now] && emitted == old(emitted) + [Emission(f, Claims(Some(exp)))]
      ensures f !in flights && flights != map[]
    {
      var next := nextTimer;
      HostSettles(f, Resolved(Claims(Some(exp))));
      Resume(f);
      DelayIsOverlongIff(Some(exp), now);
      RefreshFires(next, false);
    }

    /** Any sequence of events; one that is not enabled when its turn comes does not happen. */
    method Run(events: seq<Event>)
      requires Valid()
      modifies this
      ensures Valid() && old(starts) <= starts && old(emitted) <= emitted && old(late) <= late
      ensures old(unmounted) ==>
                unmounted && starts == old(starts) && emitted == old(emitted) && timers.Keys <= old(timers.Keys)
      ensures (exists e <- events :: e.Unmount?) ==> unmounted
      ensures !overlong ==>
                forall n :: 0 <= n < |starts| ==> starts[n] >= starts[0] + REFRESH_TIMING_BUFFER_MS * n
    {
      for i := 0 to |events|
        invariant Valid() && old(starts) <= starts && old(emitted) <= emitted && old(late) <= late
        invariant old(unmounted) ==>
                    unmounted && starts == old(starts) && emitted == old(emitted) && timers.Keys <= old(timers.Keys)
        invariant (exists j :: 0 <= j < i && events[j].Unmount?) ==> unmounted
      {
        if Enabled(events[i]) {
          Step(events[i]);
        }
      }
      if !overlong {
        forall n | 0 <= n < |starts| ensures starts[n] >= starts[0] + REFRESH_TIMING_BUFFER_MS * n {
          StartsAreSpaced(starts, n);
        }
      }
    }
  }
}
