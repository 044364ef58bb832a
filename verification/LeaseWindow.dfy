/** The window in which a pod may spend a plan's share. Times are nanoseconds: the pod's clock is offset from the
    server's by a constant, the server's answer is cut to whole microseconds and was read at some unknown moment
    of the round trip. */
module LeaseWindow {

  const MICROSECOND := 1_000
  const MILLISECOND := 1_000_000

  /** What the server answers when its clock stands at `t`. */
  function Truncated(t: int): int {
    t - t % MICROSECOND
  }

  /** One reconcile round trip as it really went: the pod's clock at both ends and when the server read its own. */
  datatype Sample = Sample(localStart: int, localEnd: int, read: int, offset: int)
  {
    ghost predicate Real() {
      localStart <= read <= localEnd
    }

    /** The server's clock when the pod's shows `local`. */
    function ServerAt(local: int): int {
      local + offset
    }

    function ServerNow(): int {
      Truncated(ServerAt(read))
    }

    function RoundTrip(): int {
      localEnd - localStart
    }

    function Midpoint(): int {
      localStart + RoundTrip() / 2
    }

    function Uncertainty(guard: int): int {
      guard + RoundTrip() / 2
    }
  }

  /** The pod's window for a plan that is valid over [from, until) in server time. */
  datatype Window = Window(notBefore: int, notAfter: int, nextNotBefore: int)
  {
    predicate Covers(now: int) {
      notBefore <= now < notAfter
    }
  }

  function Opened(fromMs: int, untilMs: int, serverNow: int, localNow: int, guard: int): Window {
    Window(localNow + (fromMs * MILLISECOND - serverNow) + guard,
           localNow + (untilMs * MILLISECOND - serverNow) - guard,
           localNow + (untilMs * MILLISECOND - serverNow) + guard)
  }

  /** The window the coordinator's sample gives. */
  function Leased(s: Sample, fromMs: int, untilMs: int, guard: int): Window {
    Opened(fromMs, untilMs, s.ServerNow(), s.Midpoint(), s.Uncertainty(guard))
  }

  /** How far the midpoint can be from the server's answer, in either direction. */
  lemma MidpointIsClose(s: Sample)
    requires s.Real()
    ensures -(s.RoundTrip() / 2) - s.RoundTrip() % 2
         <= s.ServerAt(s.Midpoint()) - s.ServerNow()
         <= s.RoundTrip() / 2 + MICROSECOND - 1
  {
  }

  /** With any guard of a microsecond or more, a pod spends a plan only while the plan is valid on the server. */
  lemma SpendsInsideThePlan(s: Sample, fromMs: int, untilMs: int, guard: int, now: int)
    requires s.Real() && guard >= MICROSECOND - 1
    requires Leased(s, fromMs, untilMs, guard).Covers(now)
    ensures fromMs * MILLISECOND <= s.ServerAt(now) < untilMs * MILLISECOND
  {
    MidpointIsClose(s);
  }

  /** The window this sample gives does not open before the plan is valid on the server. */
  ghost predicate OpensInTime(s: Sample, fromMs: int, untilMs: int, guard: int) {
    s.ServerAt(Leased(s, fromMs, untilMs, guard).notBefore) >= fromMs * MILLISECOND
  }

  ghost predicate ClosesInTime(s: Sample, fromMs: int, untilMs: int, guard: int) {
    s.ServerAt(Leased(s, fromMs, untilMs, guard).notAfter) <= untilMs * MILLISECOND
  }

  /** The exact guard that opening safely needs: one nanosecond, for the half nanosecond an odd round trip loses. */
  lemma OpensInTimeIff(guard: int)
    ensures guard >= 1 <==>
      forall s: Sample, fromMs: int, untilMs: int :: s.Real() ==> OpensInTime(s, fromMs, untilMs, guard)
  {
    if guard >= 1 {
      forall s: Sample, fromMs: int, untilMs: int | s.Real() ensures OpensInTime(s, fromMs, untilMs, guard) {
        MidpointIsClose(s);
      }
    } else {
      assert Sample(0, 1, 1, -1).Real() && !OpensInTime(Sample(0, 1, 1, -1), 0, 1000, guard);
    }
  }

  /** The exact guard that closing safely needs: 999 nanoseconds, because the server's answer is cut to whole
      microseconds. */
  lemma ClosesInTimeIff(guard: int)
    ensures guard >= MICROSECOND - 1 <==>
      forall s: Sample, fromMs: int, untilMs: int :: s.Real() ==> ClosesInTime(s, fromMs, untilMs, guard)
  {
    if guard >= MICROSECOND - 1 {
      forall s: Sample, fromMs: int, untilMs: int | s.Real() ensures ClosesInTime(s, fromMs, untilMs, guard) {
        MidpointIsClose(s);
      }
    } else {
      var cut := Sample(0, 0, 0, MICROSECOND - 1);
      assert cut.Real() && !ClosesInTime(cut, 0, 1000, guard);
    }
  }

  /** A window costs no more of the plan's time than the guard and the round trip at either end. */
  lemma UsesMostOfThePlan(s: Sample, fromMs: int, untilMs: int, guard: int)
    requires s.Real()
    ensures var w := Leased(s, fromMs, untilMs, guard);
      && s.ServerAt(w.notBefore) <= fromMs * MILLISECOND + guard + s.RoundTrip() + MICROSECOND
      && s.ServerAt(w.notAfter) >= untilMs * MILLISECOND - guard - s.RoundTrip() - 1
      && w.notAfter - w.notBefore == (untilMs - fromMs) * MILLISECOND - 2 * s.Uncertainty(guard)
  {
    MidpointIsClose(s);
  }

  /** No instant of server time lies in the windows of two different epochs, whichever pods hold them, however
      their clocks are set and however long their round trips took. */
  lemma EpochsNeverOverlap(p: Sample, q: Sample, guard: int, epochMs: int, n: int, m: int, atP: int, atQ: int)
    requires p.Real() && q.Real() && guard >= MICROSECOND - 1 && epochMs > 0 && n < m
    requires Leased(p, n * epochMs, (n + 1) * epochMs, guard).Covers(atP)
    requires Leased(q, m * epochMs, (m + 1) * epochMs, guard).Covers(atQ)
    ensures p.ServerAt(atP) < q.ServerAt(atQ)
  {
    SpendsInsideThePlan(p, n * epochMs, (n + 1) * epochMs, guard, atP);
    SpendsInsideThePlan(q, m * epochMs, (m + 1) * epochMs, guard, atQ);
    assert (n + 1) * epochMs <= m * epochMs;
  }

  /** How long a refused caller should wait: until the window opens, or until the next one may. */
  function GuardRetryAfter(w: Window, now: int): int {
    if now < w.notBefore then w.notBefore - now
    else if now >= w.notAfter && now < w.nextNotBefore then w.nextNotBefore - now
    else 0
  }

  /** A caller refused in the gap after a window and told to wait comes back no earlier than the same pod's
      next window opens, when both come from one sample; and no wait is asked for while the window is open. */
  lemma RetryLandsInTheNextWindow(s: Sample, fromMs: int, untilMs: int, nextMs: int, guard: int, now: int)
    requires s.Real() && guard > 0
    requires Leased(s, fromMs, untilMs, guard).notBefore < Leased(s, fromMs, untilMs, guard).notAfter
    ensures var w, next := Leased(s, fromMs, untilMs, guard), Leased(s, untilMs, nextMs, guard);
      && (w.Covers(now) ==> GuardRetryAfter(w, now) == 0)
      && (w.notAfter <= now < next.notBefore ==> now + GuardRetryAfter(w, now) == next.notBefore)
      && (w.notAfter <= now < next.notBefore < next.notAfter ==> next.Covers(now + GuardRetryAfter(w, now)))
      && (now < w.notBefore ==> w.Covers(now + GuardRetryAfter(w, now)))
  {
  }

  // ---------- The coordinator's clock arithmetic ----------

  /** The epoch the coordinator works in and its two boundaries. */
  function CurrentEpoch(serverNow: int, epochMs: int): int
    requires epochMs > 0
  {
    serverNow / MILLISECOND / epochMs
  }

  /** The coordinator activates the plan of the epoch the server is in, give or take its answer's age: when it
      asks, the epoch has begun on the server, and it was still that epoch when the server answered. */
  lemma ActivatesTheCurrentEpoch(s: Sample, epochMs: int)
    requires s.Real() && epochMs > 0 && s.ServerAt(s.localStart) >= 0
    ensures var epoch := CurrentEpoch(s.ServerNow(), epochMs);
      && epoch * epochMs * MILLISECOND <= s.ServerAt(s.localEnd)
      && s.ServerAt(s.localStart) < (epoch + 1) * epochMs * MILLISECOND
  {
    var ms := s.ServerNow() / MILLISECOND;
    var epoch := ms / epochMs;
    assert epoch * epochMs <= ms < (epoch + 1) * epochMs by {
      assert ms == epoch * epochMs + ms % epochMs;
    }
    assert ms * MILLISECOND <= s.ServerNow() < (ms + 1) * MILLISECOND;
    assert s.ServerAt(s.read) < (ms + 1) * MILLISECOND;
  }

  const RECONCILE_INTERVAL := 2_000 * MILLISECOND
  const MINIMUM_WAKE := 10 * MILLISECOND

  /** How long the coordinator sleeps after a sample taken before `nextMs`, the next epoch's boundary. */
  function NextReconcileDelay(serverNow: int, nextMs: int, uncertainty: int): (delay: int)
    ensures MINIMUM_WAKE <= delay <= RECONCILE_INTERVAL
    // It neither wakes before the boundary has surely passed nor sleeps on, but for the shortest and the longest sleep.
    ensures delay < RECONCILE_INTERVAL ==> serverNow - uncertainty + delay >= nextMs * MILLISECOND
    ensures delay > MINIMUM_WAKE ==> serverNow - uncertainty + delay <= nextMs * MILLISECOND
  {
    var delay := nextMs * MILLISECOND - serverNow + uncertainty;
    if delay < MINIMUM_WAKE then MINIMUM_WAKE else if delay > RECONCILE_INTERVAL then RECONCILE_INTERVAL else delay
  }

  /** Unless the interval cuts its sleep short, the coordinator that sleeps from the end of its round trip does not
      wake before the next epoch's window can open. */
  lemma WakesAfterTheNextWindowOpens(s: Sample, nextMs: int, untilMs: int, guard: int)
    requires s.Real()
    ensures var delay := NextReconcileDelay(s.ServerNow(), nextMs, s.Uncertainty(guard));
      delay < RECONCILE_INTERVAL ==> s.localEnd + delay >= Leased(s, nextMs, untilMs, guard).notBefore
  {
  }
}
