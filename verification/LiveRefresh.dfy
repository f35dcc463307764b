/** The refresh scheduler of frontend/src/lib/liveRefresh.ts. `refresh` is
    asynchronous, so a run is two events, its start when the timer fires and its
    end when the answer is in; notifications, heartbeats and `stop` may come
    between any two. */
module LiveRefresh {
  import opened Text

  datatype Config = Config(debounceMs: int, minGapMs: int)

  /** `lastStart` is absent where the program has minus infinity; `timer` is the
      time from which a pending timeout may fire. */
  datatype State = State(owed: bool, running: bool, stopped: bool, lastSuccess: int, lastStart: Option<int>, timer: Option<int>)

  /** What the page says at the moment: the time, and whether it is hidden or
      not ready to refresh. */
  datatype Page = Page(now: int, hidden: bool, ready: bool, fallbackMs: int)

  function Max(a: int, b: int): int {
    if a > b then a else b
  }

  function Min(a: int, b: int): int {
    if a < b then a else b
  }

  predicate Allowed(s: State, p: Page) {
    !s.stopped && !p.hidden && p.ready
  }

  function Wait(c: Config, lastStart: Option<int>, now: int): int {
    match lastStart
    case None => c.debounceMs
    case Some(t) => Max(c.debounceMs, Min(c.minGapMs, t + c.minGapMs - now))
  }

  function Scheduled(c: Config, s: State, p: Page): State {
    if s.timer.Some? || s.running || !Allowed(s, p) then s.(owed := true)
    else s.(owed := true, timer := Some(p.now + Wait(c, s.lastStart, p.now)))
  }

  function Ticked(c: Config, s: State, p: Page): State {
    if s.owed || p.now - s.lastSuccess >= p.fallbackMs then Scheduled(c, s, p) else s
  }

  function Fired(s: State, p: Page): State {
    if s.running || !Allowed(s, p) then s.(timer := None)
    else s.(timer := None, owed := false, running := true, lastStart := Some(p.now))
  }

  function Ended(c: Config, s: State, p: Page, ok: bool): State {
    if !ok then s.(running := false, owed := true)
    else
      var t := s.(running := false, lastSuccess := p.now);
      if t.owed then Scheduled(c, t, p) else t
  }

  function Stopped(s: State): State {
    s.(stopped := true, timer := None)
  }

  class Scheduler {
    const config: Config
    var owed: bool
    var running: bool
    var stopped: bool
    var lastSuccess: int
    var lastStart: Option<int>
    var timer: Option<int>

    function View(): State
      reads this
    {
      State(owed, running, stopped, lastSuccess, lastStart, timer)
    }

    constructor (config: Config, now: int)
      ensures View() == State(false, false, false, now, None, None) && this.config == config
    {
      this.config := config;
      owed, running, stopped := false, false, false;
      lastSuccess, lastStart, timer := now, None, None;
    }

    method Schedule(p: Page)
      modifies this`owed, this`timer
      ensures View() == Scheduled(config, old(View()), p)
      // owed in any case; a timer only where none is pending and the page allows it
      ensures owed
      ensures timer == if old(timer).Some? || running || stopped || p.hidden || !p.ready then old(timer)
                       else Some(p.now + Wait(config, lastStart, p.now))
    {
      owed := true;
      if timer.Some? || running || !Allowed(View(), p) {
        return;
      }
      var wait := if lastStart.Some? then Max(config.debounceMs, Min(config.minGapMs, lastStart.value + config.minGapMs - p.now))
                  else config.debounceMs;
      timer := Some(p.now + wait);
    }

    method Notify(p: Page)
      modifies this`owed, this`timer
      ensures View() == Scheduled(config, old(View()), p)
    {
      Schedule(p);
    }

    method Tick(p: Page)
      modifies this`owed, this`timer
      ensures View() == Ticked(config, old(View()), p)
      ensures owed == (old(owed) || p.now - lastSuccess >= p.fallbackMs)
      ensures !owed ==> timer == old(timer)
      ensures owed ==> timer == if old(timer).Some? || running || stopped || p.hidden || !p.ready then old(timer)
                                else Some(p.now + Wait(config, lastStart, p.now))
    {
      if owed || p.now - lastSuccess >= p.fallbackMs {
        Schedule(p);
      }
    }

    /** `run` up to its call of `refresh`. */
    method RunStart(p: Page) returns (started: bool)
      modifies this
      ensures View() == Fired(old(View()), p)
      ensures started == (!old(running) && !old(stopped) && !p.hidden && p.ready)
      ensures timer == None && running == (old(running) || started) && stopped == old(stopped) && lastSuccess == old(lastSuccess)
      ensures if started then !owed && lastStart == Some(p.now) else owed == old(owed) && lastStart == old(lastStart)
    {
      timer := None;
      if running || !Allowed(View(), p) {
        return false;
      }
      owed := false;
      running := true;
      lastStart := Some(p.now);
      return true;
    }

    /** `run` from the answer of `refresh` on. */
    method RunEnd(p: Page, ok: bool)
      modifies this
      ensures View() == Ended(config, old(View()), p, ok)
      ensures !running && owed == (old(owed) || !ok) && lastSuccess == (if ok then p.now else old(lastSuccess))
      ensures stopped == old(stopped) && lastStart == old(lastStart)
      ensures timer == if !ok || !old(owed) || old(timer).Some? || stopped || p.hidden || !p.ready then old(timer)
                       else Some(p.now + Wait(config, lastStart, p.now))
    {
      running := false;
      if !ok {
        owed := true;
        return;
      }
      lastSuccess := p.now;
      if owed {
        Schedule(p);
      }
    }

    method Stop()
      modifies this`stopped, this`timer
      ensures View() == Stopped(old(View()))
      ensures stopped && timer == None
    {
      stopped := true;
      timer := None;
    }
  }

  // ------------------------------------------------------------------- whole runs

  datatype Event = Notify(page: Page) | Tick(page: Page) | Fire(page: Page) | End(page: Page, ok: bool) | Stop(page: Page)

  /** The scheduler and what happened so far: `starts` are the times refreshes
      began, `ends` how many are over; `notified`, `begun` and `done` number the
      events of the last notification, of the last start, and of the start of
      the last refresh that succeeded. */
  datatype World = World(s: State, now: int, events: nat, starts: seq<int>, ends: nat, notified: int, begun: int, done: int)

  predicate Enabled(w: World, e: Event) {
    match e
    case Fire(p) => w.s.timer.Some? && w.s.timer.value <= p.now
    case End(_, _) => w.s.running
    case _ => true
  }

  function Next(c: Config, w: World, e: Event): World {
    if !Enabled(w, e) || e.page.now < w.now then w
    else
      var v := w.(now := e.page.now, events := w.events + 1);
      match e
      case Notify(p) => v.(s := Scheduled(c, w.s, p), notified := w.events)
      case Tick(p) => v.(s := Ticked(c, w.s, p))
      case Fire(p) =>
        if w.s.running || !Allowed(w.s, p) then v.(s := Fired(w.s, p))
        else v.(s := Fired(w.s, p), starts := w.starts + [p.now], begun := w.events)
      case End(p, ok) => v.(s := Ended(c, w.s, p, ok), ends := w.ends + 1, done := if ok then w.begun else w.done)
      case Stop(p) => v.(s := Stopped(w.s))
  }

  /** A run under a clock that does not go back. */
  function After(c: Config, w: World, es: seq<Event>): World
    decreases |es|
  {
    if es == [] then w else Next(c, After(c, w, es[..|es| - 1]), es[|es| - 1])
  }

  function Start(now: int): World {
    World(State(false, false, false, now, None, None), now, 0, [], 0, -1, -1, -1)
  }

  predicate Spaced(starts: seq<int>, gap: int) {
    forall i :: 0 < i < |starts| ==> starts[i] >= starts[i - 1] + gap
  }

  /** Refreshes never overlap: as many are over as were started, but for the one
      that runs. */
  predicate OneAtATime(w: World) {
    |w.starts| == w.ends + if w.s.running then 1 else 0
  }

  /** A notification is owed, or answered by a refresh that started after it and
      runs or succeeded. */
  predicate NotifyKept(w: World) {
    w.notified >= 0 ==> w.s.owed || (w.s.running && w.begun > w.notified) || w.done > w.notified
  }

  predicate TimersOk(c: Config, w: World) {
    && (w.s.running || w.s.stopped ==> w.s.timer == None)
    && (w.s.lastStart.Some? <==> w.starts != [])
    && (w.starts != [] ==> w.starts[|w.starts| - 1] == w.s.lastStart.value <= w.now)
    && (w.s.timer.Some? && w.starts != [] ==> w.s.timer.value >= w.s.lastStart.value + c.minGapMs)
  }

  predicate Numbered(w: World) {
    w.notified < w.events && w.begun < w.events && (w.s.running ==> w.done < w.begun) && w.done <= w.begun
  }

  predicate Inv(c: Config, w: World) {
    TimersOk(c, w) && Spaced(w.starts, c.minGapMs) && OneAtATime(w) && NotifyKept(w) && Numbered(w)
  }

  lemma NextKeepsTimers(c: Config, w: World, e: Event)
    requires TimersOk(c, w)
    ensures TimersOk(c, Next(c, w, e))
  {
  }

  lemma NextKeepsGaps(c: Config, w: World, e: Event)
    requires TimersOk(c, w) && Spaced(w.starts, c.minGapMs) && OneAtATime(w)
    ensures Spaced(Next(c, w, e).starts, c.minGapMs) && OneAtATime(Next(c, w, e))
  {
    hide Wait;
  }

  lemma NextKeepsNotify(c: Config, w: World, e: Event)
    requires NotifyKept(w) && Numbered(w)
    ensures NotifyKept(Next(c, w, e)) && Numbered(Next(c, w, e))
  {
    hide Wait;
  }

  lemma NextKeepsInv(c: Config, w: World, e: Event)
    requires Inv(c, w)
    ensures Inv(c, Next(c, w, e))
  {
    hide Next, TimersOk, Spaced, OneAtATime, NotifyKept, Numbered;
    NextKeepsTimers(c, w, e);
    NextKeepsGaps(c, w, e);
    NextKeepsNotify(c, w, e);
  }

  lemma {:induction false} RunKeepsInv(c: Config, now: int, es: seq<Event>)
    ensures Inv(c, After(c, Start(now), es))
    decreases |es|
  {
    if es != [] {
      RunKeepsInv(c, now, es[..|es| - 1]);
      hide Inv;
      NextKeepsInv(c, After(c, Start(now), es[..|es| - 1]), es[|es| - 1]);
    }
  }

  /** Scheduler safety, in every run under a monotonic clock: refreshes never
      overlap, their starts are at least the minimum gap apart, and no
      notification is lost. */
  lemma SchedulerSafe(c: Config, now: int, es: seq<Event>)
    ensures var w := After(c, Start(now), es);
            OneAtATime(w) && Spaced(w.starts, c.minGapMs) && NotifyKept(w)
  {
    RunKeepsInv(c, now, es);
  }

  /** Nothing starts after `stop`. */
  lemma {:induction false} StoppedStaysQuiet(c: Config, now: int, es: seq<Event>, more: seq<Event>)
    requires After(c, Start(now), es).s.stopped
    ensures After(c, Start(now), es + more).starts == After(c, Start(now), es).starts
    ensures After(c, Start(now), es + more).s.stopped
    decreases |more|
  {
    if more == [] {
      assert es + more == es;
    } else {
      var all := es + more;
      assert all[..|all| - 1] == es + more[..|more| - 1];
      StoppedStaysQuiet(c, now, es, more[..|more| - 1]);
    }
  }

  /** The wait is the least that is not below the debounce and keeps the gap from
      the last start, or has lasted as long as the gap itself: a clock set back
      does not put a refresh off for longer. */
  lemma WaitIsLeast(c: Config, lastStart: Option<int>, now: int, w: int)
    ensures var wait := Wait(c, lastStart, now);
            && Enough(c, lastStart, now, wait) && (Enough(c, lastStart, now, w) ==> wait <= w)
  {
  }

  predicate Enough(c: Config, lastStart: Option<int>, now: int, w: int) {
    w >= c.debounceMs && (lastStart.Some? ==> w >= c.minGapMs || now + w >= lastStart.value + c.minGapMs)
  }

  /** In every run a refresh starts only when a timer that was set is due, on a
      page that is visible and ready, with none running and nothing stopped. */
  lemma StartsOnlyWhenAllowed(c: Config, now: int, es: seq<Event>, e: Event)
    ensures var w, v := After(c, Start(now), es), After(c, Start(now), es + [e]);
            v.starts != w.starts ==>
              && e.Fire? && !e.page.hidden && e.page.ready && !w.s.running && !w.s.stopped
              && w.s.timer.Some? && w.s.timer.value <= e.page.now && v.starts == w.starts + [e.page.now]
  {
    assert (es + [e])[..|es|] == es;
  }

  /** Whatever the clock does, even when it is set back, a scheduled refresh is
      due no later than the longer of debounce and gap from now. */
  lemma WaitIsBounded(c: Config, lastStart: Option<int>, now: int)
    ensures c.debounceMs <= Wait(c, lastStart, now) <= Max(c.debounceMs, c.minGapMs)
  {
  }

  /** What is owed, or has not succeeded for too long, is started: once the page
      is ready, the next heartbeat or notification arms the timer, and the timer
      starts a refresh unless the page has become unready again. */
  lemma OwedIsStarted(c: Config, now: int, es: seq<Event>, tick: Page, fire: Page)
    requires var w := After(c, Start(now), es);
             && (w.s.owed || tick.now - w.s.lastSuccess >= tick.fallbackMs)
             && !w.s.running && !w.s.stopped && !tick.hidden && tick.ready && w.now <= tick.now
             && fire.now >= tick.now && (w.s.timer.Some? ==> fire.now >= w.s.timer.value)
             && fire.now >= tick.now + Max(c.debounceMs, c.minGapMs) && !fire.hidden && fire.ready
    ensures var w := After(c, Start(now), es);
            var v := After(c, Start(now), es + [Tick(tick), Fire(fire)]);
            v.s.running && !v.s.owed && v.starts == w.starts + [fire.now]
  {
    var w := After(c, Start(now), es);
    var one, two := es + [Tick(tick)], es + [Tick(tick), Fire(fire)];
    assert one[..|one| - 1] == es && two[..|two| - 1] == one;
    WaitIsBounded(c, w.s.lastStart, tick.now);
  }
}
