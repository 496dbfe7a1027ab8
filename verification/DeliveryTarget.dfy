/**
 What acknowledged delivery sees and touches: captured screens of any content,
 a clock, and the log of everything done to the terminal.

 A screen stands for its reading under one engine family: the text rules that
 produce the reading are left to the target, which may answer anything.
 */
module DeliveryTarget {
  import opened Basics

  type Lines = seq<string>

  /** The input box; `payload` says whether the text reads as the payload being sent. */
  datatype Composer = Empty | Holds(text: string, payload: bool)

  datatype View = View(composer: Composer, above: Lines)

  /** One capture. `view` is `None` for a layout the family does not draw. */
  datatype Screen = Screen(view: Option<View>, readyLine: bool, busyLine: bool, echoLines: nat)

  /** The reading of an empty capture. */
  const BLANK := Screen(None, false, false, 0)

  predicate IsReady(s: Screen) {
    s.view.Some? && s.readyLine
  }

  predicate IsBusy(s: Screen) {
    s.view.Some? && s.busyLine
  }

  function EchoCount(s: Screen): nat {
    if s.view.Some? then s.echoLines else 0
  }

  /** `pending_payload`. */
  function Pending(s: Screen): Option<string> {
    match s.view
    case Some(View(Holds(text, true), _)) => Some(text)
    case _ => None
  }

  predicate HoldsText(s: Screen) {
    s.view.Some? && s.view.value.composer.Holds?
  }

  /** What a screen shows is what it was drawn with; a layout that the family does not draw shows nothing at all. */
  lemma ScreenShows(s: Screen)
    ensures IsReady(s) <==> s.view.Some? && s.readyLine
    ensures IsBusy(s) <==> s.view.Some? && s.busyLine
    ensures EchoCount(s) == if s.view.None? then 0 else s.echoLines
    ensures forall text :: Pending(s) == Some(text) <==> s.view.Some? && s.view.value.composer == Holds(text, true)
  {
  }

  /** Every operation on the target, with the clock when it was issued. */
  datatype Event = Captured(at: nat, screen: Option<Screen>)
    | Styled(at: nat, ghostly: bool)
    | Pasted(at: nat)
    | Entered(at: nat)
    | Reported(at: nat, working: bool)
    | Slept(at: nat, ms: nat)
    | Sniffed(at: nat, known: bool)

  predicate Writes(e: Event) {
    e.Pasted? || e.Entered?
  }

  /**
   The target so far. `instant` selects a clock that only sleeping advances, by
   exactly the time asked for; otherwise every operation may take any time. `broken`
   says that a write has failed: nothing may be written after that.
   */
  datatype Target = Target(log: seq<Event>, now: nat, pastes: nat, enters: nat, instant: bool, broken: bool)
  {
    /** Nothing was done after a write that failed. */
    ghost predicate Halted() {
      broken ==> log != [] && Writes(log[|log| - 1])
    }

    /** `w` continues this target without another paste. */
    ghost predicate Unpasted(w: Target) {
      && this.log <= w.log && now <= w.now && instant == w.instant
      && pastes == w.pastes && enters <= w.enters
      && (forall k :: |log| <= k < |w.log| ==> !w.log[k].Pasted?)
    }

    /** `w` continues this target without writing to it. */
    ghost predicate Watched(w: Target) {
      && this.log <= w.log && now <= w.now && instant == w.instant
      && pastes == w.pastes && enters == w.enters && broken == w.broken
      && (forall k :: |log| <= k < |w.log| ==> !Writes(w.log[k]))
    }
  }

  /** From position `from` on, nobody was asked for a report of work. */
  ghost predicate NoReports(log: seq<Event>, from: nat) {
    forall m :: from <= m < |log| ==> !log[m].Reported?
  }

  /** A report at `m` was followed by a write before `end`. */
  ghost predicate Superseded(log: seq<Event>, m: nat, end: nat)
    requires m < end <= |log|
  {
    log[m].Reported? ==> exists j :: m < j < end && Writes(log[j])
  }

  /** Every report of work was asked for before some later write. */
  ghost predicate Fresh(log: seq<Event>) {
    forall m :: 0 <= m < |log| ==> Superseded(log, m, |log|)
  }

  lemma FreshAfterWrite(log: seq<Event>, e: Event)
    requires Writes(e)
    ensures Fresh(log + [e])
  {
    var all := log + [e];
    forall m | 0 <= m < |all| ensures Superseded(all, m, |all|) {
      assert Writes(all[|log|]);
    }
  }

  lemma FreshStays(log: seq<Event>, more: seq<Event>)
    requires Fresh(log) && log <= more && NoReports(more, |log|)
    ensures Fresh(more)
  {
    forall m | 0 <= m < |more| ensures Superseded(more, m, |more|) {
      if more[m].Reported? {
        assert Superseded(log, m, |log|);
        var j :| m < j < |log| && Writes(log[j]);
        assert more[j] == log[j];
      }
    }
  }

  lemma UnpastedTwice(t: Target, u: Target, w: Target)
    requires (t.Watched(u) || t.Unpasted(u)) && (u.Watched(w) || u.Unpasted(w))
    ensures t.Unpasted(w)
  {
    forall k | |t.log| <= k < |w.log| ensures !w.log[k].Pasted? {
      if k < |u.log| { assert w.log[k] == u.log[k]; }
    }
  }

  lemma WatchedTwice(t: Target, u: Target, w: Target)
    requires t.Watched(u) && u.Watched(w)
    ensures t.Watched(w)
  {
    forall k | |t.log| <= k < |w.log| ensures !Writes(w.log[k]) {
      if k < |u.log| { assert w.log[k] == u.log[k]; }
    }
  }

  /** The time an operation took. */
  method Elapse(t: Target, least: nat) returns (ms: nat)
    ensures least <= ms && (t.instant ==> ms == least)
  {
    if t.instant { return least; }
    ms :| least <= ms;
  }

  method Capture(t: Target) returns (w: Target, s: Option<Screen>)
    ensures t.Watched(w) && w.log == t.log + [Captured(t.now, s)] && (t.instant ==> w.now == t.now)
  {
    var view: Option<View>, ready: bool, busy: bool, echoes: nat := *, *, *, *;
    if * { s := Some(Screen(view, ready, busy, echoes)); } else { s := None; }
    var ms := Elapse(t, 0);
    w := t.(log := t.log + [Captured(t.now, s)], now := t.now + ms);
  }

  /** `composer_is_ghost`: ask for the styled screen only when the box shows text. */
  method ComposerIsGhost(t: Target, s: Screen) returns (w: Target, ghostly: bool)
    ensures t.Watched(w) && (t.instant ==> w.now == t.now)
    ensures if HoldsText(s) then w.log == t.log + [Styled(t.now, ghostly)] else w == t && !ghostly
  {
    if !HoldsText(s) { return t, false; }
    ghostly := *;
    var ms := Elapse(t, 0);
    w := t.(log := t.log + [Styled(t.now, ghostly)], now := t.now + ms);
  }

  /** `sniff_family` of one capture: does it show a family that is known? */
  method Sniff(t: Target) returns (w: Target, known: bool)
    ensures t.Watched(w) && w.log == t.log + [Sniffed(t.now, known)] && (t.instant ==> w.now == t.now)
  {
    known := *;
    var ms := Elapse(t, 0);
    w := t.(log := t.log + [Sniffed(t.now, known)], now := t.now + ms);
  }

  method ReportedWorking(t: Target) returns (w: Target, working: bool)
    ensures t.Watched(w) && w.log == t.log + [Reported(t.now, working)] && (t.instant ==> w.now == t.now)
  {
    working := *;
    var ms := Elapse(t, 0);
    w := t.(log := t.log + [Reported(t.now, working)], now := t.now + ms);
  }

  method Sleep(t: Target, ms: nat) returns (w: Target)
    ensures t.Watched(w) && w.log == t.log + [Slept(t.now, ms)]
    ensures t.now + ms <= w.now && (t.instant ==> w.now == t.now + ms)
  {
    var took := Elapse(t, ms);
    w := t.(log := t.log + [Slept(t.now, ms)], now := t.now + took);
  }

  method Paste(t: Target) returns (w: Target, ok: bool)
    requires !t.broken
    ensures w == Target(t.log + [Pasted(t.now)], w.now, t.pastes + 1, t.enters, t.instant, !ok)
    ensures t.now <= w.now && (t.instant ==> w.now == t.now)
  {
    var ms := Elapse(t, 0);
    ok := *;
    w := t.(log := t.log + [Pasted(t.now)], now := t.now + ms, pastes := t.pastes + 1, broken := !ok);
  }

  method Enter(t: Target) returns (w: Target, ok: bool)
    requires !t.broken
    ensures w == Target(t.log + [Entered(t.now)], w.now, t.pastes, t.enters + 1, t.instant, !ok)
    ensures t.now <= w.now && (t.instant ==> w.now == t.now)
  {
    var ms := Elapse(t, 0);
    ok := *;
    w := t.(log := t.log + [Entered(t.now)], now := t.now + ms, enters := t.enters + 1, broken := !ok);
  }

  // ---- wait_until ------------------------------------------------------------

  /** The most a bounded wait can take on an instant target. */
  function Window(timeout: nat, poll: nat): nat {
    if timeout == 0 then 0 else timeout + Max(poll, 1) - 1
  }

  /** Every successful capture from position `from` on fails `done`. */
  ghost predicate NoneDone(log: seq<Event>, from: nat, done: Screen -> bool) {
    forall k :: from <= k < |log| && log[k].Captured? && log[k].screen.Some? ==> !done(log[k].screen.value)
  }

  /** `wait_until`: poll until `done` holds of a capture or `timeout` has passed. */
  method WaitUntil(t: Target, timeout: nat, poll: nat, done: Screen -> bool) returns (w: Target, r: Option<Screen>)
    ensures t.Watched(w) && |t.log| < |w.log| && w.log[|t.log|].at == t.now && w.log[|t.log|].Captured?
    ensures r.Some? ==> done(r.value) && w.log[|w.log| - 1].Captured? && w.log[|w.log| - 1].screen == r
    ensures r.Some? ==> w.log[|w.log| - 1].at <= w.now
    ensures r.None? ==> t.now + timeout <= w.now && NoneDone(w.log, |t.log|, done)
    ensures NoReports(w.log, |t.log|)
    ensures t.instant ==> w.now <= t.now + Window(timeout, poll)
  {
    var deadline := t.now + timeout;
    w := t;
    while true
      invariant t.Watched(w) && NoneDone(w.log, |t.log|, done) && NoReports(w.log, |t.log|)
      invariant w == t || (|t.log| < |w.log| && w.log[|t.log|].Captured? && w.log[|t.log|].at == t.now)
      invariant w != t ==> timeout > 0
      invariant t.instant && w != t ==> w.now < deadline + Max(poll, 1)
      decreases deadline + 1 - w.now
    {
      ghost var before := w;
      w, r := Capture(w);
      if r.Some? && done(r.value) { return; }
      if w.now >= deadline { r := None; return; }
      w := Sleep(w, Max(poll, 1));
    }
  }
}
