/**
 `deliver`: the bounded retry machine of acknowledged delivery, run against a
 target that may show anything at any time.
 */
module Delivery {
  import opened Basics
  import opened DeliveryTarget

  /** `AckPolicy`. */
  datatype Policy = Policy(readyMs: nat, lateLookMs: nat, landingMs: nat, maxResends: nat, maxEnters: nat,
                           submitMs: nat, ackMs: nat, pollMs: nat)

  const RESEND_READY_MS := 10_000
  const ARRIVAL_MS := 3_000

  /** What was read before the first paste. */
  datatype Baseline = Baseline(above: Option<Lines>, echoes: nat, queued: bool, since: nat)

  // ---- What justifies a keystroke --------------------------------------------

  ghost predicate NoWrites(log: seq<Event>, from: nat) {
    forall k :: from <= k < |log| ==> !Writes(log[k])
  }

  /** The capture at `k` shows the input box empty, or holding only ghost text. */
  ghost predicate BoxEmpty(log: seq<Event>, k: nat) {
    && k < |log| && log[k].Captured? && log[k].screen.Some? && log[k].screen.value.view.Some?
    && (log[k].screen.value.view.value.composer.Holds? ==>
          k + 1 < |log| && log[k + 1].Styled? && log[k + 1].ghostly)
  }

  /** The first Enter of a send: nothing was written since its paste. */
  ghost predicate FirstEnter(log: seq<Event>, p: nat) {
    p < |log| && log[p].Pasted? && NoWrites(log, p + 1)
  }

  /** A whole submit window in which every successful capture showed the same pending text. */
  ghost predicate StuckWindow(log: seq<Event>, from: nat, text: string, now: nat, policy: Policy) {
    && from < |log| && log[from].Captured? && NoWrites(log, from)
    && log[from].at + policy.submitMs <= now
    && (forall k :: from <= k < |log| && log[k].Captured? && log[k].screen.Some? ==>
          Pending(log[k].screen.value) == Some(text))
  }

  /** The capture at `k` is the last one. */
  ghost predicate LastCapture(log: seq<Event>, k: nat) {
    k < |log| && log[k].Captured? && forall m :: k < m < |log| ==> !log[m].Captured?
  }

  /** The last look came after `p` and did not show an empty box; or nobody looks at all. */
  ghost predicate LookedAfter(log: seq<Event>, p: nat) {
    || (forall k :: 0 <= k < |log| ==> !log[k].Captured?)
    || (exists k :: p < k && LastCapture(log, k) && !BoxEmpty(log, k))
  }

  ghost predicate EnterJustified(log: seq<Event>, now: nat, policy: Policy) {
    || (exists p :: FirstEnter(log, p) && LookedAfter(log, p))
    || (exists from, text :: StuckWindow(log, from, text, now, policy))
  }

  /** The capture at `k` shows this payload text in the box. */
  predicate ShowsText(log: seq<Event>, k: nat, text: string) {
    k < |log| && log[k].Captured? && log[k].screen.Some? && Pending(log[k].screen.value) == Some(text)
  }

  /** No capture from `from` on shows the payload in the box. */
  ghost predicate Unseen(log: seq<Event>, from: nat) {
    forall k :: from <= k < |log| && log[k].Captured? && log[k].screen.Some? ==> Pending(log[k].screen.value).None?
  }

  ghost predicate NoPastes(log: seq<Event>, from: nat) {
    forall k :: from <= k < |log| ==> !log[k].Pasted?
  }

  /** Since the last paste a capture has shown this text in the box. */
  ghost predicate TextShown(log: seq<Event>, text: string) {
    exists k: nat :: ShowsText(log, k, text) && NoPastes(log, k + 1)
  }

  lemma TextStays(t: Target, w: Target, text: string)
    requires TextShown(t.log, text) && (t.Watched(w) || t.Unpasted(w))
    ensures TextShown(w.log, text)
  {
    var k: nat :| ShowsText(t.log, k, text) && NoPastes(t.log, k + 1);
    forall j | k + 1 <= j < |w.log| ensures !w.log[j].Pasted? {
      if j < |t.log| { assert w.log[j] == t.log[j]; }
    }
    assert w.log[k] == t.log[k];
    assert ShowsText(w.log, k, text);
  }

  /** The last write was an Enter. */
  ghost predicate EnteredLast(log: seq<Event>, e: nat) {
    e < |log| && log[e].Entered? && NoWrites(log, e + 1)
  }

  lemma EnterStaysLast(t: Target, w: Target)
    requires (exists e :: EnteredLast(t.log, e)) && t.Watched(w)
    ensures exists e :: EnteredLast(w.log, e)
  {
    var e: nat :| EnteredLast(t.log, e);
    forall j | e + 1 <= j < |w.log| ensures !Writes(w.log[j]) {
      if j < |t.log| { assert w.log[j] == t.log[j]; }
    }
    assert w.log[e] == t.log[e];
    assert EnteredLast(w.log, e);
  }

  /** After the Enter at `e`, the last one, the capture at `k` no longer shows the text that was pending. */
  ghost predicate LeftAt(log: seq<Event>, e: nat, k: nat) {
    && EnteredLast(log, e) && e < k && k < |log| && log[k].Captured? && log[k].screen.Some?
    && (|| Pending(log[k].screen.value).None?
        || exists text :: Pending(log[k].screen.value) != Some(text) && TextShown(log, text))
  }

  /** The payload was seen to leave the box. */
  ghost predicate Left(log: seq<Event>) {
    exists e, k :: LeftAt(log, e, k)
  }

  lemma LeftStays(t: Target, w: Target)
    requires Left(t.log) && t.Watched(w)
    ensures Left(w.log)
  {
    var e: nat, k: nat :| LeftAt(t.log, e, k);
    forall j | e + 1 <= j < |w.log| ensures !Writes(w.log[j]) {
      if j < |t.log| { assert w.log[j] == t.log[j]; }
    }
    assert w.log[e] == t.log[e] && w.log[k] == t.log[k];
    if Pending(t.log[k].screen.value).Some? {
      var text :| Pending(t.log[k].screen.value) != Some(text) && TextShown(t.log, text);
      TextStays(t, w, text);
    }
    assert LeftAt(w.log, e, k);
  }

  /** The paste at `p` was entered at `e`, and no capture could read the box: not its text before, nothing after. */
  ghost predicate Unreadable(log: seq<Event>, p: nat, e: nat, now: nat, policy: Policy) {
    && p < e && e < |log| && log[p].Pasted? && NoPastes(log, p + 1) && Unseen(log, p)
    && EnteredLast(log, e) && log[e].at + policy.lateLookMs <= now
    && (forall k :: e < k < |log| && log[k].Captured? && log[k].screen.Some? ==> log[k].screen.value.view.None?)
  }

  /** Nobody watched since the last write, and the box could not be read. */
  ghost predicate Unread(log: seq<Event>, now: nat, policy: Policy) {
    Fresh(log) && exists p, e :: Unreadable(log, p, e, now, policy)
  }

  /** Nobody watched since the last write, and the payload seen in the box stayed there for a whole window. */
  ghost predicate StuckShown(log: seq<Event>, now: nat, policy: Policy) {
    Fresh(log) && exists from, text :: StuckWindow(log, from, text, now, policy) && TextShown(log, text)
  }

  /**
   The paste at `p` was dropped: nothing was entered, no capture up to `k` has shown its
   text, and the one at `k`, which in a box that could be read comes after a whole landing
   window, shows the box empty.
   */
  ghost predicate Dropped(log: seq<Event>, p: nat, k: nat, base: Baseline, policy: Policy) {
    && p < k && k < |log| && FirstEnter(log, p) && Unseen(log[..k + 1], p) && BoxEmpty(log, k)
    && (base.above.Some? ==> log[p].at + policy.landingMs <= log[k].at)
  }

  /** Since `k` the box was seen ready, or ten seconds have passed. */
  ghost predicate ReadyAgain(log: seq<Event>, k: nat, now: nat)
    requires k < |log|
  {
    || log[k].at + RESEND_READY_MS <= now
    || exists m :: k < m < |log| && log[m].Captured? && log[m].screen.Some? && IsReady(log[m].screen.value)
  }

  /** No echo, no new work and no report of work. */
  predicate Calm(e: Event, base: Baseline) {
    match e
    case Captured(_, Some(s)) => EchoCount(s) <= base.echoes && (IsBusy(s) ==> base.queued)
    case Reported(_, working) => !working
    case _ => true
  }

  /** The watch that is still on began at `from`: the first request for a report since the last write. */
  ghost predicate StartOfWatch(log: seq<Event>, from: nat) {
    && from < |log| && log[from].Reported? && NoWrites(log, from)
    && (forall m :: 0 <= m < from ==> Superseded(log, m, from))
  }

  lemma OneWatch(log: seq<Event>, a: nat, b: nat)
    requires StartOfWatch(log, a) && StartOfWatch(log, b)
    ensures a == b
  {
    assert a < b ==> Superseded(log, a, b);
    assert b < a ==> Superseded(log, b, a);
  }

  /** A capture that shows the payload's echo. */
  predicate EchoAt(log: seq<Event>, m: nat, base: Baseline) {
    && m < |log| && log[m].Captured? && log[m].screen.Some?
    && EchoCount(log[m].screen.value) > base.echoes
  }

  predicate ViewAt(log: seq<Event>, m: nat) {
    m < |log| && log[m].Captured? && log[m].screen.Some? && log[m].screen.value.view.Some?
  }

  function AboveAt(log: seq<Event>, m: nat): Lines
    requires ViewAt(log, m)
  {
    log[m].screen.value.view.value.above
  }

  /** A report of work, or a busy line that was not there before. */
  predicate WorkAt(log: seq<Event>, m: nat, base: Baseline) {
    && m < |log|
    && match log[m]
       case Captured(_, Some(s)) => IsBusy(s) && !base.queued
       case Reported(_, working) => working
       case _ => false
  }

  /** A view at or after an echo. */
  ghost predicate EchoedView(log: seq<Event>, from: nat, m: nat, base: Baseline) {
    ViewAt(log, m) && exists e :: from <= e <= m && EchoAt(log, e, base)
  }

  /** The transcript moved after the echo. */
  ghost predicate Moved(log: seq<Event>, from: nat, i: nat, j: nat, base: Baseline) {
    EchoedView(log, from, i, base) && ViewAt(log, j) && i < j && AboveAt(log, i) != AboveAt(log, j)
  }

  datatype Evidence = BusyIndicator | HarnessWorking | TranscriptActivity

  /** The log shows this evidence of work since `from`. */
  ghost predicate Shows(log: seq<Event>, from: nat, evidence: Evidence, base: Baseline) {
    match evidence
    case BusyIndicator => exists m :: from <= m && WorkAt(log, m, base) && log[m].Captured?
    case HarnessWorking => exists m :: from <= m && WorkAt(log, m, base) && log[m].Reported?
    case TranscriptActivity => exists i, j :: Moved(log, from, i, j, base)
  }

  /** The log shows work since `from`. */
  ghost predicate WorkIn(log: seq<Event>, from: nat, base: Baseline) {
    exists evidence :: Shows(log, from, evidence, base)
  }

  /** No better evidence of work was seen: a report comes before a busy line, and that before mere movement. */
  ghost predicate Strongest(log: seq<Event>, from: nat, evidence: Evidence, base: Baseline) {
    && (evidence.TranscriptActivity? ==> forall m :: from <= m < |log| ==> !WorkAt(log, m, base))
    && (evidence.BusyIndicator? ==> forall m :: from <= m < |log| && WorkAt(log, m, base) ==> log[m].Captured?)
  }

  /** The watch that is still on has seen this evidence, and none that is better. */
  ghost predicate Witnessed(log: seq<Event>, evidence: Evidence, base: Baseline) {
    exists from :: StartOfWatch(log, from) && Shows(log, from, evidence, base) && Strongest(log, from, evidence, base)
  }

  /** The watch that is still on has seen work. */
  ghost predicate Working(log: seq<Event>, base: Baseline) {
    exists from :: StartOfWatch(log, from) && WorkIn(log, from, base)
  }

  lemma NobodyStarted(log: seq<Event>)
    requires Fresh(log)
    ensures forall from: nat :: !StartOfWatch(log, from)
  {
    forall from: nat ensures !StartOfWatch(log, from) {
      assert from < |log| ==> Superseded(log, from, |log|);
    }
  }

  lemma NobodyWatches(log: seq<Event>, base: Baseline)
    requires Fresh(log)
    ensures !Working(log, base)
  {
    NobodyStarted(log);
  }

  /** The capture at `k` is the last successful one and shows the pre-send screen. */
  ghost predicate LastShowsPreSend(log: seq<Event>, k: nat, base: Baseline) {
    && BoxEmpty(log, k)
    && (base.above.Some? ==> log[k].screen.value.view.value.above == base.above.value)
    && (forall m :: k < m < |log| ==> !(log[m].Captured? && log[m].screen.Some?))
  }

  /** Nothing arrived: from `from` on all is calm, and the last capture, at `k`, shows the pre-send screen. */
  ghost predicate Vanished(log: seq<Event>, from: nat, k: nat, now: nat, base: Baseline) {
    && from <= k && NoWrites(log, from) && LastShowsPreSend(log, k, base)
    && (forall m :: from <= m < |log| ==> Calm(log[m], base))
    && base.since + ARRIVAL_MS <= now
  }

  ghost predicate PasteJustified(log: seq<Event>, now: nat, base: Baseline, policy: Policy) {
    || (forall k :: 0 <= k < |log| ==> !log[k].Pasted?)
    || (exists p, k :: Dropped(log, p, k, base, policy) && ReadyAgain(log, k, now))
    || (exists from, k :: StartOfWatch(log, from) && Vanished(log, from, k, now, base))
  }

  /** If the event at `j` is a keystroke, it was justified when it was made. */
  ghost predicate JustifiedAt(log: seq<Event>, j: nat, base: Baseline, policy: Policy)
    requires j < |log|
  {
    && (log[j].Pasted? ==> PasteJustified(log[..j], log[j].at, base, policy))
    && (log[j].Entered? ==> EnterJustified(log[..j], log[j].at, policy))
  }

  /** Every keystroke of the log was justified when it was made. */
  ghost predicate Gated(log: seq<Event>, base: Baseline, policy: Policy) {
    forall j :: 0 <= j < |log| ==> JustifiedAt(log, j, base, policy)
  }

  lemma WatchingKeepsGated(t: Target, w: Target, base: Baseline, policy: Policy)
    requires Gated(t.log, base, policy) && t.Watched(w)
    ensures Gated(w.log, base, policy)
  {
    forall j | 0 <= j < |w.log| ensures JustifiedAt(w.log, j, base, policy) {
      if Writes(w.log[j]) {
        assert w.log[j] == t.log[j] && w.log[..j] == t.log[..j];
        assert JustifiedAt(t.log, j, base, policy);
      }
    }
  }

  lemma WriteKeepsGated(log: seq<Event>, e: Event, base: Baseline, policy: Policy)
    requires Gated(log, base, policy)
    requires e.Pasted? ==> PasteJustified(log, e.at, base, policy)
    requires e.Entered? ==> EnterJustified(log, e.at, policy)
    ensures Gated(log + [e], base, policy)
  {
    var all := log + [e];
    forall j | 0 <= j < |all| ensures JustifiedAt(all, j, base, policy) {
      if j < |log| {
        assert all[..j] == log[..j];
        assert JustifiedAt(log, j, base, policy);
      } else {
        assert all[..j] == log;
      }
    }
  }

  // ---- The phases ---------------------------------------------------------------

  /** After a paste: did the composer show it, show itself empty, or neither? */
  method Land(t: Target, policy: Policy, readable: bool) returns (w: Target, landed: Option<bool>, text: Option<string>)
    ensures t.Watched(w) && (landed.Some? && landed.value <==> text.Some?) && NoReports(w.log, |t.log|)
    ensures landed.Some? && !landed.value ==> exists k :: |t.log| <= k && BoxEmpty(w.log, k)
                                                  && w.log[k].at <= w.now
                                                  && (readable ==> t.now + policy.landingMs <= w.log[k].at)
    ensures text.Some? ==> exists k :: |t.log| <= k && ShowsText(w.log, k, text.value)
    ensures text.None? ==> Unseen(w.log, |t.log|)
    ensures (landed.Some? ==> landed.value) ==> exists k :: |t.log| <= k && LastCapture(w.log, k) && !BoxEmpty(w.log, k)
    ensures t.instant ==> w.now <= t.now + if readable then Window(policy.landingMs, policy.pollMs) else 0
  {
    var seen;
    w, seen := WaitUntil(t, if readable then policy.landingMs else 0, policy.pollMs, s => Pending(s).Some?);
    if seen.None? { w, seen := Capture(w); }
    var k := |w.log| - 1;
    var screen := if seen.Some? then seen.value else BLANK;
    text := Pending(screen);
    assert LastCapture(w.log, k);
    if text.Some? {
      assert ShowsText(w.log, k, text.value) && !BoxEmpty(w.log, k);
      return w, Some(true), text;
    }
    if screen.view.None? { return w, None, None; }
    var ghostly;
    w, ghostly := ComposerIsGhost(w, screen);
    assert LastCapture(w.log, k);
    if screen.view.value.composer.Empty? || ghostly {
      assert BoxEmpty(w.log, k);
      return w, Some(false), None;
    }
    return w, None, None;
  }

  /** `n` waits of `cost` each. */
  function Waits(n: nat, cost: nat): nat {
    n * cost
  }

  lemma OneMoreWait(n: nat, cost: nat) returns (m: nat)
    ensures m == n + 1 && Waits(m, cost) == Waits(n, cost) + cost
  {
    m := n + 1;
  }

  datatype Submission = WriteFailed | NoBox | Stuck | Clear

  /** One Enter, gated by what the log shows. */
  method GatedEnter(t: Target, policy: Policy, base: Baseline) returns (w: Target, ok: bool)
    requires Gated(t.log, base, policy) && EnterJustified(t.log, t.now, policy) && !t.broken
    ensures Gated(w.log, base, policy) && t.Unpasted(w) && w.enters == t.enters + 1 && Fresh(w.log) && w.broken == !ok
    ensures w.log == t.log + [Entered(t.now)] && EnteredLast(w.log, |t.log|)
    ensures t.instant ==> w.now == t.now
  {
    WriteKeepsGated(t.log, Entered(t.now), base, policy);
    FreshAfterWrite(t.log, Entered(t.now));
    w, ok := Enter(t);
  }

  /** The capture at `k` does not show this text in the box. */
  predicate ShowsOther(log: seq<Event>, k: nat, text: string) {
    k < |log| && log[k].Captured? && log[k].screen.Some? && Pending(log[k].screen.value) != Some(text)
  }

  /** Wait one submit window; `stuck` when the same text stayed pending throughout. */
  method SubmitWindow(t: Target, policy: Policy, base: Baseline, expected: string) returns (w: Target, stuck: bool)
    requires Gated(t.log, base, policy)
    ensures Gated(w.log, base, policy) && t.Watched(w) && NoReports(w.log, |t.log|)
    ensures stuck ==> StuckWindow(w.log, |t.log|, expected, w.now, policy)
    ensures !stuck ==> |t.log| < |w.log| && ShowsOther(w.log, |w.log| - 1, expected)
    ensures t.instant ==> w.now <= t.now + Window(policy.submitMs, policy.pollMs)
  {
    var cleared;
    w, cleared := WaitUntil(t, policy.submitMs, policy.pollMs, s => Pending(s) != Some(expected));
    WatchingKeepsGated(t, w, base, policy);
    stuck := cleared.None?;
  }

  lemma LeavesBox(t: Target, text: string)
    requires |t.log| > 0 && ShowsOther(t.log, |t.log| - 1, text) && TextShown(t.log, text)
    requires exists e :: EnteredLast(t.log, e)
    ensures Left(t.log)
  {
    var e: nat :| EnteredLast(t.log, e);
    assert LeftAt(t.log, e, |t.log| - 1);
  }

  /** Enter again while the same payload stays pending for a whole window; `n` windows in all. */
  method PressWhilePending(t: Target, policy: Policy, base: Baseline, text: Option<string>)
    returns (w: Target, r: Submission, ghost n: nat)
    requires Gated(t.log, base, policy) && t.enters >= 1 && Fresh(t.log) && !t.broken
    requires (if text.Some? then TextShown(t.log, text.value) else Left(t.log)) && exists e :: EnteredLast(t.log, e)
    ensures Gated(w.log, base, policy) && t.Unpasted(w) && w.enters <= Max(t.enters, policy.maxEnters)
    ensures Fresh(w.log) && (r.Stuck? ==> StuckShown(w.log, w.now, policy) && w.enters >= policy.maxEnters) && !r.NoBox?
    ensures exists e :: EnteredLast(w.log, e)
    ensures w.enters + 1 == t.enters + n && (w.broken <==> r.WriteFailed?) && w.Halted()
    ensures r.Clear? ==> Left(w.log)
    ensures t.instant ==> w.now <= t.now + Waits(n, Window(policy.submitMs, policy.pollMs))
  {
    w, n := t, 0;
    var cost := Window(policy.submitMs, policy.pollMs);
    if text.None? { return w, Clear, 1; }
    while true
      invariant Gated(w.log, base, policy) && t.Unpasted(w) && w.enters <= Max(t.enters, policy.maxEnters)
      invariant w.enters == t.enters + n && Fresh(w.log) && TextShown(w.log, text.value) && !w.broken
      invariant exists e :: EnteredLast(w.log, e)
      invariant t.instant ==> w.now <= t.now + Waits(n, cost)
      decreases policy.maxEnters - w.enters
    {
      var u, stuck := SubmitWindow(w, policy, base, text.value);
      UnpastedTwice(t, w, u);
      FreshStays(w.log, u.log);
      TextStays(w, u, text.value);
      EnterStaysLast(w, u);
      n := OneMoreWait(n, cost);
      w := u;
      if !stuck {
        LeavesBox(w, text.value);
        return w, Clear, n;
      }
      if w.enters >= policy.maxEnters { return w, Stuck, n; }
      var ok;
      u, ok := GatedEnter(w, policy, base);
      UnpastedTwice(t, w, u);
      TextStays(w, u, text.value);
      w := u;
      if !ok {
        n := OneMoreWait(n, cost);
        return w, WriteFailed, n;
      }
    }
  }

  /** The third phase: Enter, a late look when the box was unreadable, then Enter retries. */
  method Submit(t: Target, policy: Policy, base: Baseline, landed: Option<bool>, text: Option<string>)
    returns (w: Target, r: Submission, ghost n: nat)
    requires Gated(t.log, base, policy) && EnterJustified(t.log, t.now, policy) && !t.broken
    requires (text.Some? ==> TextShown(t.log, text.value)) && (landed.Some? ==> text.Some?)
    requires landed.None? ==> exists p :: PastedUnseen(t.log, p)
    ensures Gated(w.log, base, policy) && t.Unpasted(w) && Fresh(w.log) && exists e :: EnteredLast(w.log, e)
    ensures r.Stuck? ==> StuckShown(w.log, w.now, policy) && w.enters >= policy.maxEnters
    ensures (r.NoBox? ==> Unread(w.log, w.now, policy)) && (r.Clear? ==> Left(w.log))
    ensures (w.broken <==> r.WriteFailed?) && w.Halted()
    ensures t.enters < w.enters <= Max(t.enters + 1, policy.maxEnters) && w.enters == t.enters + n
    ensures t.instant ==> w.now <= t.now + Window(policy.lateLookMs, policy.pollMs)
                                   + Waits(n, Window(policy.submitMs, policy.pollMs))
  {
    var u, ok := GatedEnter(t, policy, base);
    n := OneMoreWait(0, Window(policy.submitMs, policy.pollMs));
    if !ok { return u, WriteFailed, 1; }
    if text.Some? { TextStays(t, u, text.value); }
    var pending := text;
    if landed.None? {
      var v, late := LateLook(t, u, policy, base);
      UnpastedTwice(t, u, v);
      u := v;
      if late.None? { return u, NoBox, 1; }
      pending := Pending(late.value);
    }
    w, r, n := PressWhilePending(u, policy, base, pending);
    UnpastedTwice(t, u, w);
  }

  /** The last paste, at `p`, has not been seen in the box. */
  ghost predicate PastedUnseen(log: seq<Event>, p: nat) {
    p < |log| && log[p].Pasted? && NoPastes(log, p + 1) && Unseen(log, p)
  }

  predicate HasView(s: Screen) {
    s.view.Some?
  }

  /** Right after the Enter that made `u` of `t`: wait for a box that can be read. */
  method LateLook(ghost t: Target, u: Target, policy: Policy, base: Baseline)
    returns (w: Target, late: Option<Screen>)
    requires Gated(u.log, base, policy) && Fresh(u.log) && t.now <= u.now
    requires u.log == t.log + [Entered(t.now)] && EnteredLast(u.log, |t.log|) && exists p :: PastedUnseen(t.log, p)
    ensures Gated(w.log, base, policy) && Fresh(w.log) && u.Watched(w) && exists e :: EnteredLast(w.log, e)
    ensures late.None? ==> Unread(w.log, w.now, policy)
    ensures late.Some? ==>
              if Pending(late.value).Some? then TextShown(w.log, Pending(late.value).value) else Left(w.log)
    ensures u.instant ==> w.now <= u.now + Window(policy.lateLookMs, policy.pollMs)
  {
    w, late := AwaitView(u, policy, base);
    EnterStaysLast(u, w);
    if late.None? {
      NothingRead(t, u, w, policy);
    } else if Pending(late.value).Some? {
      LastTextShown(w.log, Pending(late.value).value);
    } else {
      ghost var e: nat :| EnteredLast(w.log, e);
      assert LeftAt(w.log, e, |w.log| - 1);
    }
  }

  method AwaitView(t: Target, policy: Policy, base: Baseline) returns (w: Target, late: Option<Screen>)
    requires Gated(t.log, base, policy) && Fresh(t.log)
    ensures Gated(w.log, base, policy) && Fresh(w.log) && t.Watched(w)
    ensures late.None? ==> t.now + policy.lateLookMs <= w.now && NoneDone(w.log, |t.log|, HasView)
    ensures late.Some? ==> |t.log| < |w.log| && w.log[|w.log| - 1].Captured? && w.log[|w.log| - 1].screen == late
    ensures t.instant ==> w.now <= t.now + Window(policy.lateLookMs, policy.pollMs)
  {
    w, late := WaitUntil(t, policy.lateLookMs, policy.pollMs, HasView);
    WatchingKeepsGated(t, w, base, policy);
    FreshStays(t.log, w.log);
  }

  lemma LastTextShown(log: seq<Event>, text: string)
    requires |log| > 0 && ShowsText(log, |log| - 1, text)
    ensures TextShown(log, text)
  {
    var k := |log| - 1;
    assert ShowsText(log, k, text) && NoPastes(log, k + 1);
  }

  lemma NothingRead(t: Target, u: Target, w: Target, policy: Policy)
    requires (exists p :: PastedUnseen(t.log, p)) && u.log == t.log + [Entered(t.now)] && u.Watched(w) && Fresh(w.log)
    requires NoneDone(w.log, |u.log|, HasView) && t.now + policy.lateLookMs <= w.now
    ensures Unread(w.log, w.now, policy)
  {
    var p: nat :| PastedUnseen(t.log, p);
    BoxNeverRead(t, u, w, p, policy);
  }

  lemma BoxNeverRead(t: Target, u: Target, w: Target, p: nat, policy: Policy)
    requires PastedUnseen(t.log, p) && u.log == t.log + [Entered(t.now)] && u.Watched(w)
    requires NoneDone(w.log, |u.log|, HasView) && t.now + policy.lateLookMs <= w.now
    ensures Unreadable(w.log, p, |t.log|, w.now, policy)
  {
    var e := |t.log|;
    forall j | 0 <= j <= e ensures w.log[j] == u.log[j] {
    }
    assert w.log[e] == Entered(t.now);
    forall j | p + 1 <= j < |w.log| ensures !w.log[j].Pasted? {
      if j < e { assert w.log[j] == t.log[j]; }
    }
    forall k | p <= k < |w.log| && w.log[k].Captured? && w.log[k].screen.Some?
      ensures Pending(w.log[k].screen.value).None?
    {
      if k < e { assert w.log[k] == t.log[k]; }
    }
  }

  /** `untouched`: the box is empty and the transcript is the pre-send one. */
  method Untouched(t: Target, s: Screen, base: Baseline) returns (w: Target, r: bool, ghost ghostly: bool)
    requires |t.log| > 0 && t.log[|t.log| - 1].Captured? && t.log[|t.log| - 1].screen == Some(s)
    ensures t.Watched(w) && (t.instant ==> w.now == t.now)
    ensures w.log == t.log + if HoldsText(s) then [Styled(t.now, ghostly)] else []
    ensures r == PreSend(s, ghostly, base)
    ensures r ==> BoxEmpty(w.log, |t.log| - 1)
                  && (base.above.Some? ==> s.view.value.above == base.above.value)
  {
    w, ghostly := t, false;
    if s.view.None? { return w, false, ghostly; }
    var g;
    w, g := ComposerIsGhost(w, s);
    ghostly := g;
    r := (s.view.value.composer.Empty? || g)
         && (base.above.None? || base.above.value == s.view.value.above);
  }

  /** The box is empty, or holds a ghost, over the transcript of the pre-send screen. */
  predicate PreSend(s: Screen, ghostly: bool, base: Baseline) {
    && s.view.Some? && (s.view.value.composer.Empty? || ghostly)
    && (base.above.None? || base.above.value == s.view.value.above)
  }

  /** What the target answers to one poll of the working phase. */
  datatype Reply = Reply(working: bool, screen: Option<Screen>, ghostly: bool)
  {
    /** What the poll leaves in the log when its operations are issued at these times. */
    function EventsAt(a: nat, b: nat, c: nat): seq<Event> {
      [Reported(a, working)] + [Captured(b, screen)]
      + if screen.Some? && HoldsText(screen.value) then [Styled(c, ghostly)] else []
    }

    function Events(now: nat): seq<Event> {
      EventsAt(now, now, now)
    }

    /** No echo, no new work and no report of work. */
    predicate Silent(base: Baseline) {
      !working && (screen.Some? ==> EchoCount(screen.value) <= base.echoes && (IsBusy(screen.value) ==> base.queued))
    }
  }

  /** What the working phase has seen. */
  datatype Watch = Watch(echoed: bool, evidence: Option<Evidence>, untouched: bool, echoScreen: Option<Lines>)
  {
    predicate Quiet() {
      !echoed && evidence.None? && untouched
    }

    /** Without echo or evidence all is calm, and `untouched` says what the last successful capture shows. */
    ghost predicate Explains(log: seq<Event>, from: nat, k: nat, base: Baseline) {
      && (!untouched ==> forall m: nat :: from <= m ==> !LastShowsPreSend(log, m, base))
      && (!echoed && evidence.None? ==> forall m :: from <= m < |log| ==> Calm(log[m], base))
      && (untouched ==> from <= k && LastShowsPreSend(log, k, base))
    }

    /** Echo, evidence and echo screen are those of the log since `from`. */
    ghost predicate Tells(log: seq<Event>, from: nat, base: Baseline) {
      && EchoTold(log, from, base) && WorkTold(log, from, base)
      && MovementTold(log, from, base) && ScreenTold(log, from, base)
    }

    ghost predicate EchoTold(log: seq<Event>, from: nat, base: Baseline) {
      echoed <==> exists e :: from <= e && EchoAt(log, e, base)
    }

    ghost predicate WorkTold(log: seq<Event>, from: nat, base: Baseline) {
      && (evidence.Some? ==> Shows(log, from, evidence.value, base))
      && (evidence.None? ==> forall m :: from <= m < |log| ==> !WorkAt(log, m, base))
    }

    /** Without evidence, every view since the echo is the one kept. */
    ghost predicate MovementTold(log: seq<Event>, from: nat, base: Baseline) {
      evidence.None? ==> forall m :: EchoedView(log, from, m, base) ==> echoScreen == Some(AboveAt(log, m))
    }

    ghost predicate ScreenTold(log: seq<Event>, from: nat, base: Baseline) {
      echoScreen.Some? ==> exists m :: EchoedView(log, from, m, base) && AboveAt(log, m) == echoScreen.value
    }

    ghost predicate Chosen(log: seq<Event>, from: nat, base: Baseline) {
      evidence.Some? ==> Strongest(log, from, evidence.value, base)
    }

    /** One more capture: busy indicator, echo, and movement after the echo. */
    function Sees(s: Screen, base: Baseline): Watch {
      var busy := if !base.queued && IsBusy(s) && evidence.None? then Some(BusyIndicator) else evidence;
      var echo := echoed || EchoCount(s) > base.echoes;
      if echo && s.view.Some? && echoScreen.None? then
        Watch(echo, busy, untouched, Some(s.view.value.above))
      else if echo && s.view.Some? && echoScreen.value != s.view.value.above && busy.None? then
        Watch(echo, Some(TranscriptActivity), untouched, echoScreen)
      else Watch(echo, busy, untouched, echoScreen)
    }

    /** One more poll. */
    function Hears(r: Reply, base: Baseline): Watch {
      var told := if r.working then this.(evidence := Some(HarnessWorking)) else this;
      if r.screen.None? then told
      else told.Sees(r.screen.value, base).(untouched := PreSend(r.screen.value, r.ghostly, base))
    }

    /** The working phase is over. */
    predicate Ends(now: nat, deadline: nat, policy: Policy, base: Baseline, mayResend: bool) {
      evidence.Some? || (policy.ackMs == 0 && echoed)
      || (Quiet() && now >= base.since + ARRIVAL_MS && mayResend) || now >= deadline
    }
  }

  const NOTHING_SEEN := Watch(false, None, false, None)

  /** An event that says nothing about work or echo. */
  predicate Neutral(e: Event) {
    !(e.Reported? && e.working) && !(e.Captured? && e.screen.Some?)
  }

  /** What an earlier position of the log shows stays as it is. */
  lemma EarlierStays(log: seq<Event>, e: Event, from: nat, m: nat, base: Baseline)
    requires m < |log|
    ensures EchoAt(log + [e], m, base) == EchoAt(log, m, base) && WorkAt(log + [e], m, base) == WorkAt(log, m, base)
    ensures ViewAt(log + [e], m) == ViewAt(log, m) && (ViewAt(log, m) ==> AboveAt(log + [e], m) == AboveAt(log, m))
    ensures EchoedView(log + [e], from, m, base) == EchoedView(log, from, m, base)
  {
    var all := log + [e];
    assert forall i :: 0 <= i <= m ==> all[i] == log[i];
    if EchoedView(all, from, m, base) {
      var i :| from <= i <= m && EchoAt(all, i, base);
      assert EchoAt(log, i, base);
    }
    if EchoedView(log, from, m, base) {
      var i :| from <= i <= m && EchoAt(log, i, base);
      assert EchoAt(all, i, base);
    }
  }

  lemma ShownStays(log: seq<Event>, e: Event, from: nat, evidence: Evidence, base: Baseline)
    requires Shows(log, from, evidence, base)
    ensures Shows(log + [e], from, evidence, base)
  {
    if evidence.TranscriptActivity? {
      var i: nat, j: nat :| Moved(log, from, i, j, base);
      EarlierStays(log, e, from, i, base);
      EarlierStays(log, e, from, j, base);
      assert Moved(log + [e], from, i, j, base);
    } else {
      var m: nat :| from <= m && WorkAt(log, m, base) && (log[m].Captured? <==> evidence.BusyIndicator?);
      EarlierStays(log, e, from, m, base);
      assert WorkAt(log + [e], m, base) && (log + [e])[m] == log[m];
    }
  }

  /** `y` is `x` after the event at the end of `all`, clause by clause of `Tells`. */
  ghost predicate Learns(x: Watch, y: Watch, all: seq<Event>, from: nat, base: Baseline)
    requires |all| > 0
  {
    var n := |all| - 1;
    && (y.echoed <==> x.echoed || EchoAt(all, n, base))
    && (y.evidence.Some? ==> y.evidence == x.evidence || Shows(all, from, y.evidence.value, base))
    && (y.evidence.None? ==> x.evidence.None? && !WorkAt(all, n, base)
                             && (ViewAt(all, n) && y.echoed ==> y.echoScreen == Some(AboveAt(all, n))))
    && (x.echoScreen.Some? ==> y.echoScreen == x.echoScreen)
    && (y.echoScreen.Some? ==> x.echoScreen.Some?
                               || (ViewAt(all, n) && y.echoed && AboveAt(all, n) == y.echoScreen.value))
  }

  lemma EchoStaysTold(x: Watch, y: Watch, log: seq<Event>, e: Event, from: nat, base: Baseline)
    requires x.EchoTold(log, from, base) && from <= |log| && Learns(x, y, log + [e], from, base)
    ensures y.EchoTold(log + [e], from, base)
  {
    var all := log + [e];
    if i: nat :| from <= i && EchoAt(log, i, base) {
      EarlierStays(log, e, from, i, base);
      assert EchoAt(all, i, base);
    }
    if i: nat :| from <= i && EchoAt(all, i, base) {
      if i < |log| { EarlierStays(log, e, from, i, base); }
    }
  }

  lemma WorkStaysTold(x: Watch, y: Watch, log: seq<Event>, e: Event, from: nat, base: Baseline)
    requires x.WorkTold(log, from, base) && from <= |log| && Learns(x, y, log + [e], from, base)
    ensures y.WorkTold(log + [e], from, base)
  {
    if y.evidence.None? {
      forall m | from <= m < |log| ensures !WorkAt(log + [e], m, base) {
        EarlierStays(log, e, from, m, base);
      }
    } else if y.evidence == x.evidence {
      ShownStays(log, e, from, x.evidence.value, base);
    }
  }

  lemma MovementStaysTold(x: Watch, y: Watch, log: seq<Event>, e: Event, from: nat, base: Baseline)
    requires x.MovementTold(log, from, base) && Learns(x, y, log + [e], from, base)
    requires y.EchoTold(log + [e], from, base)
    ensures y.MovementTold(log + [e], from, base)
  {
    var all := log + [e];
    if y.evidence.None? {
      forall m: nat | EchoedView(all, from, m, base) ensures y.echoScreen == Some(AboveAt(all, m)) {
        if m < |log| { EarlierStays(log, e, from, m, base); }
      }
    }
  }

  lemma ScreenStaysTold(x: Watch, y: Watch, log: seq<Event>, e: Event, from: nat, base: Baseline)
    requires x.ScreenTold(log, from, base) && Learns(x, y, log + [e], from, base)
    requires y.EchoTold(log + [e], from, base)
    ensures y.ScreenTold(log + [e], from, base)
  {
    var all, n := log + [e], |log|;
    if x.echoScreen.Some? {
      var m: nat :| EchoedView(log, from, m, base) && AboveAt(log, m) == x.echoScreen.value;
      EarlierStays(log, e, from, m, base);
      assert EchoedView(all, from, m, base);
    } else if y.echoScreen.Some? {
      var i: nat :| from <= i && EchoAt(all, i, base);
      assert EchoedView(all, from, n, base);
    }
  }

  lemma TellsOn(x: Watch, y: Watch, log: seq<Event>, e: Event, from: nat, base: Baseline)
    requires x.Tells(log, from, base) && from <= |log| && Learns(x, y, log + [e], from, base)
    ensures y.Tells(log + [e], from, base)
  {
    EchoStaysTold(x, y, log, e, from, base);
    WorkStaysTold(x, y, log, e, from, base);
    MovementStaysTold(x, y, log, e, from, base);
    ScreenStaysTold(x, y, log, e, from, base);
  }

  /** An event without news. */
  lemma TellsNeutral(x: Watch, log: seq<Event>, e: Event, from: nat, base: Baseline)
    requires x.Tells(log, from, base) && Neutral(e) && from <= |log|
    ensures x.Tells(log + [e], from, base)
  {
    TellsOn(x, x, log, e, from, base);
  }

  /** What the watch takes from the harness's own report. */
  function Asks(x: Watch, working: bool): Watch {
    if working then x.(evidence := Some(HarnessWorking)) else x
  }

  lemma TellsReport(x: Watch, log: seq<Event>, e: Event, from: nat, base: Baseline)
    requires x.Tells(log, from, base) && e.Reported? && from <= |log|
    ensures Asks(x, e.working).Tells(log + [e], from, base)
  {
    var n := |log|;
    if e.working {
      assert WorkAt(log + [e], n, base) && (log + [e])[n] == e;
    }
    TellsOn(x, Asks(x, e.working), log, e, from, base);
  }

  /** A capture with a screen. */
  lemma TellsScreen(x: Watch, log: seq<Event>, e: Event, from: nat, base: Baseline)
    requires x.Tells(log, from, base) && from <= |log| && e.Captured? && e.screen.Some?
    ensures x.Sees(e.screen.value, base).Tells(log + [e], from, base)
  {
    var y := x.Sees(e.screen.value, base);
    if y.evidence.Some? && y.evidence != x.evidence { SeesWork(x, log, e, from, base); }
    TellsOn(x, y, log, e, from, base);
  }

  /** New evidence from a screen is in the log. */
  lemma SeesWork(x: Watch, log: seq<Event>, e: Event, from: nat, base: Baseline)
    requires x.Tells(log, from, base) && from <= |log| && e.Captured? && e.screen.Some?
    requires x.Sees(e.screen.value, base).evidence.Some? && x.Sees(e.screen.value, base).evidence != x.evidence
    ensures Shows(log + [e], from, x.Sees(e.screen.value, base).evidence.value, base)
  {
    var all, n := log + [e], |log|;
    assert all[n] == e;
    if x.Sees(e.screen.value, base).evidence == Some(TranscriptActivity) {
      var i: nat :| EchoedView(log, from, i, base) && AboveAt(log, i) == x.echoScreen.value;
      EarlierStays(log, e, from, i, base);
      assert Moved(all, from, i, n, base);
    } else {
      assert WorkAt(all, n, base);
    }
  }

  lemma UntouchedTellsNothing(x: Watch, untouched: bool, log: seq<Event>, from: nat, base: Baseline)
    requires x.Tells(log, from, base)
    ensures x.(untouched := untouched).Tells(log, from, base)
  {
    var y := x.(untouched := untouched);
    assert y.EchoTold(log, from, base) && y.WorkTold(log, from, base);
    assert y.MovementTold(log, from, base) && y.ScreenTold(log, from, base);
  }

  /** One poll. */
  lemma TellsReply(x: Watch, log: seq<Event>, r: Reply, a: nat, b: nat, c: nat, from: nat, base: Baseline)
    requires x.Tells(log, from, base) && from <= |log|
    ensures x.Hears(r, base).Tells(log + r.EventsAt(a, b, c), from, base)
  {
    var y, told := Asks(x, r.working), log + [Reported(a, r.working)];
    TellsReport(x, log, Reported(a, r.working), from, base);
    var seen := told + [Captured(b, r.screen)];
    if r.screen.None? {
      TellsNeutral(y, told, Captured(b, r.screen), from, base);
      assert log + r.EventsAt(a, b, c) == seen;
    } else {
      TellsScreen(y, told, Captured(b, r.screen), from, base);
      var z := y.Sees(r.screen.value, base);
      if HoldsText(r.screen.value) {
        TellsNeutral(z, seen, Styled(c, r.ghostly), from, base);
        assert log + r.EventsAt(a, b, c) == seen + [Styled(c, r.ghostly)];
      } else {
        assert log + r.EventsAt(a, b, c) == seen;
      }
      UntouchedTellsNothing(z, PreSend(r.screen.value, r.ghostly, base), log + r.EventsAt(a, b, c), from, base);
    }
  }

  /** One poll of the working phase. */
  method Look(t: Target, x: Watch, base: Baseline, ghost from: nat, ghost k: nat)
    returns (w: Target, y: Watch, ghost k': nat, ghost r: Reply)
    requires x.Explains(t.log, from, k, base) && from <= |t.log| && x.Tells(t.log, from, base)
    ensures t.Watched(w) && y.Explains(w.log, from, k', base) && y.Tells(w.log, from, base)
    ensures |t.log| < |w.log| && w.log[|t.log|].Reported? && w.log[|t.log|].at == t.now
    ensures y == x.Hears(r, base) && (forall m :: |t.log| <= m < |w.log| ==> !w.log[m].Slept?)
    ensures x.evidence.None? ==> y.Chosen(w.log, from, base)
    ensures t.instant ==> w == t.(log := t.log + r.Events(t.now))
  {
    ghost var a, b, c;
    w, y, r, a, b, c := Poll(t, x, base);
    k' := if r.screen.Some? then |t.log| + 1 else k;
    ExplainsReply(x, t.log, r, a, b, c, from, k, base);
    TellsReply(x, t.log, r, a, b, c, from, base);
    if x.evidence.None? { ChoosesBest(x, t.log, r, a, b, c, from, base); }
  }

  lemma ChoosesBest(x: Watch, log: seq<Event>, r: Reply, a: nat, b: nat, c: nat, from: nat, base: Baseline)
    requires x.evidence.None? && x.WorkTold(log, from, base) && from <= |log|
    ensures x.Hears(r, base).Chosen(log + r.EventsAt(a, b, c), from, base)
  {
    var all, n := log + r.EventsAt(a, b, c), |log|;
    assert all[n] == Reported(a, r.working) && all[n + 1] == Captured(b, r.screen);
    forall m | from <= m < n ensures !WorkAt(all, m, base) {
      assert all[m] == log[m] && !WorkAt(log, m, base);
    }
  }

  lemma ExplainsReply(x: Watch, log: seq<Event>, r: Reply, a: nat, b: nat, c: nat, from: nat, k: nat, base: Baseline)
    requires x.Explains(log, from, k, base) && from <= |log|
    ensures x.Hears(r, base).Explains(log + r.EventsAt(a, b, c), from, if r.screen.Some? then |log| + 1 else k, base)
  {
    var all := log + r.EventsAt(a, b, c);
    assert all[|log|] == Reported(a, r.working) && all[|log| + 1] == Captured(b, r.screen);
    if r.screen.None? {
      assert all == log + [Reported(a, r.working), Captured(b, r.screen)];
      forall m: nat | from <= m ensures LastShowsPreSend(all, m, base) == LastShowsPreSend(log, m, base) {
        PreSendStays(log, [Reported(a, r.working), Captured(b, r.screen)], m, base);
      }
    } else {
      ReplyShowsPreSend(log, r, a, b, c, base);
    }
  }

  /** Events without a screen and without styling leave what the last successful capture shows. */
  lemma PreSendStays(log: seq<Event>, more: seq<Event>, m: nat, base: Baseline)
    requires forall e :: e in more ==> !e.Styled? && !(e.Captured? && e.screen.Some?)
    ensures LastShowsPreSend(log + more, m, base) == LastShowsPreSend(log, m, base)
  {
    var all := log + more;
    forall j | |log| <= j < |all| ensures !all[j].Styled? && !(all[j].Captured? && all[j].screen.Some?) {
      assert all[j] in more;
    }
    BoxStays(log, more, m);
    if m < |log| {
      assert forall j :: m <= j < |log| ==> all[j] == log[j];
    }
  }

  lemma BoxStays(log: seq<Event>, more: seq<Event>, m: nat)
    requires forall j :: |log| <= j < |log + more| ==>
               !(log + more)[j].Styled? && !((log + more)[j].Captured? && (log + more)[j].screen.Some?)
    ensures BoxEmpty(log + more, m) == BoxEmpty(log, m)
  {
  }

  /** After a reply with a screen, that capture is the last successful one. */
  lemma ReplyShowsPreSend(log: seq<Event>, r: Reply, a: nat, b: nat, c: nat, base: Baseline)
    requires r.screen.Some?
    ensures var all, n := log + r.EventsAt(a, b, c), |log| + 1;
            && (PreSend(r.screen.value, r.ghostly, base) <==> LastShowsPreSend(all, n, base))
            && forall m: nat :: LastShowsPreSend(all, m, base) ==> m == n
  {
    var all, n := log + r.EventsAt(a, b, c), |log| + 1;
    assert all[n] == Captured(b, r.screen);
    assert HoldsText(r.screen.value) ==> all[n + 1] == Styled(c, r.ghostly);
  }

  method Poll(t: Target, x: Watch, base: Baseline)
    returns (w: Target, y: Watch, ghost r: Reply, ghost a: nat, ghost b: nat, ghost c: nat)
    ensures t.Watched(w) && y == x.Hears(r, base) && w.log == t.log + r.EventsAt(a, b, c)
    ensures a == t.now && (t.instant ==> w.now == b == c == t.now)
  {
    var working, s;
    a := t.now;
    w, working := ReportedWorking(t);
    y := Asks(x, working);
    b := w.now;
    w, s := Capture(w);
    c := w.now;
    r := Reply(working, s, false);
    if s.Some? {
      y := y.Sees(s.value, base);
      var untouched;
      ghost var ghostly;
      w, untouched, ghostly := Untouched(w, s.value, base);
      y := y.(untouched := untouched);
      r := Reply(working, s, ghostly);
    }
  }

  /** An instant target after one poll. */
  function Polled(t: Target, r: Reply): Target {
    t.(log := t.log + r.Events(t.now))
  }

  /** An instant target after a sleep. */
  function Slumbered(t: Target, ms: nat): Target {
    t.(log := t.log + [Slept(t.now, ms)], now := t.now + ms)
  }

  /** An instant target, and what was seen of it, after these polls with sleeps in between. */
  function Polls(t: Target, base: Baseline, poll: nat, replies: seq<Reply>): (Target, Watch) {
    if replies == [] then (t, NOTHING_SEEN)
    else
      var (u, x) := Polls(t, base, poll, replies[..|replies| - 1]);
      var r := replies[|replies| - 1];
      (Polled(if |replies| == 1 then u else Slumbered(u, poll), r), x.Hears(r, base))
  }

  function WorkDeadline(now: nat, policy: Policy): nat {
    now + Max(policy.ackMs, ARRIVAL_MS)
  }

  /** The phase that began at `t` is over after these replies. */
  predicate OverAfter(t: Target, policy: Policy, base: Baseline, mayResend: bool, replies: seq<Reply>) {
    var (u, x) := Polls(t, base, policy.pollMs, replies);
    replies != [] && x.Ends(u.now, WorkDeadline(t.now, policy), policy, base, mayResend)
  }

  /** The fourth phase: watch for the echo and for work until the ack window closes. */
  method AwaitWork(t: Target, policy: Policy, base: Baseline, mayResend: bool)
    returns (w: Target, x: Watch, ghost replies: seq<Reply>, ghost k: nat)
    requires policy.pollMs >= 1 && base.since <= t.now && Fresh(t.log)
    ensures t.Watched(w) && StartOfWatch(w.log, |t.log|) && x.Tells(w.log, |t.log|, base)
    ensures x.Explains(w.log, |t.log|, k, base) && w.log[|t.log|].at == t.now && x.Chosen(w.log, |t.log|, base)
    ensures DulySlept(w.log, |t.log|, WorkDeadline(t.now, policy), policy, base)
    ensures x.Ends(w.now, WorkDeadline(t.now, policy), policy, base, mayResend)
    ensures x.Quiet() ==> exists k :: Vanished(w.log, |t.log|, k, w.now, base)
    ensures t.instant ==> w.now <= t.now + Window(Max(policy.ackMs, ARRIVAL_MS), policy.pollMs)
    ensures t.instant ==> (w, x) == Polls(t, base, policy.pollMs, replies)
    ensures t.instant ==> OverAfter(t, policy, base, mayResend, replies)
    ensures t.instant ==> forall j :: 0 <= j < |replies| ==> !OverAfter(t, policy, base, mayResend, replies[..j])
  {
    var deadline := WorkDeadline(t.now, policy);
    w, x, replies, k := t, NOTHING_SEEN, [], 0;
    while true
      invariant t.Watched(w) && x.Explains(w.log, |t.log|, k, base) && x.Tells(w.log, |t.log|, base)
      invariant replies != [] ==> |t.log| < |w.log| && w.log[|t.log|].Reported? && w.log[|t.log|].at == t.now
      invariant (replies == [] ==> w == t) && x.evidence.None? && DulySlept(w.log, |t.log|, deadline, policy, base)
      invariant t.instant ==> w.now < deadline + policy.pollMs
      invariant t.instant ==> InProgress(t, w, x, policy, base, mayResend, replies)
      decreases deadline + policy.pollMs - w.now
    {
      w, x, k, replies := PollOnce(t, w, x, policy, base, mayResend, replies, k, deadline);
      if x.Ends(w.now, deadline, policy, base, mayResend) {
        if x.Quiet() { assert Vanished(w.log, |t.log|, k, w.now, base); }
        WatchBegan(t, w);
        return;
      }
      if t.instant { SleepsOn(t, w, x, policy, base, mayResend, replies); }
      w := Doze(t, w, x, k, policy, base, deadline);
    }
  }

  /** The sleep between two polls. */
  method Doze(ghost t: Target, v: Target, ghost x: Watch, ghost k: nat, policy: Policy, ghost base: Baseline,
              ghost deadline: nat)
    returns (w: Target)
    requires t.Watched(v) && x.Explains(v.log, |t.log|, k, base) && x.Tells(v.log, |t.log|, base)
    requires x.evidence.None? && !(policy.ackMs == 0 && x.echoed) && v.now < deadline
    requires DulySlept(v.log, |t.log|, deadline, policy, base)
    ensures DulySlept(w.log, |t.log|, deadline, policy, base)
    ensures t.Watched(w) && x.Explains(w.log, |t.log|, k, base) && x.Tells(w.log, |t.log|, base)
    ensures v.log <= w.log && v.now + policy.pollMs <= w.now && (t.instant ==> w == Slumbered(v, policy.pollMs))
  {
    w := Sleep(v, policy.pollMs);
    WatchedTwice(t, v, w);
    forall m: nat ensures LastShowsPreSend(w.log, m, base) == LastShowsPreSend(v.log, m, base) {
      PreSendStays(v.log, [Slept(v.now, policy.pollMs)], m, base);
    }
    TellsNeutral(x, v.log, Slept(v.now, policy.pollMs), |t.log|, base);
    DozesDuly(x, v.log, Slept(v.now, policy.pollMs), |t.log|, deadline, policy, base);
  }

  /** A sleep at `m` comes before the deadline, and nothing that ends the watch was seen before it. */
  ghost predicate DulyAt(log: seq<Event>, from: nat, m: nat, deadline: nat, policy: Policy, base: Baseline)
    requires m < |log|
  {
    log[m].Slept? ==>
      && log[m].at < deadline
      && forall j :: from <= j < m ==> !WorkAt(log, j, base) && (policy.ackMs == 0 ==> !EchoAt(log, j, base))
  }

  /** The watch ends as soon as it can: no sleep after work was seen, or after the echo when that is enough. */
  ghost predicate DulySlept(log: seq<Event>, from: nat, deadline: nat, policy: Policy, base: Baseline) {
    forall m :: from <= m < |log| ==> DulyAt(log, from, m, deadline, policy, base)
  }

  lemma DulyStays(log: seq<Event>, more: seq<Event>, from: nat, deadline: nat, policy: Policy, base: Baseline)
    requires DulySlept(log, from, deadline, policy, base) && log <= more
    requires forall m :: |log| <= m < |more| ==> !more[m].Slept?
    ensures DulySlept(more, from, deadline, policy, base)
  {
    forall m | from <= m < |more| ensures DulyAt(more, from, m, deadline, policy, base) {
      if m < |log| { DulySame(log, more, from, m, deadline, policy, base); }
    }
  }

  lemma DulySame(log: seq<Event>, more: seq<Event>, from: nat, m: nat, deadline: nat, policy: Policy, base: Baseline)
    requires m < |log| && log <= more
    ensures DulyAt(log, from, m, deadline, policy, base) ==> DulyAt(more, from, m, deadline, policy, base)
  {
    forall j | 0 <= j < |log|
      ensures WorkAt(more, j, base) == WorkAt(log, j, base) && EchoAt(more, j, base) == EchoAt(log, j, base)
    {
      assert more[j] == log[j];
    }
  }

  lemma DozesDuly(x: Watch, log: seq<Event>, e: Event, from: nat, deadline: nat, policy: Policy, base: Baseline)
    requires DulySlept(log, from, deadline, policy, base) && x.Tells(log, from, base) && e.Slept?
    requires x.evidence.None? && !(policy.ackMs == 0 && x.echoed) && e.at < deadline
    ensures DulySlept(log + [e], from, deadline, policy, base)
  {
    var all := log + [e];
    forall m | from <= m < |all| ensures DulyAt(all, from, m, deadline, policy, base) {
      if m < |log| {
        DulySame(log, all, from, m, deadline, policy, base);
      } else {
        forall j | from <= j < m ensures !WorkAt(all, j, base) && (policy.ackMs == 0 ==> !EchoAt(all, j, base)) {
          EarlierStays(log, e, from, j, base);
        }
      }
    }
  }

  lemma WatchBegan(t: Target, w: Target)
    requires Fresh(t.log) && t.Watched(w) && |t.log| < |w.log| && w.log[|t.log|].Reported? && w.log[|t.log|].at == t.now
    ensures StartOfWatch(w.log, |t.log|)
  {
    forall m | 0 <= m < |t.log| ensures Superseded(w.log, m, |t.log|) {
      assert t.log[m] == w.log[m] && Superseded(t.log, m, |t.log|);
      if t.log[m].Reported? {
        var j :| m < j < |t.log| && Writes(t.log[j]);
        assert w.log[j] == t.log[j];
      }
    }
  }

  lemma EvidenceIsWork(x: Watch, log: seq<Event>, from: nat, base: Baseline)
    requires x.Tells(log, from, base)
    ensures x.evidence.Some? <==> WorkIn(log, from, base)
    ensures x.evidence.Some? ==> Shows(log, from, x.evidence.value, base)
  {
    if x.evidence.None? {
      forall evidence ensures !Shows(log, from, evidence, base) {
        forall i: nat, j: nat ensures !Moved(log, from, i, j, base) {
          StillScreen(x, log, from, i, j, base);
        }
      }
    }
  }

  lemma StillScreen(x: Watch, log: seq<Event>, from: nat, i: nat, j: nat, base: Baseline)
    requires x.MovementTold(log, from, base) && x.evidence.None?
    ensures !Moved(log, from, i, j, base)
  {
    if EchoedView(log, from, i, base) && ViewAt(log, j) && i < j {
      var e: nat :| from <= e <= i && EchoAt(log, e, base);
      assert EchoedView(log, from, j, base);
      assert Some(AboveAt(log, i)) == x.echoScreen == Some(AboveAt(log, j));
    }
  }

  /** One poll of the loop, and the replies so far. */
  method PollOnce(ghost t: Target, v: Target, y: Watch, policy: Policy, base: Baseline, ghost mayResend: bool,
                  ghost before: seq<Reply>, ghost k: nat, ghost deadline: nat)
    returns (w: Target, x: Watch, ghost k': nat, ghost replies: seq<Reply>)
    requires t.Watched(v) && y.Explains(v.log, |t.log|, k, base) && y.Tells(v.log, |t.log|, base)
    requires (before == [] ==> v == t) && y.evidence.None? && DulySlept(v.log, |t.log|, deadline, policy, base)
    requires before != [] ==> |t.log| < |v.log| && v.log[|t.log|].Reported? && v.log[|t.log|].at == t.now
    requires t.instant ==> InProgress(t, v, y, policy, base, mayResend, before)
    ensures t.Watched(w) && v.now <= w.now && (t.instant ==> w.now == v.now)
    ensures x.Explains(w.log, |t.log|, k', base) && |replies| == |before| + 1 && x.Tells(w.log, |t.log|, base)
    ensures |t.log| < |w.log| && w.log[|t.log|].Reported? && w.log[|t.log|].at == t.now
    ensures x.Chosen(w.log, |t.log|, base) && DulySlept(w.log, |t.log|, deadline, policy, base)
    ensures t.instant ==> Answered(t, w, x, policy, base, mayResend, replies)
  {
    ghost var r;
    w, x, k', r := Look(v, y, base, |t.log|, k);
    WatchedTwice(t, v, w);
    DulyStays(v.log, w.log, |t.log|, deadline, policy, base);
    if t.instant { PollsOn(t, v, y, policy, base, mayResend, before, r); }
    replies := before + [r];
  }

  /** Right after a reply: the target and what was seen are those of the replies, and it was not over earlier. */
  ghost predicate Answered(t: Target, w: Target, x: Watch, policy: Policy, base: Baseline, mayResend: bool,
                           replies: seq<Reply>) {
    && replies != [] && (w, x) == Polls(t, base, policy.pollMs, replies)
    && forall j :: 0 <= j < |replies| ==> !OverAfter(t, policy, base, mayResend, replies[..j])
  }

  lemma SleepsOn(t: Target, w: Target, x: Watch, policy: Policy, base: Baseline, mayResend: bool, replies: seq<Reply>)
    requires Answered(t, w, x, policy, base, mayResend, replies)
    requires !x.Ends(w.now, WorkDeadline(t.now, policy), policy, base, mayResend)
    ensures InProgress(t, Slumbered(w, policy.pollMs), x, policy, base, mayResend, replies)
  {
    assert replies[..|replies|] == replies;
    assert !OverAfter(t, policy, base, mayResend, replies);
  }

  /** Between two polls: `w` has slept since the last reply, and the phase was not over at any. */
  ghost predicate InProgress(t: Target, w: Target, x: Watch, policy: Policy, base: Baseline, mayResend: bool,
                             replies: seq<Reply>) {
    var (u, y) := Polls(t, base, policy.pollMs, replies);
    && x == y && w == (if replies == [] then u else Slumbered(u, policy.pollMs))
    && forall j :: 0 <= j <= |replies| ==> !OverAfter(t, policy, base, mayResend, replies[..j])
  }

  lemma PollsOn(t: Target, w: Target, x: Watch, policy: Policy, base: Baseline, mayResend: bool,
                replies: seq<Reply>, r: Reply)
    requires InProgress(t, w, x, policy, base, mayResend, replies)
    ensures Answered(t, Polled(w, r), x.Hears(r, base), policy, base, mayResend, replies + [r])
  {
    var all := replies + [r];
    assert all[..|replies|] == replies;
    forall j | 0 <= j <= |replies| ensures !OverAfter(t, policy, base, mayResend, all[..j]) {
      assert all[..j] == replies[..j];
    }
  }

  // ---- The whole delivery ---------------------------------------------------------

  datatype Status = DeliveredWorking | DeliveredIdle | Submitted | Unverified | Failed

  /** How one send ended: the target failed, the payload was positively lost and is sent again, or a verdict. */
  datatype Round = IoFailed | Again | Done(status: Status, evidence: Option<Evidence>)

  /** What one send may cost besides its submit windows. */
  function RoundCost(policy: Policy): nat {
    Window(policy.landingMs, policy.pollMs)
    + Max(Window(RESEND_READY_MS, policy.pollMs),
          Window(policy.lateLookMs, policy.pollMs) + Window(Max(policy.ackMs, ARRIVAL_MS), policy.pollMs))
  }

  /** One paste, gated by what the log shows. */
  method GatedPaste(t: Target, policy: Policy, base: Baseline) returns (w: Target, ok: bool)
    requires Gated(t.log, base, policy) && PasteJustified(t.log, t.now, base, policy) && !t.broken
    ensures Gated(w.log, base, policy) && w.log == t.log + [Pasted(t.now)] && w.instant == t.instant && w.broken == !ok
    ensures w.pastes == t.pastes + 1 && w.enters == t.enters && t.now <= w.now && (t.instant ==> w.now == t.now)
  {
    WriteKeepsGated(t.log, Pasted(t.now), base, policy);
    w, ok := Paste(t);
  }

  /** The only watch decides whether work was seen. */
  lemma WatchShows(x: Watch, log: seq<Event>, from: nat, base: Baseline)
    requires StartOfWatch(log, from) && x.Tells(log, from, base) && x.Chosen(log, from, base)
    ensures Working(log, base) <==> x.evidence.Some?
    ensures x.evidence.Some? ==> Witnessed(log, x.evidence.value, base)
  {
    EvidenceIsWork(x, log, from, base);
    forall f: nat | StartOfWatch(log, f) ensures f == from {
      OneWatch(log, f, from);
    }
  }

  /** The log shows why delivery failed: stuck in the box, dropped before Enter, or vanished after it. */
  ghost predicate FailureShown(log: seq<Event>, now: nat, policy: Policy, base: Baseline) {
    || StuckShown(log, now, policy)
    || (exists p, k :: Dropped(log, p, k, base, policy))
    || (exists from, k :: StartOfWatch(log, from) && Vanished(log, from, k, now, base))
  }

  /** A box that could not be read shows no failure. */
  lemma UnreadIsNoFailure(log: seq<Event>, now: nat, policy: Policy, base: Baseline)
    ensures !(Unread(log, now, policy) && FailureShown(log, now, policy, base))
  {
    if Unread(log, now, policy) {
      var p: nat, e: nat :| Unreadable(log, p, e, now, policy);
      forall text ensures !TextShown(log, text) {
        forall k: nat | ShowsText(log, k, text) ensures !NoPastes(log, k + 1) {
          assert k < p;
        }
      }
      NoDropAfterEnter(log, e, policy, base);
      NobodyStarted(log);
    }
  }

  lemma NoDropAfterEnter(log: seq<Event>, e: nat, policy: Policy, base: Baseline)
    requires EnteredLast(log, e)
    ensures !exists p, k :: Dropped(log, p, k, base, policy)
  {
    forall p: nat, k: nat ensures !Dropped(log, p, k, base, policy) {
      assert p < |log| && log[p].Pasted? && p < e ==> !NoWrites(log, p + 1);
    }
  }

  /** After a dropped paste nothing was entered, and nothing was seen to be stuck. */
  lemma DropIsNothingElse(log: seq<Event>, p: nat, k: nat, now: nat, policy: Policy, base: Baseline)
    requires Dropped(log, p, k, base, policy) && Unseen(log, p)
    ensures !Unread(log, now, policy) && !StuckShown(log, now, policy)
  {
    forall q: nat, e: nat ensures !Unreadable(log, q, e, now, policy) {
      if EnteredLast(log, e) { NoDropAfterEnter(log, e, policy, base); }
    }
    forall text ensures !TextShown(log, text) {
      forall m: nat | ShowsText(log, m, text) ensures !NoPastes(log, m + 1) {
        assert m < p;
      }
    }
  }

  /** While a watch is on, only a vanished payload is a failure, and the watch says so. */
  lemma WatchTellsFailure(x: Watch, log: seq<Event>, from: nat, e: nat, k: nat, now: nat, policy: Policy,
                          base: Baseline)
    requires StartOfWatch(log, from) && EnteredLast(log, e)
    requires x.Tells(log, from, base) && x.Explains(log, from, k, base)
    ensures FailureShown(log, now, policy, base) ==> x.Quiet()
    ensures !Unread(log, now, policy) && !StuckShown(log, now, policy)
  {
    assert !Superseded(log, from, |log|);
    NoDropAfterEnter(log, e, policy, base);
    forall f: nat, m: nat | StartOfWatch(log, f) && Vanished(log, f, m, now, base) ensures x.Quiet() {
      OneWatch(log, f, from);
      VanishedIsQuiet(x, log, from, k, m, now, base);
    }
  }

  lemma VanishedIsQuiet(x: Watch, log: seq<Event>, from: nat, k: nat, m: nat, now: nat, base: Baseline)
    requires x.Tells(log, from, base) && x.Explains(log, from, k, base) && Vanished(log, from, m, now, base)
    ensures x.Quiet()
  {
    forall e: nat | from <= e ensures !EchoAt(log, e, base) && !WorkAt(log, e, base) {
      assert e < |log| ==> Calm(log[e], base);
    }
    EvidenceIsWork(x, log, from, base);
    forall evidence ensures !Shows(log, from, evidence, base) {
    }
  }

  /**
   Verdicts of work, of failure and of a box that could not be read are given exactly
   when the log shows them, and the evidence of work is in it.
   */
  ghost predicate Truthful(r: Round, log: seq<Event>, now: nat, policy: Policy, base: Baseline) {
    r.Done? ==>
      && (r.status == DeliveredWorking <==> Working(log, base))
      && (r.status == DeliveredWorking <==> r.evidence.Some?)
      && (r.evidence.Some? ==> Witnessed(log, r.evidence.value, base))
      && (r.status == Failed <==> FailureShown(log, now, policy, base))
      && (r.status == Unverified <==> Unread(log, now, policy))
      && (r.status == Submitted ==> policy.ackMs == 0 || base.queued)
      && (r.status == DeliveredIdle ==> policy.ackMs > 0 && !base.queued)
      && (r.status == Submitted || r.status == DeliveredIdle ==> WatchedLong(log, now, policy, base))
      && (r.status == Submitted || r.status == DeliveredIdle || r.status == DeliveredWorking ==> Left(log))
  }

  /** The watch went on for its whole window, or up to the echo when nobody asked for more. */
  ghost predicate WatchedLong(log: seq<Event>, now: nat, policy: Policy, base: Baseline) {
    exists from: nat :: StartOfWatch(log, from)
      && (|| log[from].at + Max(policy.ackMs, ARRIVAL_MS) <= now
          || (policy.ackMs == 0 && exists e: nat :: from <= e && EchoAt(log, e, base)))
  }

  /** A failure is reported only when nothing is left to try: no Enter for a stuck text, no resend otherwise. */
  ghost predicate Exhausted(r: Round, w: Target, policy: Policy, mayResend: bool) {
    r.Done? && r.status == Failed ==>
      if StuckShown(w.log, w.now, policy) then w.enters >= policy.maxEnters else !mayResend
  }

  /** The working phase and its verdict. */
  method Conclude(t: Target, policy: Policy, base: Baseline, mayResend: bool) returns (w: Target, r: Round)
    requires Gated(t.log, base, policy) && policy.pollMs >= 1 && base.since <= t.now && Fresh(t.log)
    requires (exists e :: EnteredLast(t.log, e)) && Left(t.log)
    ensures Gated(w.log, base, policy) && t.Watched(w)
    ensures r.Again? ==> mayResend && PasteJustified(w.log, w.now, base, policy)
    ensures Exhausted(r, w, policy, mayResend)
    ensures Truthful(r, w.log, w.now, policy, base) && !r.IoFailed?
    ensures t.instant ==> w.now <= t.now + Window(Max(policy.ackMs, ARRIVAL_MS), policy.pollMs)
  {
    var x;
    ghost var replies, k;
    w, x, replies, k := AwaitWork(t, policy, base, mayResend);
    WatchingKeepsGated(t, w, base, policy);
    WatchShows(x, w.log, |t.log|, base);
    EnterStaysLast(t, w);
    LeftStays(t, w);
    ghost var e: nat :| EnteredLast(w.log, e);
    WatchTellsFailure(x, w.log, |t.log|, e, k, w.now, policy, base);
    if x.Quiet() && mayResend { return w, Again; }
    var status :=
      if x.evidence.Some? then DeliveredWorking
      else if x.Quiet() then Failed
      else if policy.ackMs == 0 || base.queued then Submitted
      else DeliveredIdle;
    r := Done(status, x.evidence);
  }

  /** One send: paste, landing, submission, working. */
  method Send(t: Target, policy: Policy, base: Baseline, mayResend: bool)
    returns (w: Target, r: Round, ghost n: nat)
    requires Gated(t.log, base, policy) && PasteJustified(t.log, t.now, base, policy)
    requires policy.pollMs >= 1 && base.since <= t.now && !t.broken
    ensures Gated(w.log, base, policy) && t.log <= w.log && t.now <= w.now && w.instant == t.instant
    ensures (w.broken <==> r.IoFailed?) && w.Halted()
    ensures w.pastes == t.pastes + 1 && t.enters <= w.enters <= Max(t.enters + 1, policy.maxEnters)
    ensures PastedFirst(t.log, w.log, t.now)
    ensures r.Again? ==> mayResend && PasteJustified(w.log, w.now, base, policy)
    ensures Exhausted(r, w, policy, mayResend)
    ensures Truthful(r, w.log, w.now, policy, base)
    ensures w.enters == t.enters + n && (t.instant ==> RoundWithin(policy, t.now, w.now, n))
  {
    var u, ok, landed, text := PasteAndLand(t, policy, base);
    if !ok {
      w, r, n := u, IoFailed, 0;
    } else if landed.Some? && !landed.value {
      w, r := Resend(u, policy, base, mayResend);
      n := 0;
    } else {
      w, r, n := SubmitAndConclude(u, policy, base, landed, text, mayResend);
    }
    if t.instant {
      RoundCosts(policy, t.now, u.now, w.now, n);
    }
  }

  /** A send that took `n` Enters stayed within its cost. */
  predicate RoundWithin(policy: Policy, start: nat, end: nat, n: nat) {
    end <= start + RoundCost(policy) + Waits(n, Window(policy.submitMs, policy.pollMs))
  }

  /** What may follow the landing phase, which ended at `mid`, fits into the cost of a send. */
  lemma RoundCosts(policy: Policy, start: nat, mid: nat, end: nat, n: nat)
    requires mid <= start + Window(policy.landingMs, policy.pollMs)
    requires end <= mid + Window(RESEND_READY_MS, policy.pollMs) || SubmittedWithin(policy, mid, end, n)
    ensures RoundWithin(policy, start, end, n)
  {
  }

  /** The phases after the landing, with `n` Enters. */
  predicate SubmittedWithin(policy: Policy, start: nat, end: nat, n: nat) {
    end <= start + Window(policy.lateLookMs, policy.pollMs) + Window(Max(policy.ackMs, ARRIVAL_MS), policy.pollMs)
           + Waits(n, Window(policy.submitMs, policy.pollMs))
  }

  method PasteAndLand(t: Target, policy: Policy, base: Baseline)
    returns (w: Target, ok: bool, landed: Option<bool>, text: Option<string>)
    requires Gated(t.log, base, policy) && PasteJustified(t.log, t.now, base, policy) && !t.broken
    ensures Gated(w.log, base, policy) && t.log <= w.log && t.now <= w.now && w.instant == t.instant
    ensures w.broken == !ok && w.Halted()
    ensures w.pastes == t.pastes + 1 && w.enters == t.enters && Fresh(w.log)
    ensures ok && (landed.Some? ==> landed.value) ==> EnterJustified(w.log, w.now, policy)
    ensures landed.Some? && landed.value <==> text.Some?
    ensures PastedFirst(t.log, w.log, t.now)
    ensures landed.Some? && !landed.value ==> exists p, k :: DroppedBy(w, p, k, base, policy)
    ensures text.Some? ==> TextShown(w.log, text.value)
    ensures landed.None? ==> exists p :: PastedUnseen(w.log, p)
    ensures t.instant ==> w.now <= t.now + Window(policy.landingMs, policy.pollMs)
  {
    var u;
    u, ok := GatedPaste(t, policy, base);
    FreshAfterWrite(t.log, Pasted(t.now));
    landed, text := None, None;
    assert FirstEnter(u.log, |t.log|) && PastedUnseen(u.log, |t.log|);
    if !ok { return u, ok, landed, text; }
    w, landed, text := Land(u, policy, base.above.Some?);
    WatchingKeepsGated(u, w, base, policy);
    FreshStays(u.log, w.log);
    assert w.log[|t.log|] == u.log[|t.log|];
    assert FirstEnter(w.log, |t.log|);
    if landed.Some? ==> landed.value {
      assert LookedAfter(w.log, |t.log|);
    }
    if landed.Some? && !landed.value {
      ghost var k :| |u.log| <= k && BoxEmpty(w.log, k) && w.log[k].at <= w.now
                     && (base.above.Some? ==> u.now + policy.landingMs <= w.log[k].at);
      assert DroppedBy(w, |t.log|, k, base, policy);
    }
    if text.Some? {
      ghost var k :| |u.log| <= k && ShowsText(w.log, k, text.value);
      assert NoPastes(w.log, k + 1);
    } else {
      assert PastedUnseen(w.log, |t.log|);
    }
  }

  /** The phases after the text went in. */
  method SubmitAndConclude(t: Target, policy: Policy, base: Baseline, landed: Option<bool>, text: Option<string>,
                           mayResend: bool)
    returns (w: Target, r: Round, ghost n: nat)
    requires Gated(t.log, base, policy) && EnterJustified(t.log, t.now, policy)
    requires policy.pollMs >= 1 && base.since <= t.now && (text.Some? ==> TextShown(t.log, text.value)) && !t.broken
    requires (landed.Some? ==> text.Some?) && (landed.None? ==> exists p :: PastedUnseen(t.log, p))
    ensures Gated(w.log, base, policy) && t.log <= w.log && t.now <= w.now && w.instant == t.instant
    ensures w.pastes == t.pastes && t.enters <= w.enters <= Max(t.enters + 1, policy.maxEnters)
    ensures (w.broken <==> r.IoFailed?) && w.Halted()
    ensures r.Again? ==> mayResend && PasteJustified(w.log, w.now, base, policy)
    ensures Exhausted(r, w, policy, mayResend)
    ensures Truthful(r, w.log, w.now, policy, base)
    ensures w.enters == t.enters + n && (t.instant ==> SubmittedWithin(policy, t.now, w.now, n))
  {
    var submission;
    w, submission, n := Submit(t, policy, base, landed, text);
    NobodyWatches(w.log, base);
    match submission
    case WriteFailed => r := IoFailed;
    case NoBox =>
      UnreadIsNoFailure(w.log, w.now, policy, base);
      r := Done(Unverified, None);
    case Stuck =>
      UnreadIsNoFailure(w.log, w.now, policy, base);
      r := Done(Failed, None);
    case Clear => w, r := Conclude(w, policy, base, mayResend);
  }

  /** The drop is the last thing that was seen. */
  ghost predicate DroppedBy(t: Target, p: nat, k: nat, base: Baseline, policy: Policy) {
    Dropped(t.log, p, k, base, policy) && Unseen(t.log, p) && t.log[k].at <= t.now
  }

  lemma StaysDropped(t: Target, w: Target, p: nat, k: nat, policy: Policy, base: Baseline)
    requires Dropped(t.log, p, k, base, policy) && t.Watched(w)
    ensures Dropped(w.log, p, k, base, policy)
  {
    forall m | 0 <= m < |t.log| ensures w.log[m] == t.log[m] {
    }
    assert w.log[..k + 1] == t.log[..k + 1];
    forall m | p + 1 <= m < |w.log| ensures !Writes(w.log[m]) {
    }
  }

  /** A dropped paste: wait for the box to be ready and send again, or give up. */
  method Resend(t: Target, policy: Policy, base: Baseline, mayResend: bool) returns (w: Target, r: Round)
    requires Gated(t.log, base, policy) && Fresh(t.log)
    requires exists p, k :: DroppedBy(t, p, k, base, policy)
    ensures Gated(w.log, base, policy) && t.Watched(w) && !r.IoFailed?
    ensures r.Again? ==> mayResend && PasteJustified(w.log, w.now, base, policy)
    ensures Exhausted(r, w, policy, mayResend)
    ensures Truthful(r, w.log, w.now, policy, base)
    ensures t.instant ==> w.now <= t.now + Window(RESEND_READY_MS, policy.pollMs)
  {
    NobodyWatches(t.log, base);
    ghost var p: nat, k: nat :| DroppedBy(t, p, k, base, policy);
    DropIsNothingElse(t.log, p, k, t.now, policy, base);
    if !mayResend { return t, Done(Failed, None); }
    var ready;
    w, ready := WaitUntil(t, RESEND_READY_MS, policy.pollMs, IsReady);
    WatchingKeepsGated(t, w, base, policy);
    StaysDropped(t, w, p, k, policy, base);
    if ready.Some? {
      ghost var m := |w.log| - 1;
      assert k < m && IsReady(w.log[m].screen.value);
    }
    r := Again;
  }

  /** Up to `1 + maxResends` sends. */
  method SendAll(t: Target, policy: Policy, base: Baseline) returns (w: Target, r: Round)
    requires NoWrites(t.log, 0) && t.pastes == t.enters == 0 && policy.pollMs >= 1 && base.since <= t.now && !t.broken
    ensures Gated(w.log, base, policy) && !r.Again? && t.log <= w.log && t.now <= w.now && w.instant == t.instant
    ensures (w.broken <==> r.IoFailed?) && w.Halted()
    ensures PastedFirst(t.log, w.log, t.now)
    ensures 1 <= w.pastes <= 1 + policy.maxResends && w.enters <= Max(1, policy.maxEnters) + policy.maxResends
    ensures Exhausted(r, w, policy, w.pastes <= policy.maxResends)
    ensures Truthful(r, w.log, w.now, policy, base)
    ensures t.instant ==> AllWithin(policy, t.now, w.now, w.pastes, w.enters)
  {
    w, r := t, Again;
    while r.Again?
      invariant Gated(w.log, base, policy) && t.log <= w.log && t.now <= w.now && w.instant == t.instant
      invariant r.Again? ==> w.pastes <= policy.maxResends && PasteJustified(w.log, w.now, base, policy)
      invariant w == t || (1 <= w.pastes <= 1 + policy.maxResends && PastedFirst(t.log, w.log, t.now))
      invariant w.enters <= if w.pastes == 0 then 0 else Max(1, policy.maxEnters) + w.pastes - 1
      invariant Exhausted(r, w, policy, w.pastes <= policy.maxResends)
      invariant Truthful(r, w.log, w.now, policy, base)
      invariant (!r.Again? ==> w != t) && (w.broken <==> r.IoFailed?) && w.Halted()
      invariant t.instant ==> AllWithin(policy, t.now, w.now, w.pastes, w.enters)
      decreases r.Again?, policy.maxResends - w.pastes
    {
      ghost var u, n := w, 0;
      w, r, n := Send(w, policy, base, w.pastes + 1 <= policy.maxResends);
      if t.instant { RoundAdds(policy, t.now, u.now, w.now, u.pastes, u.enters, n, w.pastes, w.enters); }
      if u != t { PastedFirstGrows(t.log, u.log, w.log, t.now); }
    }
  }

  /** Sends with these totals stayed within their costs. */
  predicate AllWithin(policy: Policy, start: nat, end: nat, pastes: nat, enters: nat) {
    end <= start + Waits(pastes, RoundCost(policy)) + Waits(enters, Window(policy.submitMs, policy.pollMs))
  }

  lemma RoundAdds(policy: Policy, start: nat, mid: nat, end: nat, pastes: nat, enters: nat, n: nat,
                  pastes': nat, enters': nat)
    requires AllWithin(policy, start, mid, pastes, enters) && RoundWithin(policy, mid, end, n)
    requires pastes' == pastes + 1 && enters' == enters + n
    ensures AllWithin(policy, start, end, pastes', enters')
  {
    var m := OneMoreWait(pastes, RoundCost(policy));
    MoreWaits(enters, n, Window(policy.submitMs, policy.pollMs));
  }

  /** What follows `before` in `log` begins with a paste, not before `now`. */
  ghost predicate PastedFirst(before: seq<Event>, log: seq<Event>, now: nat) {
    before <= log && |before| < |log| && log[|before|].Pasted? && now <= log[|before|].at
  }

  lemma PastedFirstGrows(before: seq<Event>, log: seq<Event>, more: seq<Event>, now: nat)
    requires PastedFirst(before, log, now) && log <= more
    ensures PastedFirst(before, more, now)
  {
    assert more[|before|] == log[|before|];
  }

  lemma MoreWaits(m: nat, n: nat, cost: nat)
    ensures Waits(m + n, cost) == Waits(m, cost) + Waits(n, cost)
  {
  }

  datatype Report = Report(status: Status, ready: Option<bool>, readyWaitMs: nat, queued: bool, sends: nat,
                           enterPresses: nat, evidence: Option<Evidence>, elapsedMs: nat)

  /** The box holds text that is not the payload. */
  predicate Foreign(s: Screen) {
    HoldsText(s) && !s.view.value.composer.payload
  }

  /** The last capture before the first write, at `k`, is what `base` was read from. */
  ghost predicate ReadFrom(log: seq<Event>, k: nat, base: Baseline) {
    && k < |log| && log[k].Captured? && log[k].at <= base.since
    && var s := if log[k].screen.Some? then log[k].screen.value else BLANK;
       && base.above == (if s.view.Some? then Some(s.view.value.above) else None)
       && base.echoes == EchoCount(s) && base.queued == IsBusy(s)
  }

  /** Readiness is known of a box that could be read, and claimed only of one that was ready. */
  ghost predicate ReadyTold(log: seq<Event>, k: nat, ready: Option<bool>, base: Baseline)
    requires k < |log|
  {
    && (ready.Some? <==> base.above.Some?)
    && (ready == Some(true) ==> log[k].Captured? && log[k].screen.Some? && IsReady(log[k].screen.value))
  }

  /** The screen at `k` forbids sending: foreign text that the styled screen does not call a ghost. */
  ghost predicate Refused(log: seq<Event>, k: nat) {
    && ViewAt(log, k) && log[k].screen.value.view.value.composer.Holds?
    && !log[k].screen.value.view.value.composer.payload
    && !(k + 1 < |log| && log[k + 1].Styled? && log[k + 1].ghostly)
  }

  /** `k` is the last look before the first write, if there is one. */
  ghost predicate LastLook(log: seq<Event>, k: nat) {
    && (forall j :: 0 <= j <= k && j < |log| ==> !Writes(log[j]))
    && (forall m :: k < m < |log| && log[m].Captured? ==> exists j :: k < j < m && Writes(log[j]))
  }

  /** The grace period starts between the last look and the first write. */
  ghost predicate GraceStarts(log: seq<Event>, k: nat, base: Baseline) {
    && k < |log| && log[k].at <= base.since
    && (forall j :: 0 <= j < |log| && Writes(log[j]) && (forall m :: 0 <= m < j ==> !Writes(log[m])) ==>
          base.since <= log[j].at)
  }

  lemma GraceIsKept(t: Target, w: Target, k: nat, base: Baseline)
    requires NoWrites(t.log, 0) && k < |t.log| && t.log[k].at <= base.since <= t.now
    requires PastedFirst(t.log, w.log, t.now)
    ensures GraceStarts(w.log, k, base)
  {
    var n := |t.log|;
    assert w.log[k] == t.log[k] && Writes(w.log[n]);
    forall j | 0 <= j < n ensures !Writes(w.log[j]) {
      assert w.log[j] == t.log[j];
    }
  }

  lemma FirstWriteIsNext(t: Target, w: Target, k: nat)
    requires NoWrites(t.log, 0) && k < |t.log| && (forall m :: k < m < |t.log| ==> !t.log[m].Captured?)
    requires t.log <= w.log && |t.log| < |w.log| && Writes(w.log[|t.log|])
    ensures LastLook(w.log, k)
  {
    forall j | 0 <= j <= k ensures !Writes(w.log[j]) {
      assert w.log[j] == t.log[j];
    }
    forall m | k < m < |t.log| ensures !w.log[m].Captured? {
      assert w.log[m] == t.log[m];
    }
    var n := |t.log|;
    assert Writes(w.log[n]);
  }

  /** The closed bound on a whole delivery. */
  function TimeBound(policy: Policy): nat {
    Window(policy.readyMs, policy.pollMs)
    + (1 + policy.maxResends) * RoundCost(policy)
    + (Max(1, policy.maxEnters) + policy.maxResends) * Window(policy.submitMs, policy.pollMs)
  }

  lemma WithinTimeBound(pastes: nat, enters: nat, policy: Policy)
    requires pastes <= 1 + policy.maxResends && enters <= Max(1, policy.maxEnters) + policy.maxResends
    ensures Window(policy.readyMs, policy.pollMs) + Waits(pastes, RoundCost(policy))
            + Waits(enters, Window(policy.submitMs, policy.pollMs)) <= TimeBound(policy)
  {
    MoreWaits(pastes, 1 + policy.maxResends - pastes, RoundCost(policy));
    MoreWaits(enters, Max(1, policy.maxEnters) + policy.maxResends - enters, Window(policy.submitMs, policy.pollMs));
  }

  /** The first phase: wait for a usable box, then read the screen everything is compared with. */
  method ReadBaseline(t: Target, policy: Policy)
    returns (w: Target, base: Baseline, ready: Option<bool>, readyAt: nat, refused: bool, ghost k: nat)
    ensures t.Watched(w) && base.since <= w.now && ReadFrom(w.log, k, base) && |t.log| <= k
    ensures NoReports(w.log, |t.log|)
    ensures refused <==> Refused(w.log, k)
    ensures t.now <= readyAt <= w.now && ReadyTold(w.log, k, ready, base)
    ensures ready != Some(true) ==> t.now + policy.readyMs <= readyAt <= w.log[k].at
    ensures forall m :: k < m < |w.log| ==> !w.log[m].Captured?
    ensures t.instant ==> w.now <= t.now + Window(policy.readyMs, policy.pollMs)
  {
    var screen;
    w, screen := WaitUntil(t, policy.readyMs, policy.pollMs, IsReady);
    readyAt := w.now;
    var isReady := screen.Some?;
    if !isReady { w, screen := Capture(w); }
    k := |w.log| - 1;
    var s := if screen.Some? then screen.value else BLANK;
    ready := if s.view.Some? then Some(isReady) else None;
    refused := false;
    if Foreign(s) {
      var ghostly;
      w, ghostly := ComposerIsGhost(w, s);
      refused := !ghostly;
    }
    base := Baseline(if s.view.Some? then Some(s.view.value.above) else None, EchoCount(s), IsBusy(s), w.now);
  }

  /** The numbers are those of the log, and work is reported exactly when it shows work, with that evidence. */
  ghost predicate Accurate(x: Report, w: Target, started: nat, base: Baseline) {
    && x.sends == w.pastes && x.enterPresses == w.enters && x.elapsedMs == w.now - started
    && (x.status == DeliveredWorking <==> Working(w.log, base))
    && (x.status == DeliveredWorking <==> x.evidence.Some?)
    && (x.evidence.Some? ==> Witnessed(w.log, x.evidence.value, base))
  }

  /** What is said of the first phase: readiness, a busy agent, and a wait that was not cut short. */
  ghost predicate ReadyReported(x: Report, log: seq<Event>, k: nat, policy: Policy, base: Baseline) {
    && k < |log| && x.queued == base.queued && ReadyTold(log, k, x.ready, base)
    && x.readyWaitMs <= x.elapsedMs && (x.ready != Some(true) ==> policy.readyMs <= x.readyWaitMs)
  }

  /** The other verdicts: exactly when the log shows them, and a failure only when nothing is left to try. */
  ghost predicate VerdictReported(x: Report, w: Target, policy: Policy, base: Baseline) {
    && (x.status == Failed <==> FailureShown(w.log, w.now, policy, base))
    && (x.status == Unverified <==> Unread(w.log, w.now, policy))
    && (x.status == Failed ==>
          if StuckShown(w.log, w.now, policy) then w.enters >= policy.maxEnters else w.pastes == 1 + policy.maxResends)
    && (x.status == Submitted ==> policy.ackMs == 0 || base.queued)
    && (x.status == DeliveredIdle ==> policy.ackMs > 0 && !base.queued)
    && (x.status == Submitted || x.status == DeliveredIdle ==> WatchedLong(w.log, w.now, policy, base))
    && (x.status == Submitted || x.status == DeliveredIdle || x.status == DeliveredWorking ==> Left(w.log))
  }

  /**
   `deliver`. `modelled` says whether the engine names a screen model of its own,
   `optedOut` is the empty engine, and `blank` a payload without visible text.
   */
  method Deliver(t: Target, modelled: bool, optedOut: bool, blank: bool, policy: Policy)
    returns (w: Target, r: Result<Report>, known: bool, ghost base: Baseline, ghost k: nat)
    requires t.log == [] && t.pastes == t.enters == 0 && policy.pollMs >= 1 && !t.broken
    ensures if modelled || optedOut then known == modelled else |w.log| > 0 && w.log[0] == Sniffed(t.now, known)
    ensures Gated(w.log, base, policy) && (w.broken <==> r.Err?) && w.Halted()
    ensures w.pastes <= 1 + policy.maxResends && w.enters <= Max(1, policy.maxEnters) + policy.maxResends
    ensures known && !blank ==> ReadFrom(w.log, k, base) && LastLook(w.log, k) && GraceStarts(w.log, k, base)
    ensures known && !blank && Refused(w.log, k) ==> w.pastes == w.enters == 0 && r.Ok? && r.value.status == Failed
    ensures known && !blank && !Refused(w.log, k) ==> w.pastes >= 1
    ensures (!known || blank) && r.Ok? ==> r.value.status == Unverified && w.pastes == w.enters == 1
    ensures !known || blank ==> forall j :: 0 <= j < |w.log| ==> !w.log[j].Captured?
    ensures r.Ok? ==> Accurate(r.value, w, t.now, base)
    ensures r.Ok? && known && !blank ==> ReadyReported(r.value, w.log, k, policy, base)
    ensures r.Ok? && known && !blank && !Refused(w.log, k) ==> VerdictReported(r.value, w, policy, base)
    ensures t.instant ==> w.now - t.now <= TimeBound(policy)
  {
    w := t;
    base, k := Baseline(None, 0, false, t.now), 0;
    known := modelled;
    if !known && !optedOut {
      w, known := Sniff(w);
    }
    if !known || blank {
      w, r := SendUnverified(w, t.now, base, policy);
      NobodyWatches(w.log, base);
      return;
    }
    var b, ready, readyAt, refused;
    ghost var seen;
    ghost var before := w;
    w, b, ready, readyAt, refused, seen := ReadBaseline(w, policy);
    base, k := b, seen;
    if refused {
      r := Ok(Report(Failed, ready, readyAt - t.now, b.queued, 0, 0, None, w.now - t.now));
      WithinTimeBound(0, 0, policy);
      FreshStays(before.log, w.log);
      NobodyWatches(w.log, base);
      return;
    }
    w, r := SendKnown(w, t.now, policy, b, k, ready, readyAt);
    WithinTimeBound(w.pastes, w.enters, policy);
  }

  /** The sends after the first phase, and the report on them. */
  method SendKnown(t: Target, started: nat, policy: Policy, base: Baseline, ghost k: nat, ready: Option<bool>,
                   readyAt: nat)
    returns (w: Target, r: Result<Report>)
    requires NoWrites(t.log, 0) && t.pastes == t.enters == 0 && policy.pollMs >= 1 && base.since <= t.now && !t.broken
    requires ReadFrom(t.log, k, base) && (forall m :: k < m < |t.log| ==> !t.log[m].Captured?)
    requires started <= readyAt <= t.now && ReadyTold(t.log, k, ready, base)
    requires ready != Some(true) ==> started + policy.readyMs <= readyAt
    ensures Gated(w.log, base, policy) && t.log <= w.log && t.now <= w.now && w.instant == t.instant
    ensures 1 <= w.pastes <= 1 + policy.maxResends && w.enters <= Max(1, policy.maxEnters) + policy.maxResends
    ensures ReadFrom(w.log, k, base) && LastLook(w.log, k) && GraceStarts(w.log, k, base)
    ensures Refused(w.log, k) <==> Refused(t.log, k)
    ensures (w.broken <==> r.Err?) && w.Halted()
    ensures r.Ok? ==> Accurate(r.value, w, started, base) && ReadyReported(r.value, w.log, k, policy, base)
    ensures r.Ok? ==> VerdictReported(r.value, w, policy, base)
    ensures t.instant ==> AllWithin(policy, t.now, w.now, w.pastes, w.enters)
  {
    var round;
    w, round := SendAll(t, policy, base);
    SendsKeepLook(t, w, k, base, ready);
    if round.IoFailed? { r := Err("target write failed"); return; }
    r := Ok(Report(round.status, ready, readyAt - started, base.queued, w.pastes, w.enters, round.evidence,
                   w.now - started));
    TruthIsReported(round, r.value, w, started, policy, base);
  }

  /** What was read before the first paste stays what it is. */
  lemma SendsKeepLook(t: Target, w: Target, k: nat, base: Baseline, ready: Option<bool>)
    requires NoWrites(t.log, 0) && base.since <= t.now && PastedFirst(t.log, w.log, t.now)
    requires ReadFrom(t.log, k, base) && (forall m :: k < m < |t.log| ==> !t.log[m].Captured?)
    requires ReadyTold(t.log, k, ready, base)
    ensures ReadFrom(w.log, k, base) && LastLook(w.log, k) && GraceStarts(w.log, k, base)
    ensures (Refused(w.log, k) <==> Refused(t.log, k)) && ReadyTold(w.log, k, ready, base)
  {
    FirstWriteIsNext(t, w, k);
    GraceIsKept(t, w, k, base);
    assert w.log[k] == t.log[k] && (k + 1 < |t.log| ==> w.log[k + 1] == t.log[k + 1]);
  }

  /** The report carries the verdict of the last round. */
  lemma TruthIsReported(round: Round, x: Report, w: Target, started: nat, policy: Policy, base: Baseline)
    requires round.Done? && Truthful(round, w.log, w.now, policy, base)
    requires Exhausted(round, w, policy, w.pastes <= policy.maxResends) && w.pastes <= 1 + policy.maxResends
    requires x.status == round.status && x.evidence == round.evidence
    requires x.sends == w.pastes && x.enterPresses == w.enters && started <= w.now && x.elapsedMs == w.now - started
    ensures Accurate(x, w, started, base) && VerdictReported(x, w, policy, base)
  {
  }

  /** Without a screen model: one paste, one Enter, no claim. */
  method SendUnverified(t: Target, started: nat, ghost base: Baseline, policy: Policy)
    returns (w: Target, r: Result<Report>)
    requires NoWrites(t.log, 0) && t.pastes == t.enters == 0 && started <= t.now && !t.broken
    requires forall k :: 0 <= k < |t.log| ==> !t.log[k].Captured?
    ensures t.log <= w.log && t.now <= w.now && (t.instant ==> w.now == t.now) && (w.broken <==> r.Err?) && w.Halted()
    ensures Gated(w.log, base, policy) && w.pastes <= 1 && w.enters <= 1 && Fresh(w.log)
    ensures forall k :: |t.log| <= k < |w.log| ==> Writes(w.log[k])
    ensures r.Ok? ==> r.value == Report(Unverified, None, 0, false, 1, 1, None, w.now - started)
                      && w.pastes == 1 && w.enters == 1
  {
    var ok;
    w, ok := Paste(t);
    WriteKeepsGated(t.log, Pasted(t.now), base, policy);
    FreshAfterWrite(t.log, Pasted(t.now));
    if !ok { return w, Err("target write failed"); }
    assert FirstEnter(w.log, |t.log|) && LookedAfter(w.log, |t.log|);
    WriteKeepsGated(w.log, Entered(w.now), base, policy);
    FreshAfterWrite(w.log, Entered(w.now));
    w, ok := Enter(w);
    if !ok { return w, Err("target write failed"); }
    r := Ok(Report(Unverified, None, 0, false, 1, 1, None, w.now - started));
  }

  // ---- When a silent target's working phase ends ---------------------------------

  /** The first `n` of an endless stream of replies. */
  function Take(replies: nat -> Reply, n: nat): (r: seq<Reply>)
    ensures |r| == n
  {
    seq(n, (i: nat) requires i < n => replies(i))
  }

  lemma TakeMore(replies: nat -> Reply, n: nat)
    ensures Take(replies, n + 1)[..n] == Take(replies, n) && Take(replies, n + 1)[n] == replies(n)
  {
  }

  /** After `n` silent replies nothing was seen, and only the sleeps between them have passed. */
  lemma {:induction false} SilentPolls(t: Target, base: Baseline, poll: nat, replies: nat -> Reply, n: nat)
    requires forall i :: replies(i).Silent(base)
    ensures var (u, x) := Polls(t, base, poll, Take(replies, n));
            !x.echoed && x.evidence.None? && u.now == t.now + Waits(if n == 0 then 0 else n - 1, poll)
    decreases n
  {
    if n > 0 {
      SilentPolls(t, base, poll, replies, n - 1);
      TakeMore(replies, n - 1);
      assert replies(n - 1).Silent(base);
      if n > 1 {
        var m := OneMoreWait(n - 2, poll);
      }
    }
  }

  /** After `n` polls the screen is the pre-send one. */
  predicate QuietAfter(t: Target, base: Baseline, poll: nat, replies: nat -> Reply, n: nat) {
    Polls(t, base, poll, Take(replies, n)).1.Quiet()
  }

  /**
   On an instant target that stays silent, the working phase ends at some poll if and
   only if the poll interval is positive, or the three seconds of grace were over
   before it began, a resend is allowed, and some poll shows the pre-send screen.
   */
  lemma WorkingPhaseEnds(t: Target, policy: Policy, base: Baseline, mayResend: bool, replies: nat -> Reply)
    requires forall i :: replies(i).Silent(base)
    ensures (exists n: nat :: OverAfter(t, policy, base, mayResend, Take(replies, n)))
            <==> (policy.pollMs >= 1
                  || (mayResend && t.now >= base.since + ARRIVAL_MS
                      && exists n: nat :: n > 0 && QuietAfter(t, base, policy.pollMs, replies, n)))
  {
    if policy.pollMs >= 1 {
      SleepingReachesDeadline(t, policy, base, mayResend, replies);
    } else {
      forall n: nat ensures OverAfter(t, policy, base, mayResend, Take(replies, n))
                            <==> n > 0 && mayResend && t.now >= base.since + ARRIVAL_MS
                                 && QuietAfter(t, base, policy.pollMs, replies, n) {
        StoppedClock(t, policy, base, mayResend, replies, n);
      }
    }
  }

  lemma WaitsAdvance(n: nat, cost: nat)
    requires cost >= 1
    ensures Waits(n, cost) >= n
  {
    assert n * cost >= n * 1;
  }

  lemma SleepingReachesDeadline(t: Target, policy: Policy, base: Baseline, mayResend: bool, replies: nat -> Reply)
    requires (forall i :: replies(i).Silent(base)) && policy.pollMs >= 1
    ensures exists n: nat :: OverAfter(t, policy, base, mayResend, Take(replies, n))
  {
    var deadline := WorkDeadline(t.now, policy);
    var n := deadline + 1;
    SilentPolls(t, base, policy.pollMs, replies, n);
    WaitsAdvance(deadline, policy.pollMs);
    assert OverAfter(t, policy, base, mayResend, Take(replies, n));
  }

  lemma StoppedClock(t: Target, policy: Policy, base: Baseline, mayResend: bool, replies: nat -> Reply, n: nat)
    requires (forall i :: replies(i).Silent(base)) && policy.pollMs == 0
    ensures OverAfter(t, policy, base, mayResend, Take(replies, n))
            <==> n > 0 && mayResend && t.now >= base.since + ARRIVAL_MS && QuietAfter(t, base, 0, replies, n)
  {
    SilentPolls(t, base, 0, replies, n);
  }
}
