/** The intervention page shown in place of a deferred navigation: the
    submit form that asks the worker for a session, the activity panels
    (at most one open at a time), the two timed panels (a three-step
    stretch sequence and a two-minute hydration countdown), and the text
    formatters they use.

    The page's global state object becomes the fields of `InterventionPage`;
    each nested panel object is a record field that the methods replace. A
    `setInterval` callback firing is a call of the corresponding tick
    method, and `render()` keeps only its timer bookkeeping. Requests sent
    to the worker are appended to `sent`. */
module Intervention {
  import opened Wrappers
  import Decimal
  import Background

  datatype StretchStep = StretchStep(id: string, duration: nat)

  const StretchSteps: seq<StretchStep> := [StretchStep("neck", 40), StretchStep("spine", 40), StretchStep("wrists", 40)]

  const HydrateDuration: int := 120

  const HydrateBenefits: seq<string> := [
    "Every sip cushions your joints and keeps them moving freely.",
    "Hydration boosts focus—your brain is over 70% water.",
    "Water supports a steady heartbeat and gentle energy.",
    "Take this pause to stretch your spine while you refill."
  ]

  const ValidationMessage: string := "Please share your purpose and choose a time between 1 and 120 minutes."
  const StartRefused: string := "Unable to start session"
  const StartFailed: string := "Something went wrong. Please try again."
  /** What the engine throws when `response.ok` is read from an absent response. */
  const NoResponseError: string := "Cannot read properties of undefined (reading 'ok')"

  // ---------------------------------------------------------------------
  // Pure helpers

  /** The submit form's check: a purpose is given and the minutes field
      holds a number from 1 to 120 (`None` is a field that is not a number). */
  predicate CanSubmit(purpose: string, minutes: Option<int>)
  {
    purpose != "" && minutes.Some? && 1 <= minutes.value <= 120
  }

  /** `Math.ceil(a / b)` for a non-negative `a` and positive `b`. */
  function CeilDiv(a: nat, b: nat): (r: nat)
    requires b > 0
    ensures (r - 1) * b < a <= r * b || (a == 0 && r == 0)
  {
    (a + b - 1) / b
  }

  /** Which benefit text the hydration panel shows: the elapsed seconds
      divided into equal segments, one per text, capped at the last text. */
  function HydrateBenefitIndex(remaining: int): (r: int)
    ensures 0 <= remaining <= HydrateDuration ==> 0 <= r < |HydrateBenefits|
    ensures remaining <= 0 ==> r == |HydrateBenefits| - 1
    ensures remaining == HydrateDuration ==> r == 0
  {
    var elapsed := HydrateDuration - remaining;
    var segment := Max(1, CeilDiv(HydrateDuration, |HydrateBenefits|));
    Min(|HydrateBenefits| - 1, elapsed / segment)
  }

  /** As the countdown runs down, the benefit shown never goes back. */
  lemma BenefitIndexMonotone(later: int, earlier: int)
    requires later <= earlier
    ensures HydrateBenefitIndex(earlier) <= HydrateBenefitIndex(later)
  {
    var segment := Max(1, CeilDiv(HydrateDuration, |HydrateBenefits|));
    assert segment == 30;
  }

  /** `formatCountdown`: "MM:SS" for a number of seconds, where negative
      input counts as zero. */
  function FormatCountdown(seconds: int): (r: string)
    ensures |r| >= 5 && r[|r| - 3] == ':'
    ensures Decimal.ClockTotal(r) == Max(0, seconds)
    ensures Decimal.IsDigits(Decimal.MinutesField(r)) && Decimal.Value(Decimal.MinutesField(r)) == Max(0, seconds) / 60
    ensures Decimal.IsDigits(Decimal.SecondsField(r)) && Decimal.Value(Decimal.SecondsField(r)) == Max(0, seconds) % 60
    ensures |Decimal.MinutesField(r)| == Max(2, |Decimal.Show(Max(0, seconds) / 60)|)
    ensures |Decimal.SecondsField(r)| == 2
    ensures seconds <= 0 ==> r == "00:00"
    ensures seconds < 6000 ==> |r| == 5
  {
    var total := Max(0, seconds);
    Decimal.ClockOfZero();
    Decimal.ClockShape(total);
    Decimal.ClockFields(total);
    Decimal.Clock(total)
  }

  /** `formatSeconds`: the seconds as a whole number followed by "s", with
      non-positive input shown as "0s". */
  function FormatSeconds(seconds: int): (r: string)
    ensures |r| >= 2 && r[|r| - 1] == 's'
    ensures Decimal.IsDigits(r[..|r| - 1]) && Decimal.Value(r[..|r| - 1]) == Max(0, seconds)
    ensures r[0] == '0' <==> seconds <= 0
    ensures seconds <= 0 ==> r == "0s"
  {
    var value := Max(0, seconds);
    Decimal.ValueOfShow(value);
    assert (Decimal.Show(value) + "s")[..|Decimal.Show(value)|] == Decimal.Show(value);
    assert Decimal.Show(0) == "0";
    Decimal.Show(value) + "s"
  }

  predicate IsSpecial(c: char)
  {
    c == '&' || c == '<' || c == '>' || c == '\'' || c == '"'
  }

  predicate IsMarkup(c: char)
  {
    c == '<' || c == '>' || c == '\'' || c == '"'
  }

  /** The entity `escapeHtml` substitutes for one special character. */
  function Entity(c: char): (r: string)
    requires IsSpecial(c)
    ensures |r| >= 4 && r[0] == '&' && r[|r| - 1] == ';'
    ensures forall i :: 0 <= i < |r| ==> !IsMarkup(r[i])
  {
    if c == '&' then "&amp;"
    else if c == '<' then "&lt;"
    else if c == '>' then "&gt;"
    else if c == '"' then "&quot;"
    else "&#39;"
  }

  /** How many special characters `s` starts with. */
  function RunLength(s: string): (k: nat)
    ensures k <= |s|
    ensures forall i :: 0 <= i < k ==> IsSpecial(s[i])
    ensures k < |s| ==> !IsSpecial(s[k])
    decreases |s|
  {
    if s == [] || !IsSpecial(s[0]) then 0 else 1 + RunLength(s[1..])
  }

  predicate NoSpecials(s: string)
  {
    forall i :: 0 <= i < |s| ==> !IsSpecial(s[i])
  }

  /** `escapeHtml` as written: the pattern matches a whole run of special
      characters at once, and its lookup table knows single characters
      only, so a run of two or more becomes the text "undefined". Either
      way no raw markup character survives, and text without special
      characters is returned as it is. */
  function EscapeHtml(s: string): (r: string)
    ensures forall i :: 0 <= i < |r| ==> !IsMarkup(r[i])
    ensures NoSpecials(s) ==> r == s
    decreases |s|
  {
    if s == [] then ""
    else if !IsSpecial(s[0]) then
      var rest := EscapeHtml(s[1..]);
      assert NoSpecials(s) ==> NoSpecials(s[1..]);
      [s[0]] + rest
    else
      var k := RunLength(s);
      (if k == 1 then Entity(s[0]) else "undefined") + EscapeHtml(s[k..])
  }

  /** The table applied character by character: what `escapeHtml` would do
      if its pattern matched one character at a time. */
  function EscapeEach(s: string): (r: string)
    ensures forall i :: 0 <= i < |r| ==> !IsMarkup(r[i])
    decreases |s|
  {
    if s == [] then ""
    else (if IsSpecial(s[0]) then Entity(s[0]) else [s[0]]) + EscapeEach(s[1..])
  }

  predicate IsolatedSpecials(s: string)
  {
    forall i :: 0 <= i < |s| - 1 ==> !(IsSpecial(s[i]) && IsSpecial(s[i + 1]))
  }

  /** When no two special characters are adjacent, `escapeHtml` agrees
      with the character-by-character table. */
  lemma {:induction false} EscapeIsolated(s: string)
    requires IsolatedSpecials(s)
    ensures EscapeHtml(s) == EscapeEach(s)
    decreases |s|
  {
    if s != [] {
      assert IsolatedSpecials(s[1..]) by {
        forall i | 0 <= i < |s[1..]| - 1
          ensures !(IsSpecial(s[1..][i]) && IsSpecial(s[1..][i + 1]))
        {
          assert s[1..][i] == s[i + 1] && s[1..][i + 1] == s[i + 2];
        }
      }
      EscapeIsolated(s[1..]);
      if IsSpecial(s[0]) {
        assert RunLength(s) == 1 by {
          if |s| > 1 {
            assert !IsSpecial(s[1]);
            assert RunLength(s[1..]) == 0;
          }
        }
      }
    }
  }

  /** An ordinary character is copied and the rest is escaped after it. */
  lemma EscapePlainChar(c: char, rest: string)
    requires !IsSpecial(c)
    ensures EscapeHtml([c] + rest) == [c] + EscapeHtml(rest)
  {
    assert ([c] + rest)[1..] == rest;
  }

  /** Text without special characters passes through in front of whatever
      follows it. */
  lemma {:induction false} EscapePlainPrefix(a: string, t: string)
    requires NoSpecials(a)
    ensures EscapeHtml(a + t) == a + EscapeHtml(t)
    decreases |a|
  {
    if a == [] {
      assert a + t == t;
    } else {
      assert NoSpecials(a[1..]) by {
        forall i | 0 <= i < |a[1..]|
          ensures !IsSpecial(a[1..][i])
        {
          assert a[1..][i] == a[i + 1];
        }
      }
      calc {
        EscapeHtml(a + t);
        { assert a + t == [a[0]] + (a[1..] + t); }
        EscapeHtml([a[0]] + (a[1..] + t));
        { EscapePlainChar(a[0], a[1..] + t); }
        [a[0]] + EscapeHtml(a[1..] + t);
        { EscapePlainPrefix(a[1..], t); }
        [a[0]] + (a[1..] + EscapeHtml(t));
        { assert a == [a[0]] + a[1..]; }
        a + EscapeHtml(t);
      }
    }
  }

  /** A run of specials followed by a non-special character (or nothing) is
      matched whole. */
  lemma {:induction false} RunLengthOfRun(run: string, b: string)
    requires forall i :: 0 <= i < |run| ==> IsSpecial(run[i])
    requires b == [] || !IsSpecial(b[0])
    ensures RunLength(run + b) == |run|
    decreases |run|
  {
    if run != [] {
      assert (run + b)[1..] == run[1..] + b;
      RunLengthOfRun(run[1..], b);
    } else {
      assert run + b == b;
    }
  }

  /** Every run of two or more special characters between ordinary text is
      replaced by the word "undefined", and the text around it is escaped
      on its own. */
  lemma EscapeRun(a: string, run: string, b: string)
    requires NoSpecials(a)
    requires |run| >= 2 && forall i :: 0 <= i < |run| ==> IsSpecial(run[i])
    requires b == [] || !IsSpecial(b[0])
    ensures EscapeHtml(a + run + b) == a + "undefined" + EscapeHtml(b)
  {
    assert a + run + b == a + (run + b);
    EscapePlainPrefix(a, run + b);
    RunLengthOfRun(run, b);
    assert (run + b)[0] == run[0];
    assert (run + b)[|run|..] == b;
  }

  /** Two adjacent special characters are replaced by the word "undefined". */
  lemma EscapeRunQuirk()
    ensures EscapeHtml("a<>b") == "aundefinedb"
  {
    assert RunLength("<>b") == 2 by {
      assert "<>b"[1..] == ">b";
      assert ">b"[1..] == "b";
      assert RunLength("b") == 0;
    }
    assert "a<>b"[1..] == "<>b";
    assert "<>b"[2..] == "b";
    assert EscapeHtml("b") == "b";
  }

  // ---------------------------------------------------------------------
  // Panel records

  datatype CopyStatus = Idle | Copied | CopyFailed

  datatype MusicPanel = MusicPanel(open: bool, isPlaying: bool)

  datatype WalkPanel = WalkPanel(open: bool, copyStatus: CopyStatus)

  datatype StretchPanel = StretchPanel(open: bool, activeStep: int, remainingSeconds: int, completed: bool, timerRunning: bool)

  datatype HydratePanel = HydratePanel(open: bool, remainingSeconds: int, benefitIndex: int, timerRunning: bool)

  datatype Panel = Music | Walk | Breathing | Stretching | Hydrating | Calling

  const ClosedStretch: StretchPanel := StretchPanel(false, 0, 0, false, false)

  const ClosedHydrate: HydratePanel := HydratePanel(false, HydrateDuration, 0, false)

  /** The stretch panel's own invariant: a step of the sequence, at most
      its full duration left, and a completed sequence sits at zero on
      the last step. */
  predicate StretchValid(p: StretchPanel)
  {
    && 0 <= p.activeStep < |StretchSteps|
    && 0 <= p.remainingSeconds <= StretchSteps[p.activeStep].duration
    && (p.completed ==> p.activeStep == |StretchSteps| - 1 && p.remainingSeconds == 0)
  }

  /** The hydration panel's invariant: the count lies in [0, 120] and the
      benefit shown is the one for the elapsed time. */
  predicate HydrateValid(h: HydratePanel)
  {
    0 <= h.remainingSeconds <= HydrateDuration && h.benefitIndex == HydrateBenefitIndex(h.remainingSeconds)
  }

  /** What `syncStretchTimer` leaves: a closed or completed panel has no
      timer; otherwise a timer runs, and an exhausted step count is
      refilled first when none was running. */
  function StretchSynced(p: StretchPanel): (r: StretchPanel)
    ensures r.timerRunning <==> p.open && !p.completed
    ensures r.open == p.open && r.activeStep == p.activeStep && r.completed == p.completed
    ensures StretchValid(p) ==> StretchValid(r)
    ensures p.timerRunning || p.remainingSeconds > 0 ==> r.remainingSeconds == p.remainingSeconds
  {
    if !p.open || p.completed then p.(timerRunning := false)
    else if p.timerRunning then p
    else if p.remainingSeconds <= 0 then
      p.(remainingSeconds := if 0 <= p.activeStep < |StretchSteps| then StretchSteps[p.activeStep].duration else 0, timerRunning := true)
    else p.(timerRunning := true)
  }

  /** What `syncHydrateTimer` leaves: a timer runs exactly when the panel
      is open and either one already ran or there is time left. */
  function HydrateSynced(h: HydratePanel): (r: HydratePanel)
    ensures r.timerRunning <==> h.open && (h.timerRunning || h.remainingSeconds > 0)
    ensures r.(timerRunning := h.timerRunning) == h
  {
    if !h.open then h.(timerRunning := false)
    else if h.timerRunning then h
    else if h.remainingSeconds <= 0 then h
    else h.(timerRunning := true)
  }

  lemma SyncIdempotent(p: StretchPanel, h: HydratePanel)
    ensures StretchSynced(StretchSynced(p)) == StretchSynced(p)
    ensures HydrateSynced(HydrateSynced(h)) == HydrateSynced(h)
  {
  }

  /** The message `handleSubmit` shows after a failed start. */
  function StartError(result: Background.SendResult): (r: Option<string>)
    ensures r.None? <==> result.Answered? && result.response.Ok?
    ensures r.Some? ==> r.value != ""
    ensures result.Answered? && result.response.Failed? && result.response.error != "" ==> r == Some(result.response.error)
    // the fallback texts: a refusal without a reason, an unanswered request, a throw without a message
    ensures result.Answered? && result.response.Failed? && result.response.error == "" ==> r == Some(StartRefused)
    ensures result.Answered? && result.response.NoResponse? ==> r == Some(NoResponseError)
    ensures result.SendThrew? ==> r == Some(if result.message != "" then result.message else StartFailed)
  {
    match result
    case Answered(Ok(_)) => None
    case Answered(Failed(e)) => Some(if e != "" then e else StartRefused)
    case Answered(NoResponse) => Some(NoResponseError)
    case SendThrew(m) => Some(if m != "" then m else StartFailed)
  }

  class InterventionPage {
    var pending: Option<Background.PendingNavigation>
    var purpose: string
    /** `Number(state.minutes)`; `None` stands for NaN. */
    var minutes: Option<int>
    var loading: bool
    var error: Option<string>
    var music: MusicPanel
    var walk: WalkPanel
    var breathOpen: bool
    var stretch: StretchPanel
    var hydrate: HydratePanel
    var callOpen: bool
    /** Requests sent to the worker, in order. */
    var sent: seq<Background.Request>

    ghost predicate Valid()
      reads this
    {
      StretchValid(stretch) && HydrateValid(hydrate)
    }

    ghost function OpenPanels(): set<Panel>
      reads this
    {
      (if music.open then {Music} else {}) + (if walk.open then {Walk} else {}) +
      (if breathOpen then {Breathing} else {}) + (if stretch.open then {Stretching} else {}) +
      (if hydrate.open then {Hydrating} else {}) + (if callOpen then {Calling} else {})
    }

    /** The panels after `render()` from panels `s0` and `h0`: with a pending
        navigation both timers are synchronised; the empty state renders
        without touching them. */
    ghost predicate RenderedFrom(s0: StretchPanel, h0: HydratePanel)
      reads this
    {
      if pending.Some? then stretch == StretchSynced(s0) && hydrate == HydrateSynced(h0)
      else stretch == s0 && hydrate == h0
    }

    constructor ()
      ensures Valid()
      ensures pending == None && purpose == "" && minutes == Some(0) && !loading && error == None
      ensures OpenPanels() == {} && stretch == ClosedStretch && hydrate == ClosedHydrate && sent == []
    {
      pending := None;
      purpose := "";
      minutes := Some(0);
      loading := false;
      error := None;
      music := MusicPanel(false, false);
      walk := WalkPanel(false, Idle);
      breathOpen := false;
      stretch := ClosedStretch;
      hydrate := ClosedHydrate;
      callOpen := false;
      sent := [];
    }

    /** `init`: asks the worker what to show, and pre-fills the purpose of a
        session that ended in favour of asking for more time. */
    method Init(ready: Background.Response)
      requires Valid()
      modifies this
      ensures Valid()
      ensures sent == old(sent) + [Background.InterventionReady]
      ensures pending == (if ready.Ok? && ready.result.ReadyInfo? then ready.result.pendingNavigation else None)
      ensures purpose == (if pending.Some? && pending.value.previousPurpose.Some? && pending.value.previousPurpose.value != ""
                          then pending.value.previousPurpose.value else old(purpose))
      ensures RenderedFrom(old(stretch), old(hydrate))
      ensures minutes == old(minutes) && loading == old(loading) && error == old(error)
      ensures music == old(music) && walk == old(walk) && breathOpen == old(breathOpen) && callOpen == old(callOpen)
    {
      sent := sent + [Background.InterventionReady];
      pending := None;
      if ready.Ok? && ready.result.ReadyInfo? {
        pending := ready.result.pendingNavigation;
      }
      if pending.Some? && pending.value.previousPurpose.Some? && pending.value.previousPurpose.value != "" {
        purpose := pending.value.previousPurpose.value;
      }
      Render();
    }

    /** The timer part of `render()`. */
    method Render()
      requires Valid()
      modifies this`stretch, this`hydrate
      ensures Valid()
      ensures RenderedFrom(old(stretch), old(hydrate))
    {
      if pending.None? {
        return;
      }
      SyncStretchTimer();
      SyncHydrateTimer();
    }

    method StopStretchTimer()
      modifies this`stretch
      ensures stretch == old(stretch).(timerRunning := false)
    {
      if stretch.timerRunning {
        stretch := stretch.(timerRunning := false);
      }
    }

    method StartStretchTimer()
      modifies this`stretch
      ensures stretch == old(stretch).(timerRunning := true)
    {
      if stretch.timerRunning {
        return;
      }
      stretch := stretch.(timerRunning := true);
    }

    method SyncStretchTimer()
      requires Valid()
      modifies this`stretch
      ensures Valid()
      ensures stretch == StretchSynced(old(stretch))
    {
      if !stretch.open || stretch.completed {
        StopStretchTimer();
        return;
      }
      if stretch.timerRunning {
        return;
      }
      if stretch.remainingSeconds <= 0 {
        stretch := stretch.(remainingSeconds := StretchSteps[stretch.activeStep].duration);
      }
      StartStretchTimer();
    }

    /** One firing of the stretch interval: count the step down, then move
        to the next step with its full duration, and after the last step
        mark the sequence complete and stop. */
    method StretchTick()
      requires Valid() && stretch.timerRunning
      modifies this
      ensures Valid()
      ensures !old(stretch).open || old(stretch).completed ==>
        stretch == old(stretch).(timerRunning := false) && hydrate == old(hydrate)
      ensures old(stretch).open && !old(stretch).completed && old(stretch).remainingSeconds > 0 ==>
        stretch == old(stretch).(remainingSeconds := old(stretch).remainingSeconds - 1) && RenderedFrom(stretch, old(hydrate))
      ensures old(stretch).open && !old(stretch).completed && old(stretch).remainingSeconds == 0 && old(stretch).activeStep + 1 < |StretchSteps| ==>
        stretch == old(stretch).(activeStep := old(stretch).activeStep + 1, remainingSeconds := StretchSteps[old(stretch).activeStep + 1].duration)
        && RenderedFrom(stretch, old(hydrate))
      ensures old(stretch).open && !old(stretch).completed && old(stretch).remainingSeconds == 0 && old(stretch).activeStep + 1 == |StretchSteps| ==>
        stretch == old(stretch).(completed := true, remainingSeconds := 0, timerRunning := false) && RenderedFrom(stretch, old(hydrate))
      ensures pending == old(pending) && purpose == old(purpose) && minutes == old(minutes) && loading == old(loading) && error == old(error)
      ensures music == old(music) && walk == old(walk) && breathOpen == old(breathOpen) && callOpen == old(callOpen) && sent == old(sent)
    {
      if !stretch.open {
        StopStretchTimer();
        return;
      }
      if stretch.completed {
        StopStretchTimer();
        return;
      }
      if stretch.remainingSeconds > 0 {
        stretch := stretch.(remainingSeconds := stretch.remainingSeconds - 1);
        Render();
        return;
      }
      var nextIndex := stretch.activeStep + 1;
      if nextIndex < |StretchSteps| {
        stretch := stretch.(activeStep := nextIndex, remainingSeconds := StretchSteps[nextIndex].duration);
        Render();
        return;
      }
      stretch := stretch.(completed := true, remainingSeconds := 0);
      StopStretchTimer();
      Render();
    }

    method CloseStretchPanel()
      modifies this`stretch
      ensures stretch == ClosedStretch
    {
      StopStretchTimer();
      stretch := stretch.(open := false, activeStep := 0, remainingSeconds := 0, completed := false);
    }

    /** Starts the sequence over from its first step; a closed panel is
        opened instead. */
    method RestartStretchSequence()
      requires Valid()
      modifies this
      ensures Valid()
      ensures old(stretch).open ==>
        && RenderedFrom(StretchPanel(true, 0, StretchSteps[0].duration, false, false), old(hydrate))
        && music == old(music) && walk == old(walk) && breathOpen == old(breathOpen) && callOpen == old(callOpen)
      ensures !old(stretch).open ==>
        && OpenPanels() == {Stretching} && stretch == StretchPanel(true, 0, StretchSteps[0].duration, false, pending.Some?)
        && music == MusicPanel(false, false) && walk == WalkPanel(false, Idle) && hydrate == ClosedHydrate
      ensures stretch.open && stretch.activeStep == 0 && stretch.remainingSeconds == StretchSteps[0].duration && !stretch.completed
      ensures stretch.timerRunning == pending.Some?
      ensures pending == old(pending) && purpose == old(purpose) && minutes == old(minutes) && loading == old(loading) && error == old(error) && sent == old(sent)
    {
      StopStretchTimer();
      if !stretch.open {
        ShowStretchPanel();
        return;
      }
      stretch := stretch.(activeStep := 0, remainingSeconds := StretchSteps[0].duration, completed := false);
      Render();
    }

    method StopHydrateTimer()
      modifies this`hydrate
      ensures hydrate == old(hydrate).(timerRunning := false)
    {
      if hydrate.timerRunning {
        hydrate := hydrate.(timerRunning := false);
      }
    }

    method StartHydrateTimer()
      modifies this`hydrate
      ensures hydrate == old(hydrate).(timerRunning := true)
    {
      if hydrate.timerRunning {
        return;
      }
      hydrate := hydrate.(timerRunning := true);
    }

    method SyncHydrateTimer()
      modifies this`hydrate
      ensures hydrate == HydrateSynced(old(hydrate))
    {
      if !hydrate.open {
        StopHydrateTimer();
        return;
      }
      if hydrate.timerRunning {
        return;
      }
      if hydrate.remainingSeconds <= 0 {
        return;
      }
      StartHydrateTimer();
    }

    /** `updateHydrateBenefit`: on an open panel, the benefit for the time
        elapsed, or the last one when forced. */
    method UpdateHydrateBenefit(forceFinal: bool)
      modifies this`hydrate
      ensures !old(hydrate).open ==> hydrate == old(hydrate)
      ensures old(hydrate).open ==> hydrate == old(hydrate).(benefitIndex :=
        if forceFinal then |HydrateBenefits| - 1 else HydrateBenefitIndex(old(hydrate).remainingSeconds))
    {
      if !hydrate.open {
        return;
      }
      if forceFinal {
        hydrate := hydrate.(benefitIndex := |HydrateBenefits| - 1);
        return;
      }
      var elapsed := HydrateDuration - hydrate.remainingSeconds;
      var segment := Max(1, CeilDiv(HydrateDuration, |HydrateBenefits|));
      var index := Min(|HydrateBenefits| - 1, elapsed / segment);
      hydrate := hydrate.(benefitIndex := index);
    }

    /** One firing of the hydration interval: count down by one second;
        at zero, stop and show the last benefit. */
    method HydrateTick()
      requires Valid() && hydrate.timerRunning
      modifies this
      ensures Valid()
      ensures !old(hydrate).open ==> hydrate == old(hydrate).(timerRunning := false) && stretch == old(stretch)
      ensures old(hydrate).open && old(hydrate).remainingSeconds > 0 ==>
        && hydrate == HydratePanel(true, old(hydrate).remainingSeconds - 1, HydrateBenefitIndex(old(hydrate).remainingSeconds - 1), true)
        && RenderedFrom(old(stretch), hydrate)
      ensures old(hydrate).open && old(hydrate).remainingSeconds == 0 ==>
        && hydrate == HydratePanel(true, 0, |HydrateBenefits| - 1, false)
        && RenderedFrom(old(stretch), hydrate)
      ensures hydrate.remainingSeconds >= 0
      ensures pending == old(pending) && purpose == old(purpose) && minutes == old(minutes) && loading == old(loading) && error == old(error)
      ensures music == old(music) && walk == old(walk) && breathOpen == old(breathOpen) && callOpen == old(callOpen) && sent == old(sent)
    {
      if !hydrate.open {
        StopHydrateTimer();
        return;
      }
      if hydrate.remainingSeconds > 0 {
        hydrate := hydrate.(remainingSeconds := hydrate.remainingSeconds - 1);
        UpdateHydrateBenefit(false);
        Render();
        return;
      }
      StopHydrateTimer();
      hydrate := hydrate.(remainingSeconds := 0);
      UpdateHydrateBenefit(true);
      Render();
    }

    method CloseHydratePanel()
      modifies this`hydrate
      ensures hydrate == ClosedHydrate
    {
      StopHydrateTimer();
      hydrate := hydrate.(open := false, remainingSeconds := HydrateDuration, benefitIndex := 0);
    }

    /** Starts the two minutes over; a closed panel is opened instead. */
    method RestartHydrateTimer()
      requires Valid()
      modifies this
      ensures Valid()
      ensures old(hydrate).open ==>
        && RenderedFrom(old(stretch), HydratePanel(true, HydrateDuration, 0, false))
        && music == old(music) && walk == old(walk) && breathOpen == old(breathOpen) && callOpen == old(callOpen)
      ensures !old(hydrate).open ==>
        && OpenPanels() == {Hydrating} && stretch == ClosedStretch
        && music == MusicPanel(false, false) && walk == WalkPanel(false, Idle)
      ensures hydrate == HydratePanel(true, HydrateDuration, 0, pending.Some?)
      ensures pending == old(pending) && purpose == old(purpose) && minutes == old(minutes) && loading == old(loading) && error == old(error) && sent == old(sent)
    {
      StopHydrateTimer();
      if !hydrate.open {
        ShowHydratePanel();
        return;
      }
      hydrate := hydrate.(remainingSeconds := HydrateDuration, benefitIndex := 0);
      UpdateHydrateBenefit(false);
      Render();
    }

    method CloseCallPanel()
      modifies this`callOpen
      ensures !callOpen
    {
      callOpen := false;
    }

    method ShowMusicPanel()
      requires Valid()
      modifies this
      ensures Valid()
      ensures OpenPanels() == {Music}
      ensures music == MusicPanel(true, false) && walk == WalkPanel(false, Idle)
      ensures stretch == ClosedStretch && hydrate == ClosedHydrate
      ensures pending == old(pending) && purpose == old(purpose) && minutes == old(minutes) && loading == old(loading) && error == old(error) && sent == old(sent)
    {
      CloseHydratePanel();
      CloseCallPanel();
      music := MusicPanel(true, false);
      walk := WalkPanel(false, Idle);
      breathOpen := false;
      CloseStretchPanel();
      Render();
    }

    method ShowWalkPanel()
      requires Valid()
      modifies this
      ensures Valid()
      ensures OpenPanels() == {Walk}
      ensures music == MusicPanel(false, false) && walk == WalkPanel(true, Idle)
      ensures stretch == ClosedStretch && hydrate == ClosedHydrate
      ensures pending == old(pending) && purpose == old(purpose) && minutes == old(minutes) && loading == old(loading) && error == old(error) && sent == old(sent)
    {
      CloseHydratePanel();
      CloseCallPanel();
      walk := WalkPanel(true, Idle);
      music := MusicPanel(false, false);
      breathOpen := false;
      CloseStretchPanel();
      Render();
    }

    /** Unlike the others, this one leaves the walk panel's copy status as it was. */
    method ShowBreathingPanel()
      requires Valid()
      modifies this
      ensures Valid()
      ensures OpenPanels() == {Breathing}
      ensures music == MusicPanel(false, false) && walk == old(walk).(open := false)
      ensures stretch == ClosedStretch && hydrate == ClosedHydrate
      ensures pending == old(pending) && purpose == old(purpose) && minutes == old(minutes) && loading == old(loading) && error == old(error) && sent == old(sent)
    {
      CloseHydratePanel();
      CloseCallPanel();
      breathOpen := true;
      music := MusicPanel(false, false);
      walk := walk.(open := false);
      CloseStretchPanel();
      Render();
    }

    /** Opens the stretch panel on its first step with the full duration;
        the timer starts when the form is rendered. */
    method ShowStretchPanel()
      requires Valid()
      modifies this
      ensures Valid()
      ensures OpenPanels() == {Stretching}
      ensures stretch == StretchPanel(true, 0, StretchSteps[0].duration, false, pending.Some?)
      ensures music == MusicPanel(false, false) && walk == WalkPanel(false, Idle) && hydrate == ClosedHydrate
      ensures pending == old(pending) && purpose == old(purpose) && minutes == old(minutes) && loading == old(loading) && error == old(error) && sent == old(sent)
    {
      CloseHydratePanel();
      CloseCallPanel();
      StopStretchTimer();
      stretch := stretch.(open := true, activeStep := 0, remainingSeconds := StretchSteps[0].duration, completed := false);
      music := MusicPanel(false, false);
      walk := WalkPanel(false, Idle);
      breathOpen := false;
      Render();
    }

    /** Opens the hydration panel with the full two minutes. */
    method ShowHydratePanel()
      requires Valid()
      modifies this
      ensures Valid()
      ensures OpenPanels() == {Hydrating}
      ensures hydrate == HydratePanel(true, HydrateDuration, 0, pending.Some?)
      ensures music == MusicPanel(false, false) && walk == WalkPanel(false, Idle) && stretch == ClosedStretch
      ensures pending == old(pending) && purpose == old(purpose) && minutes == old(minutes) && loading == old(loading) && error == old(error) && sent == old(sent)
    {
      CloseStretchPanel();
      CloseCallPanel();
      StopHydrateTimer();
      hydrate := hydrate.(open := true, remainingSeconds := HydrateDuration, benefitIndex := 0);
      music := MusicPanel(false, false);
      walk := WalkPanel(false, Idle);
      breathOpen := false;
      Render();
    }

    method ShowCallPanel()
      requires Valid()
      modifies this
      ensures Valid()
      ensures OpenPanels() == {Calling}
      ensures music == MusicPanel(false, false) && walk == WalkPanel(false, Idle)
      ensures stretch == ClosedStretch && hydrate == ClosedHydrate
      ensures pending == old(pending) && purpose == old(purpose) && minutes == old(minutes) && loading == old(loading) && error == old(error) && sent == old(sent)
    {
      CloseStretchPanel();
      CloseHydratePanel();
      callOpen := true;
      music := MusicPanel(false, false);
      walk := WalkPanel(false, Idle);
      breathOpen := false;
      Render();
    }

    /** The form's submit: ignored while a start is in flight; an invalid
        form only shows the validation message; otherwise `start-session`
        is sent, and a failed start re-enables the form with the error. */
    method HandleSubmit(result: Background.SendResult)
      requires Valid()
      modifies this
      ensures Valid()
      ensures old(loading) ==> unchanged(this)
      ensures !old(loading) && !CanSubmit(purpose, minutes) ==>
        && sent == old(sent) && error == Some(ValidationMessage) && !loading
        && RenderedFrom(old(stretch), old(hydrate))
      ensures !old(loading) && CanSubmit(purpose, minutes) ==>
        && sent == old(sent) + [Background.StartSession(purpose, minutes.value)]
        && error == StartError(result)
        && loading == StartError(result).None?
        && RenderedFrom(old(stretch), old(hydrate))
      ensures pending == old(pending) && purpose == old(purpose) && minutes == old(minutes)
      ensures music == old(music) && walk == old(walk) && breathOpen == old(breathOpen) && callOpen == old(callOpen)
    {
      if loading {
        return;
      }
      if !CanSubmit(purpose, minutes) {
        error := Some(ValidationMessage);
        Render();
        return;
      }
      loading := true;
      error := None;
      Render();
      sent := sent + [Background.StartSession(purpose, minutes.value)];
      var failure := StartError(result);
      if failure.Some? {
        loading := false;
        error := failure;
        SyncIdempotent(stretch, hydrate);
        Render();
      }
    }

    /** Closes the timed and call panels and asks the worker to cancel the
        navigation, which closes this tab. */
    method HandleClose()
      modifies this`stretch, this`hydrate, this`callOpen, this`sent
      ensures stretch == ClosedStretch && hydrate == ClosedHydrate && !callOpen
      ensures sent == old(sent) + [Background.CancelNavigation]
    {
      CloseStretchPanel();
      CloseHydratePanel();
      CloseCallPanel();
      sent := sent + [Background.CancelNavigation];
    }
  }
}
