/** The countdown overlay the content script draws on monitored pages: a
    badge with the time left, coloured by how close the end is, an
    interval that refreshes it every second, and the "time's up" modal.

    The script's `state` object becomes the fields of `TimerOverlay`; the
    DOM nodes are reduced to whether they exist, the badge's state and
    text, and whether the modal is shown. `Date.now()` is a `now`
    parameter, an interval firing is a call of `UpdateOverlay`, and the
    requests sent to the worker are appended to `sent`. */
module Timer {
  import opened Wrappers
  import Decimal
  import Background

  datatype OverlayStatus = Ok | Warning | Critical

  /** How alarming a status is, for comparing them. */
  function Severity(s: OverlayStatus): nat
  {
    match s
    case Ok => 0
    case Warning => 1
    case Critical => 2
  }

  /** `statusForMs`: compares the time left, in (fractional) minutes,
      with two and five minutes. */
  function StatusForMs(ms: int): (r: OverlayStatus)
    ensures r == Critical <==> ms <= 120000
    ensures r == Warning <==> 120000 < ms <= 300000
    ensures r == Ok <==> ms > 300000
  {
    var minutes := ms as real / 60000.0;
    if minutes <= 2.0 then Critical
    else if minutes <= 5.0 then Warning
    else Ok
  }

  /** Less time left never makes the badge less alarming. */
  lemma StatusMonotone(less: int, more: int)
    requires less <= more
    ensures Severity(StatusForMs(more)) <= Severity(StatusForMs(less))
  {
  }

  /** `formatDuration`: "MM:SS" for the whole seconds in `ms`, rounding
      down, with anything below one second shown as "00:00". */
  function FormatDuration(ms: int): (r: string)
    ensures |r| >= 5 && r[|r| - 3] == ':'
    ensures Decimal.ClockTotal(r) == Max(0, ms / 1000)
    ensures Decimal.IsDigits(Decimal.MinutesField(r)) && Decimal.Value(Decimal.MinutesField(r)) == Max(0, ms / 1000) / 60
    ensures Decimal.IsDigits(Decimal.SecondsField(r)) && Decimal.Value(Decimal.SecondsField(r)) == Max(0, ms / 1000) % 60
    ensures |Decimal.MinutesField(r)| == Max(2, |Decimal.Show(Max(0, ms / 1000) / 60)|)
    ensures |Decimal.SecondsField(r)| == 2
    ensures Max(0, ms / 1000) < 6000 ==> |r| == 5
    ensures ms < 1000 ==> r == "00:00"
  {
    var totalSeconds := Max(0, ms / 1000);
    assert ms < 1000 ==> totalSeconds == 0;
    Decimal.ClockOfZero();
    Decimal.ClockShape(totalSeconds);
    Decimal.ClockFields(totalSeconds);
    Decimal.Clock(totalSeconds)
  }

  /** `sendMessageSafe`: the response, unless the send threw or the worker
      answered with `ok: false`, both of which become `null`. */
  function SendMessageSafe(result: Background.SendResult): (r: Option<Background.Response>)
    ensures r.None? <==> result.SendThrew? || result.response.Failed?
    ensures r.Some? ==> r.value == result.response
  {
    match result
    case SendThrew(_) => None
    case Answered(response) => if response.Failed? then None else Some(response)
  }

  /** `response?.result || null` for the requests that answer with the
      current session. */
  function SessionOf(response: Option<Background.Response>): (r: Option<Background.Session>)
    ensures r.Some? <==> response.Some? && response.value.Ok? && response.value.result.SessionValue? && response.value.result.session.Some?
    ensures r.Some? ==> r == response.value.result.session
  {
    if response.Some? && response.value.Ok? && response.value.result.SessionValue? then response.value.result.session else None
  }

  /** `SessionOf(SendMessageSafe(result))` is `None` for any failed send. */
  lemma FailedSendHasNoSession(result: Background.SendResult)
    requires result.SendThrew? || result.response.Failed? || result.response.NoResponse?
    ensures SessionOf(SendMessageSafe(result)) == None
  {
  }

  /** Rank for the mutual recursion between `SetSession` and
      `UpdateOverlay`: a live, unexpired session can still be expired once. */
  function Rank(s: Option<Background.Session>): nat
  {
    if s.Some? && s.value.status != Background.Expired then 1 else 0
  }

  const Placeholder: string := "--:--"

  class TimerOverlay {
    var session: Option<Background.Session>
    var intervalRunning: bool
    var overlayPresent: bool
    /** The time left, in milliseconds, that the overlay was last drawn
        for; `None` for a freshly built overlay. */
    var shownTimeLeft: Option<int>
    var modalCreated: bool
    var modalVisible: bool
    var modalButtonsDisabled: bool
    var sent: seq<Background.Request>

    /** The overlay's `data-state`. */
    function OverlayState(): (r: OverlayStatus)
      reads this
      ensures shownTimeLeft.None? ==> r == Ok
    {
      if shownTimeLeft.None? then Ok else StatusForMs(shownTimeLeft.value)
    }

    /** The overlay's remaining-time text. */
    function RemainingText(): (r: string)
      reads this
      ensures shownTimeLeft.None? ==> r == Placeholder
      ensures shownTimeLeft.Some? ==> |r| >= 5 && Decimal.ClockTotal(r) == Max(0, shownTimeLeft.value / 1000)
    {
      if shownTimeLeft.None? then Placeholder else FormatDuration(shownTimeLeft.value)
    }

    /** The modal is only visible once built. */
    ghost predicate ModalBuilt()
      reads this
    {
      modalVisible ==> modalCreated
    }

    /** Holds between any two steps: the modal is only visible once built,
        and a stored session has not ended. */
    ghost predicate Sound()
      reads this
    {
      ModalBuilt() && (session.Some? ==> session.value.status != Background.Ended)
    }

    /** Holds after every event: the overlay and its interval exist exactly
        while there is a session. */
    ghost predicate Valid()
      reads this
    {
      Sound() && overlayPresent == session.Some? && intervalRunning == session.Some?
    }

    constructor ()
      ensures Valid()
      ensures session == None && !modalCreated && !modalVisible && !modalButtonsDisabled && sent == []
    {
      session := None;
      intervalRunning := false;
      overlayPresent := false;
      shownTimeLeft := None;
      modalCreated := false;
      modalVisible := false;
      modalButtonsDisabled := false;
      sent := [];
    }

    /** `bootstrap`: ask the worker to register this tab, fall back to asking
        for the session, and show whichever session came back. */
    method Bootstrap(registration: Background.SendResult, lookup: Background.SendResult, now: int)
      requires Valid()
      modifies this
      ensures Valid()
      ensures SessionOf(SendMessageSafe(registration)).Some? ==>
        sent == old(sent) + [Background.RegisterTab] && Shows(SessionOf(SendMessageSafe(registration)).value, now, old(modalCreated))
      ensures SessionOf(SendMessageSafe(registration)).None? && SessionOf(SendMessageSafe(lookup)).Some? ==>
        sent == old(sent) + [Background.RegisterTab, Background.GetSession] && Shows(SessionOf(SendMessageSafe(lookup)).value, now, old(modalCreated))
      ensures SessionOf(SendMessageSafe(registration)).None? && SessionOf(SendMessageSafe(lookup)).None? ==>
        sent == old(sent) + [Background.RegisterTab, Background.GetSession] && unchanged(this`session, this`intervalRunning, this`overlayPresent, this`shownTimeLeft, this`modalCreated, this`modalVisible)
      ensures modalButtonsDisabled == old(modalButtonsDisabled)
    {
      sent := sent + [Background.RegisterTab];
      var found := SessionOf(SendMessageSafe(registration));
      if found.None? {
        sent := sent + [Background.GetSession];
        found := SessionOf(SendMessageSafe(lookup));
      }
      if found.Some? {
        SetSession(found, now);
      }
    }

    /** What the display shows after `SetSession(Some(s), now)` for a session
        that has not ended: the session (expired once its end has passed),
        the badge for the time left, a running interval, and the modal
        exactly when the session is expired or due. */
    ghost predicate Shows(s: Background.Session, now: int, wasCreated: bool)
      reads this
    {
      if s.status == Background.Ended then
        session == None && !overlayPresent && !intervalRunning && !modalVisible && modalCreated == wasCreated
      else
        && session == Some(if now >= s.endTime then s.(status := Background.Expired) else s)
        && overlayPresent && intervalRunning
        && shownTimeLeft == Some(Max(0, s.endTime - now))
        && modalVisible == (s.status == Background.Expired || now >= s.endTime)
        && modalCreated == (wasCreated || modalVisible)
    }

    /** `setSession`: a missing or ended session clears the display;
        any other is drawn, refreshed and re-timed. */
    method SetSession(next: Option<Background.Session>, now: int)
      requires Sound()
      modifies this
      ensures Valid()
      ensures next.None? ==> session == None && !overlayPresent && !intervalRunning && !modalVisible && modalCreated == old(modalCreated)
      ensures next.Some? ==> Shows(next.value, now, old(modalCreated))
      ensures modalButtonsDisabled == old(modalButtonsDisabled) && sent == old(sent)
      decreases Rank(next), 1
    {
      session := next;
      if next.None? || next.value.status == Background.Ended {
        ClearSession();
        return;
      }
      EnsureOverlay();
      UpdateOverlay(now);
      RestartInterval();
      if next.value.status == Background.Expired || now >= next.value.endTime {
        ShowExpiryModal();
      } else {
        HideExpiryModal(false);
      }
    }

    /** `clearSession`: no session, no interval, no overlay, and the modal
        hidden whatever the session's status. */
    method ClearSession()
      requires ModalBuilt()
      modifies this`session, this`intervalRunning, this`overlayPresent, this`modalVisible
      ensures session == None && !intervalRunning && !overlayPresent && !modalVisible
    {
      session := None;
      if intervalRunning {
        intervalRunning := false;
      }
      RemoveOverlay();
      HideExpiryModal(true);
    }

    method RestartInterval()
      modifies this`intervalRunning
      ensures intervalRunning
    {
      intervalRunning := true;
    }

    /** A new overlay starts in the "ok" state with a placeholder text. */
    method EnsureOverlay()
      modifies this`overlayPresent, this`shownTimeLeft
      ensures overlayPresent
      ensures !old(overlayPresent) ==> shownTimeLeft == None
      ensures old(overlayPresent) ==> shownTimeLeft == old(shownTimeLeft)
    {
      if overlayPresent {
        return;
      }
      overlayPresent := true;
      shownTimeLeft := None;
    }

    method RemoveOverlay()
      modifies this`overlayPresent
      ensures !overlayPresent
    {
      overlayPresent := false;
    }

    /** `updateOverlay`, run on every interval firing: redraws the badge for
        the time left, and the first time it reaches zero re-sets the
        session as expired and shows the modal. */
    method UpdateOverlay(now: int)
      requires Sound()
      modifies this
      ensures Sound()
      ensures old(session).None? || !old(overlayPresent) ==> unchanged(this)
      ensures old(session).Some? && old(overlayPresent) ==>
        overlayPresent && shownTimeLeft == Some(Max(0, old(session).value.endTime - now))
      ensures old(session).Some? && old(overlayPresent) && now >= old(session).value.endTime && old(session).value.status != Background.Expired ==>
        && session == Some(old(session).value.(status := Background.Expired))
        && intervalRunning && modalCreated && modalVisible
      ensures old(session).Some? && old(overlayPresent) && (now < old(session).value.endTime || old(session).value.status == Background.Expired) ==>
        unchanged(this`session, this`intervalRunning, this`modalCreated, this`modalVisible)
      ensures old(Valid()) ==> Valid()
      ensures modalButtonsDisabled == old(modalButtonsDisabled) && sent == old(sent)
      decreases Rank(session), 0
    {
      if session.None? || !overlayPresent {
        return;
      }
      var current := session.value;
      var timeLeft := Max(0, current.endTime - now);
      shownTimeLeft := Some(timeLeft);
      if timeLeft <= 0 && current.status != Background.Expired {
        SetSession(Some(current.(status := Background.Expired)), now);
        ShowExpiryModal();
      }
    }

    /** Builds the modal on first use, then shows it. */
    method ShowExpiryModal()
      modifies this`modalCreated, this`modalVisible
      ensures modalCreated && modalVisible
    {
      if !modalCreated {
        modalCreated := true;
      }
      modalVisible := true;
    }

    /** `hideExpiryModal`: a built modal is hidden when forced, or when the
        session is live and not expired; otherwise it stays as it was. */
    method HideExpiryModal(force: bool)
      modifies this`modalVisible
      ensures modalCreated && (force || (session.Some? && session.value.status != Background.Expired)) ==> !modalVisible
      ensures !modalCreated || !(force || (session.Some? && session.value.status != Background.Expired)) ==> modalVisible == old(modalVisible)
    {
      if !modalCreated {
        return;
      }
      if force || (session.Some? && session.value.status != Background.Expired) {
        modalVisible := false;
      }
    }

    /** The runtime message listener: an expiry notice re-sets the session
        as expired, an end notice clears it. */
    method OnMessage(message: Background.TabMessage, now: int)
      requires Valid()
      modifies this
      ensures Valid()
      ensures message.SessionExpired? ==> Shows(message.session.(status := Background.Expired), now, old(modalCreated))
      ensures message.SessionEnded? ==> session == None && !overlayPresent && !intervalRunning && !modalVisible && modalCreated == old(modalCreated)
      ensures modalButtonsDisabled == old(modalButtonsDisabled) && sent == old(sent)
    {
      match message
      case SessionExpired(s) =>
        SetSession(Some(s.(status := Background.Expired)), now);
      case SessionEnded(_) =>
        ClearSession();
    }

    /** The storage listener. `change` is `None` when the change does not
        touch `activeSession`, and otherwise holds its new value. */
    method OnStorageChanged(areaName: string, change: Option<Option<Background.Session>>, now: int)
      requires Valid()
      modifies this
      ensures Valid()
      ensures areaName != "local" || change.None? ==> unchanged(this)
      ensures areaName == "local" && change.Some? && change.value.Some? ==> Shows(change.value.value, now, old(modalCreated))
      ensures areaName == "local" && change.Some? && change.value.None? ==>
        session == None && !overlayPresent && !intervalRunning && !modalVisible && modalCreated == old(modalCreated)
      ensures modalButtonsDisabled == old(modalButtonsDisabled) && sent == old(sent)
    {
      if areaName != "local" || change.None? {
        return;
      }
      var next := change.value;
      if next.Some? {
        SetSession(next, now);
      } else {
        ClearSession();
      }
    }

    /** The modal's two buttons: both are disabled, the request goes out,
        and the display is cleared whatever the answer. */
    method HandleModalAction(extend: bool)
      requires Valid()
      modifies this
      ensures Valid()
      ensures sent == old(sent) + [if extend then Background.RequestExtension else Background.CloseSession]
      ensures modalButtonsDisabled == (old(modalButtonsDisabled) || old(modalCreated))
      ensures session == None && !overlayPresent && !intervalRunning && !modalVisible && modalCreated == old(modalCreated)
    {
      if modalCreated {
        modalButtonsDisabled := true;
      }
      sent := sent + [if extend then Background.RequestExtension else Background.CloseSession];
      ClearSession();
    }
  }
}
