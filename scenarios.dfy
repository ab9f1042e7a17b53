/** End-to-end flows across the worker, the intervention page and the
    overlay, each stated as a method whose postcondition is what the user
    observes. Everything they change is freshly allocated. */
module Scenarios {
  import opened Wrappers
  import Background
  import Intervention
  import Timer

  const Home: string := "https://x.com/home"

  /** A first visit is deferred to the intervention page; starting a
      ten-minute session from it sends the tab on to the deferred site. */
  method DeferThenStart() returns (session: Background.Session, updates: seq<Background.TabUpdate>, pending: map<Background.TabId, Background.PendingNavigation>)
    ensures session == Background.Session("catch up", 10, 2000, 602000, [7], Home, Background.Active)
    ensures updates == [Background.TabUpdate(7, Background.InterventionPage), Background.TabUpdate(7, Background.Site(Home))]
    ensures pending == map[]
  {
    var worker := new Background.ServiceWorker();
    worker.HandleNavigation(7, 0, "x.com", Home, 1000);
    var started := worker.HandleStartSession(Some(7), "catch up", 10, 2000);
    session := worker.activeSession.value;
    updates := worker.tabUpdates;
    pending := worker.pendingNavigations;
  }

  /** A second tab joins a running session once however often it
      navigates; a navigation after the end expires the session, tells
      both tabs, and is deferred in turn. */
  method ExpiryByNavigation() returns (session: Background.Session, pending: map<Background.TabId, Background.PendingNavigation>, told: seq<Background.Delivery>)
    ensures session.allowedTabIds == [7, 8] && session.status == Background.Expired && session.endTime == 602000
    ensures pending == map[8 := Background.PendingNavigation(Home, 700000, None)]
    ensures told == [Background.Delivery(7, Background.SessionExpired(session)), Background.Delivery(8, Background.SessionExpired(session))]
  {
    var worker := new Background.ServiceWorker();
    worker.HandleNavigation(7, 0, "x.com", Home, 1000);
    var started := worker.HandleStartSession(Some(7), "catch up", 10, 2000);
    worker.HandleNavigation(8, 0, "twitter.com", Home, 3000);
    worker.HandleNavigation(8, 0, "www.x.com", Home, 4000);
    worker.HandleNavigation(8, 1, "x.com", Home, 5000);
    worker.HandleNavigation(8, 0, "x.com", Home, 700000);
    session := worker.activeSession.value;
    pending := worker.pendingNavigations;
    told := worker.deliveries;
  }

  /** Ending a session twice: the second end finds nothing to end and
      sends nothing more. */
  method EndTwice() returns (first: seq<Background.Delivery>, second: seq<Background.Delivery>, stored: Option<Background.Session>)
    ensures first == [Background.Delivery(7, Background.SessionEnded("user"))]
    ensures second == first && stored == None
  {
    var worker := new Background.ServiceWorker();
    worker.HandleNavigation(7, 0, "x.com", Home, 1000);
    var started := worker.HandleStartSession(Some(7), "catch up", 10, 2000);
    var closed := worker.HandleCloseSession([]);
    first := worker.deliveries;
    closed := worker.HandleCloseSession([Some(7)]);
    second := worker.deliveries;
    stored := worker.activeSession;
  }

  /** Asking for more time ends the session and sends the tab back to a
      fresh intervention page, which offers the old purpose again. */
  method ExtensionPrefillsPurpose() returns (purpose: string, stored: Option<Background.Session>)
    ensures purpose == "catch up" && stored == None
  {
    var worker := new Background.ServiceWorker();
    worker.HandleNavigation(7, 0, "x.com", Home, 1000);
    var started := worker.HandleStartSession(Some(7), "catch up", 10, 2000);
    var extended := worker.HandleRequestExtension(Some(7), 602000);
    var page := new Intervention.InterventionPage();
    var ready := worker.HandleInterventionReady(Some(7));
    page.Init(Background.Wrap(ready));
    purpose := page.purpose;
    stored := worker.activeSession;
  }

  /** A page that registers with a running session draws the overlay; the
      expiry notice from the alarm puts up the modal. */
  method OverlayExpires() returns (before: bool, after: bool, shown: Option<int>)
    ensures !before && after
    ensures shown == Some(597000)
  {
    var worker := new Background.ServiceWorker();
    worker.HandleNavigation(7, 0, "x.com", Home, 1000);
    var started := worker.HandleStartSession(Some(7), "catch up", 10, 2000);
    var overlay := new Timer.TimerOverlay();
    var registration := worker.HandleRegisterTab(Some(7));
    overlay.Bootstrap(Background.Answered(Background.Wrap(registration)), Background.SendThrew(""), 5000);
    before := overlay.modalVisible;
    shown := overlay.shownTimeLeft;
    worker.OnAlarm(Background.SessionAlarm);
    var notice := worker.deliveries[0];
    overlay.OnMessage(notice.message, 602000);
    after := overlay.modalVisible;
  }

  /** The number of stretch ticks still to come before the sequence is
      complete. */
  function TicksLeft(p: Intervention.StretchPanel): int
  {
    if p.completed then 0
    else (|Intervention.StretchSteps| - 1 - p.activeStep) * (Intervention.StretchSteps[0].duration + 1) + p.remainingSeconds + 1
  }

  /** Once opened on a page with a deferred navigation, the stretch
      sequence runs its three 40-second steps to completion in 123 ticks:
      40 per step plus one to move on after each. */
  method StretchToCompletion() returns (ticks: nat, last: Intervention.StretchPanel)
    ensures ticks == 123
    ensures last == Intervention.StretchPanel(true, |Intervention.StretchSteps| - 1, 0, true, false)
  {
    var page := new Intervention.InterventionPage();
    page.Init(Background.Ok(Background.ReadyInfo(Background.AlternativeActivities, Some(Background.PendingNavigation(Home, 1000, None)), None)));
    page.ShowStretchPanel();
    ticks := 0;
    while !page.stretch.completed
      invariant page.Valid() && page.pending.Some?
      invariant page.stretch.open
      invariant !page.stretch.completed ==> page.stretch.timerRunning
      invariant page.stretch.completed ==> !page.stretch.timerRunning
      invariant ticks + TicksLeft(page.stretch) == 123
      decreases TicksLeft(page.stretch)
    {
      page.StretchTick();
      ticks := ticks + 1;
    }
    last := page.stretch;
  }

  /** The hydration countdown runs for 121 ticks, ending at zero with the
      last benefit shown and the timer stopped. */
  method HydrateToCompletion() returns (ticks: nat, last: Intervention.HydratePanel)
    ensures ticks == 121
    ensures last == Intervention.HydratePanel(true, 0, |Intervention.HydrateBenefits| - 1, false)
  {
    var page := new Intervention.InterventionPage();
    page.Init(Background.Ok(Background.ReadyInfo(Background.AlternativeActivities, Some(Background.PendingNavigation(Home, 1000, None)), None)));
    page.ShowHydratePanel();
    ticks := 0;
    while page.hydrate.timerRunning
      invariant page.Valid() && page.pending.Some?
      invariant page.hydrate.open
      invariant page.hydrate.timerRunning ==> ticks + page.hydrate.remainingSeconds == 120
      invariant !page.hydrate.timerRunning ==> ticks == 121 && page.hydrate.remainingSeconds == 0 && page.hydrate.benefitIndex == |Intervention.HydrateBenefits| - 1
      decreases page.hydrate.remainingSeconds + (if page.hydrate.timerRunning then 1 else 0)
    {
      page.HydrateTick();
      ticks := ticks + 1;
    }
    last := page.hydrate;
  }
}
