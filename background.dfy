/** The extension's background service worker: the only component with
    durable state. It keeps two stored records, the active session and the
    navigations deferred per tab, plus the single session-expiry alarm, and
    changes them in response to navigations, messages from its pages, the
    alarm and tab closure.

    The browser is represented by fields: the storage records and the alarm
    slot are fields of `ServiceWorker`, and what the worker asks the browser
    to do to tabs (navigate, close, deliver a message) is appended to three
    output logs. The current time is a parameter of every handler. */
module Background {
  import opened Wrappers

  type TabId = int

  /** Hosts whose top-level navigations are intercepted. Membership is by
      exact equality: a host merely ending in "x.com" does not qualify. */
  const BlockedHosts: seq<string> := ["x.com", "www.x.com", "mobile.x.com", "twitter.com", "www.twitter.com"]

  const SessionAlarm: string := "mindful-x-session-expiry"

  const MinuteMs: int := 60 * 1000

  /** The error texts handlers throw. */
  const MissingTab: string := "Missing tab context"
  const NoPending: string := "No pending navigation found"
  const NothingToExtend: string := "No active session to extend"
  const UnknownError: string := "Unknown error"

  /** `Ended` is never stored by the worker; the page overlay treats it as
      "no session". */
  datatype Status = Active | Expired | Ended

  datatype Session = Session(
    purpose: string,
    minutes: int,
    createdAt: int,
    endTime: int,
    allowedTabIds: seq<TabId>,
    targetUrl: string,
    status: Status)

  datatype PendingNavigation = PendingNavigation(targetUrl: string, createdAt: int, previousPurpose: Option<string>)

  /** An alternative activity; `caption` is the code's `label` field,
      renamed because `label` is a Dafny keyword. */
  datatype Activity = Activity(caption: string, url: string)

  const AlternativeActivities: seq<Activity> := [
    Activity("Listen to uplifting music", "https://www.youtube.com/results?search_query=motivational+songs"),
    Activity("Take a mindful walk", "https://www.google.com/search?q=5+minute+walk+ideas"),
    Activity("Hydrate and reset", "https://www.healthline.com/nutrition/how-much-water-should-you-drink-per-day"),
    Activity("Call a loved one", "https://ggia.berkeley.edu/practice/three-good-things"),
    Activity("Quick breathing exercise", "https://www.youtube.com/watch?v=SEfs5TJZ6Nk"),
    Activity("Stretch for two minutes", "https://www.youtube.com/results?search_query=2+minute+stretch")
  ]

  /** Where a tab is sent: the extension's intervention page, or a site. */
  datatype Destination = InterventionPage | Site(url: string)

  datatype TabUpdate = TabUpdate(tabId: TabId, destination: Destination)

  /** Broadcasts from the worker to the pages of allowed tabs. */
  datatype TabMessage = SessionExpired(session: Session) | SessionEnded(reason: string)

  datatype Delivery = Delivery(tabId: TabId, message: TabMessage)

  /** The message kinds the router knows; any other kind is `Unrecognised`. */
  datatype Request =
    | InterventionReady
    | StartSession(purpose: string, minutes: int)
    | CancelNavigation
    | GetSession
    | RegisterTab
    | CloseSession
    | RequestExtension
    | Unrecognised(kind: string)

  /** What a handler resolves with; `Nothing` is JavaScript's `undefined`. */
  datatype Reply =
    | Nothing
    | SessionValue(session: Option<Session>)
    | ReadyInfo(alternativeActivities: seq<Activity>, pendingNavigation: Option<PendingNavigation>, activeSession: Option<Session>)

  /** A handler either resolves with a reply or throws an error message. */
  datatype Outcome = Done(reply: Reply) | Thrown(message: string)

  /** What the router sends back: `{ok: true, result}`, `{ok: false, error}`,
      or no response at all for a kind it has no handler for. */
  datatype Response = NoResponse | Ok(result: Reply) | Failed(error: string)

  /** What a page's `chrome.runtime.sendMessage` call comes back with: the
      worker's response, or the error the call itself threw. */
  datatype SendResult = Answered(response: Response) | SendThrew(message: string)

  /** A navigation event is handled only for the top-level frame of a
      monitored host. */
  predicate Qualifies(frameId: int, host: string)
  {
    frameId == 0 && host in BlockedHosts
  }

  predicate NoDup<T(==)>(s: seq<T>)
  {
    forall i, j :: 0 <= i < j < |s| ==> s[i] != s[j]
  }

  /** Invariant of every stored session: its tab list is duplicate-free,
      its end is fixed by its start and length, and it is live. */
  predicate WellFormed(s: Session)
  {
    NoDup(s.allowedTabIds) && s.endTime == s.createdAt + s.minutes * MinuteMs && s.status != Ended
  }

  /** `if (!ids.includes(t)) ids.push(t)`. */
  function AddTab(ids: seq<TabId>, t: TabId): (r: seq<TabId>)
    ensures t in r
    ensures forall x :: x in r <==> x in ids || x == t
    ensures |ids| <= |r| <= |ids| + 1 && r[..|ids|] == ids
    ensures t in ids ==> r == ids
    ensures NoDup(ids) ==> NoDup(r)
  {
    if t in ids then ids else ids + [t]
  }

  /** `ids.filter((id) => id !== t)`. */
  function Without(ids: seq<TabId>, t: TabId): (r: seq<TabId>)
    ensures t !in r
    ensures forall x :: x in r <==> x in ids && x != t
    ensures t !in ids ==> r == ids
    ensures t in ids ==> |r| < |ids|
    ensures NoDup(ids) ==> NoDup(r)
    decreases |ids|
  {
    if ids == [] then []
    else if ids[0] == t then Without(ids[1..], t)
    else
      var rest := Without(ids[1..], t);
      assert NoDup(ids) ==> NoDup([ids[0]] + rest) by {
        if NoDup(ids) {
          NoDupTail(ids);
          NoDupConcat([ids[0]], rest);
        }
      }
      [ids[0]] + rest
  }

  lemma NoDupTail(ids: seq<TabId>)
    requires NoDup(ids) && ids != []
    ensures NoDup(ids[1..]) && ids[0] !in ids[1..]
  {
    forall k | 0 <= k < |ids| - 1
      ensures ids[1..][k] != ids[0]
    {
      assert ids[1..][k] == ids[k + 1];
    }
  }

  /** Filtering keeps the remaining tabs in their original order. */
  lemma {:induction false} WithoutKeepsOrder(ids: seq<TabId>, t: TabId, a: TabId, b: TabId)
    requires a != t && b != t
    requires exists i, j :: 0 <= i < j < |ids| && ids[i] == a && ids[j] == b
    ensures exists i, j :: 0 <= i < j < |Without(ids, t)| && Without(ids, t)[i] == a && Without(ids, t)[j] == b
    decreases |ids|
  {
    var i, j :| 0 <= i < j < |ids| && ids[i] == a && ids[j] == b;
    var rest := Without(ids[1..], t);
    if i == 0 {
      assert ids[1..][j - 1] == b;
      assert b in rest;
      var k :| 0 <= k < |rest| && rest[k] == b;
      assert Without(ids, t) == [a] + rest;
      assert Without(ids, t)[0] == a && Without(ids, t)[k + 1] == b;
    } else {
      assert ids[1..][i - 1] == a && ids[1..][j - 1] == b;
      WithoutKeepsOrder(ids[1..], t, a, b);
      var i', j' :| 0 <= i' < j' < |rest| && rest[i'] == a && rest[j'] == b;
      if ids[0] == t {
        assert Without(ids, t) == rest;
      } else {
        assert Without(ids, t) == [ids[0]] + rest;
        assert Without(ids, t)[i' + 1] == a && Without(ids, t)[j' + 1] == b;
      }
    }
  }

  /** Removing the same tab twice changes nothing the second time. */
  lemma WithoutIdempotent(ids: seq<TabId>, t: TabId)
    ensures Without(Without(ids, t), t) == Without(ids, t)
  {
  }

  /** One delivery of `m` per tab, in the order of `ids`. */
  function Broadcast(ids: seq<TabId>, m: TabMessage): (r: seq<Delivery>)
    ensures |r| == |ids|
    ensures forall i :: 0 <= i < |ids| ==> r[i] == Delivery(ids[i], m)
  {
    seq(|ids|, i requires 0 <= i < |ids| => Delivery(ids[i], m))
  }

  /** The ids of queried tabs that have an id and are not in `seen`, in query order. */
  function Unseen(queried: seq<Option<TabId>>, seen: set<TabId>): (r: seq<TabId>)
    ensures forall x :: x in r <==> Some(x) in queried && x !in seen
    decreases |queried|
  {
    if queried == [] then []
    else
      var front := Unseen(queried[..|queried| - 1], seen);
      var last := queried[|queried| - 1];
      assert queried == queried[..|queried| - 1] + [last];
      if last.Some? && last.value !in seen then front + [last.value] else front
  }

  predicate DistinctIds(queried: seq<Option<TabId>>)
  {
    forall i, j :: 0 <= i < j < |queried| && queried[i].Some? ==> queried[i] != queried[j]
  }

  lemma {:induction false} UnseenDistinct(queried: seq<Option<TabId>>, seen: set<TabId>)
    requires DistinctIds(queried)
    ensures NoDup(Unseen(queried, seen))
    decreases |queried|
  {
    if queried != [] {
      var init := queried[..|queried| - 1];
      var last := queried[|queried| - 1];
      assert DistinctIds(init);
      UnseenDistinct(init, seen);
    }
  }

  lemma NoDupConcat(a: seq<TabId>, b: seq<TabId>)
    requires NoDup(a) && NoDup(b)
    requires forall x :: x in b ==> x !in a
    ensures NoDup(a + b)
  {
    forall i, j | 0 <= i < j < |a + b|
      ensures (a + b)[i] != (a + b)[j]
    {
      if i < |a| && j >= |a| {
        assert (a + b)[j] == b[j - |a|];
        assert b[j - |a|] in b;
      }
    }
  }

  /** The tabs `closeBlockedTabs` tries to remove, in order: every preferred
      tab, then every queried tab that has an id and was not preferred. It
      never removes a tab twice when the preferred list is duplicate-free
      and the query reports each tab once. */
  method CloseBlockedTabs(preferred: seq<TabId>, queried: seq<Option<TabId>>) returns (removed: seq<TabId>)
    ensures removed == preferred + Unseen(queried, set t | t in preferred)
    ensures forall t :: t in removed <==> t in preferred || Some(t) in queried
    ensures NoDup(preferred) && DistinctIds(queried) ==> NoDup(removed)
  {
    var seen: set<TabId> := {};
    removed := [];
    for i := 0 to |preferred|
      invariant seen == set t | t in preferred[..i]
      invariant removed == preferred[..i]
    {
      seen := seen + {preferred[i]};
      removed := removed + [preferred[i]];
      assert preferred[..i + 1] == preferred[..i] + [preferred[i]];
    }
    assert preferred[..|preferred|] == preferred;
    for j := 0 to |queried|
      invariant removed == preferred + Unseen(queried[..j], seen)
    {
      assert queried[..j + 1][..j] == queried[..j];
      var tab := queried[j];
      if tab.Some? && tab.value !in seen {
        removed := removed + [tab.value];
      }
    }
    assert queried[..|queried|] == queried;
    if NoDup(preferred) && DistinctIds(queried) {
      UnseenDistinct(queried, seen);
      NoDupConcat(preferred, Unseen(queried, seen));
    }
  }

  /** The router's wrapping of a handler's outcome. */
  function Wrap(o: Outcome): (r: Response)
    ensures r.Ok? <==> o.Done?
    ensures o.Done? ==> r == Ok(o.reply)
    ensures o.Thrown? ==> r.Failed? && r.error != "" && (o.message != "" ==> r.error == o.message)
    ensures o.Thrown? && o.message == "" ==> r == Failed(UnknownError)
  {
    match o
    case Done(reply) => Ok(reply)
    case Thrown(message) => Failed(if message != "" then message else UnknownError)
  }

  class ServiceWorker {
    /** The stored `activeSession` record. */
    var activeSession: Option<Session>
    /** The stored `pendingNavigations` record, keyed by tab. */
    var pendingNavigations: map<TabId, PendingNavigation>
    /** The `when` of the session alarm, if one is scheduled. */
    var alarm: Option<int>
    /** Tab navigations requested, in order. */
    var tabUpdates: seq<TabUpdate>
    /** Tab removals requested, in order. */
    var removedTabs: seq<TabId>
    /** Messages sent to tabs, in order. */
    var deliveries: seq<Delivery>

    /** A stored session is well-formed, and an alarm is scheduled only for
        the end of the stored session. */
    ghost predicate Valid()
      reads this
    {
      (activeSession.Some? ==> WellFormed(activeSession.value)) &&
      (alarm.Some? ==> activeSession.Some? && alarm.value == activeSession.value.endTime)
    }

    /** Freshly installed: no session, no pending navigation, no alarm. */
    constructor ()
      ensures Valid()
      ensures activeSession == None && pendingNavigations == map[] && alarm == None
      ensures tabUpdates == [] && removedTabs == [] && deliveries == []
    {
      activeSession := None;
      pendingNavigations := map[];
      alarm := None;
      tabUpdates := [];
      removedTabs := [];
      deliveries := [];
    }

    method NotifyTabs(ids: seq<TabId>, m: TabMessage)
      modifies this`deliveries
      ensures deliveries == old(deliveries) + Broadcast(ids, m)
    {
      deliveries := deliveries + Broadcast(ids, m);
    }

    method FocusAndNavigate(tabId: TabId, d: Destination)
      modifies this`tabUpdates
      ensures tabUpdates == old(tabUpdates) + [TabUpdate(tabId, d)]
    {
      tabUpdates := tabUpdates + [TabUpdate(tabId, d)];
    }

    /** Clears any session alarm and schedules a new one for `when`. */
    method CreateSessionAlarm(when: int)
      modifies this`alarm
      ensures alarm == Some(when)
    {
      alarm := None;
      alarm := Some(when);
    }

    /** Records the navigation as pending for the tab, replacing any earlier
        entry for it, and sends the tab to the intervention page. */
    method RedirectToIntervention(tabId: TabId, targetUrl: string, now: int)
      modifies this`pendingNavigations, this`tabUpdates
      ensures pendingNavigations == old(pendingNavigations)[tabId := PendingNavigation(targetUrl, now, None)]
      ensures tabUpdates == old(tabUpdates) + [TabUpdate(tabId, InterventionPage)]
    {
      pendingNavigations := pendingNavigations[tabId := PendingNavigation(targetUrl, now, None)];
      FocusAndNavigate(tabId, InterventionPage);
    }

    /** A top-level navigation to `url`, whose host is `host`. */
    method HandleNavigation(tabId: TabId, frameId: int, host: string, url: string, now: int)
      requires Valid()
      modifies this
      ensures Valid()
      ensures !Qualifies(frameId, host) ==> unchanged(this)
      ensures Qualifies(frameId, host) ==> alarm == old(alarm) && removedTabs == old(removedTabs)
      // no session: defer and redirect
      ensures Qualifies(frameId, host) && old(activeSession).None? ==>
        && activeSession == None
        && pendingNavigations == old(pendingNavigations)[tabId := PendingNavigation(url, now, None)]
        && tabUpdates == old(tabUpdates) + [TabUpdate(tabId, InterventionPage)]
        && deliveries == old(deliveries)
      // session past its end: expire it, tell its tabs, then defer and redirect
      ensures Qualifies(frameId, host) && old(activeSession).Some? && now >= old(activeSession).value.endTime ==>
        && activeSession == Some(old(activeSession).value.(status := Expired))
        && pendingNavigations == old(pendingNavigations)[tabId := PendingNavigation(url, now, None)]
        && tabUpdates == old(tabUpdates) + [TabUpdate(tabId, InterventionPage)]
        && deliveries == old(deliveries) + Broadcast(old(activeSession).value.allowedTabIds, SessionExpired(old(activeSession).value.(status := Expired)))
      // session still running: let the tab in, without a redirect
      ensures Qualifies(frameId, host) && old(activeSession).Some? && now < old(activeSession).value.endTime ==>
        && activeSession == Some(old(activeSession).value.(allowedTabIds := AddTab(old(activeSession).value.allowedTabIds, tabId)))
        && pendingNavigations == old(pendingNavigations)
        && tabUpdates == old(tabUpdates)
        && deliveries == old(deliveries)
    {
      if frameId != 0 {
        return;
      }
      if host !in BlockedHosts {
        return;
      }
      if activeSession.Some? {
        var session := activeSession.value;
        if now >= session.endTime {
          session := session.(status := Expired);
          activeSession := Some(session);
          NotifyTabs(session.allowedTabIds, SessionExpired(session));
          RedirectToIntervention(tabId, url, now);
          return;
        }
        if tabId !in session.allowedTabIds {
          session := session.(allowedTabIds := session.allowedTabIds + [tabId]);
          activeSession := Some(session);
        }
        return;
      }
      RedirectToIntervention(tabId, url, now);
    }

    /** The alarm callback. Another alarm's name is ignored; the session
        alarm, being one-shot, leaves the slot empty, and flips a stored
        session to expired without looking at its end time. */
    method OnAlarm(name: string)
      requires Valid()
      modifies this
      ensures Valid()
      ensures name != SessionAlarm ==> unchanged(this)
      ensures name == SessionAlarm ==>
        && alarm == None
        && pendingNavigations == old(pendingNavigations)
        && tabUpdates == old(tabUpdates) && removedTabs == old(removedTabs)
        && activeSession == (if old(activeSession).Some? then Some(old(activeSession).value.(status := Expired)) else None)
        && deliveries == old(deliveries) + (if old(activeSession).Some? then Broadcast(old(activeSession).value.allowedTabIds, SessionExpired(old(activeSession).value.(status := Expired))) else [])
    {
      if name != SessionAlarm {
        return;
      }
      alarm := None;
      if activeSession.None? {
        return;
      }
      var session := activeSession.value.(status := Expired);
      activeSession := Some(session);
      NotifyTabs(session.allowedTabIds, SessionExpired(session));
    }

    /** A tab was closed: forget its pending navigation and drop it from the
        session's tabs, keeping the session even when no tab is left. */
    method OnTabRemoved(tabId: TabId)
      requires Valid()
      modifies this
      ensures Valid()
      ensures pendingNavigations == old(pendingNavigations) - {tabId}
      ensures activeSession == (if old(activeSession).Some? then Some(old(activeSession).value.(allowedTabIds := Without(old(activeSession).value.allowedTabIds, tabId))) else None)
      ensures alarm == old(alarm)
      ensures tabUpdates == old(tabUpdates) && removedTabs == old(removedTabs) && deliveries == old(deliveries)
    {
      if tabId in pendingNavigations {
        pendingNavigations := pendingNavigations - {tabId};
      }
      if activeSession.None? {
        return;
      }
      var session := activeSession.value;
      var nextAllowed := Without(session.allowedTabIds, tabId);
      if |nextAllowed| != |session.allowedTabIds| {
        activeSession := Some(session.(allowedTabIds := nextAllowed));
      }
    }

    /** Ends the session: with none stored, only the optional tab sweep
        happens; otherwise the alarm is cleared, the record removed, the
        tabs optionally closed, and the former tabs told why. */
    method EndSession(closeTabs: bool, reason: string, openBlockedTabs: seq<Option<TabId>>)
      requires Valid()
      modifies this
      ensures Valid()
      ensures activeSession == None && alarm == None
      ensures pendingNavigations == old(pendingNavigations) && tabUpdates == old(tabUpdates)
      ensures old(activeSession).None? ==>
        && deliveries == old(deliveries)
        && removedTabs == old(removedTabs) + (if closeTabs then Unseen(openBlockedTabs, {}) else [])
      ensures old(activeSession).Some? ==>
        && deliveries == old(deliveries) + Broadcast(old(activeSession).value.allowedTabIds, SessionEnded(reason))
        && removedTabs == old(removedTabs) + (if closeTabs then old(activeSession).value.allowedTabIds + Unseen(openBlockedTabs, set t | t in old(activeSession).value.allowedTabIds) else [])
      ensures closeTabs && old(activeSession).Some? && DistinctIds(openBlockedTabs) ==> NoDup(removedTabs[|old(removedTabs)|..])
    {
      if activeSession.None? {
        if closeTabs {
          var removed := CloseBlockedTabs([], openBlockedTabs);
          assert (set t: TabId | t in []) == {};
          removedTabs := removedTabs + removed;
        }
        return;
      }
      var session := activeSession.value;
      alarm := None;
      activeSession := None;
      if closeTabs {
        var removed := CloseBlockedTabs(session.allowedTabIds, openBlockedTabs);
        removedTabs := removedTabs + removed;
        assert removedTabs[|old(removedTabs)|..] == removed;
      }
      NotifyTabs(session.allowedTabIds, SessionEnded(reason));
    }

    /** `intervention-ready`: what the intervention page needs to render,
        read from storage; the empty frame says nothing changes. */
    method HandleInterventionReady(sender: Option<TabId>) returns (o: Outcome)
      ensures o == Done(ReadyInfo(
        AlternativeActivities,
        if sender.Some? && sender.value in pendingNavigations then Some(pendingNavigations[sender.value]) else None,
        activeSession))
    {
      var entry: Option<PendingNavigation> := None;
      if sender.Some? && sender.value in pendingNavigations {
        entry := Some(pendingNavigations[sender.value]);
      }
      o := Done(ReadyInfo(AlternativeActivities, entry, activeSession));
    }

    /** `start-session`: turns the tab's pending navigation into a session
        of `minutes` minutes that only this tab may use, replacing any
        stored session, then sends the tab to the deferred site. */
    method HandleStartSession(sender: Option<TabId>, purpose: string, minutes: int, now: int) returns (o: Outcome)
      requires Valid()
      modifies this
      ensures Valid()
      ensures sender.None? ==> o == Thrown(MissingTab) && unchanged(this)
      ensures sender.Some? && sender.value !in old(pendingNavigations) ==> o == Thrown(NoPending) && unchanged(this)
      ensures sender.Some? && sender.value in old(pendingNavigations) ==>
        var s := Session(purpose, minutes, now, now + minutes * MinuteMs, [sender.value],
                         old(pendingNavigations)[sender.value].targetUrl, Active);
        && o == Done(SessionValue(Some(s)))
        && activeSession == Some(s)
        && alarm == Some(s.endTime)
        && pendingNavigations == old(pendingNavigations) - {sender.value}
        && tabUpdates == old(tabUpdates) + [TabUpdate(sender.value, Site(s.targetUrl))]
        && removedTabs == old(removedTabs) && deliveries == old(deliveries)
      // a session of the length the page accepts lasts one to 120 minutes
      ensures o.Done? && 1 <= minutes <= 120 ==>
        MinuteMs <= activeSession.value.endTime - activeSession.value.createdAt <= 120 * MinuteMs
    {
      if sender.None? {
        return Thrown(MissingTab);
      }
      var tabId := sender.value;
      if tabId !in pendingNavigations {
        return Thrown(NoPending);
      }
      var entry := pendingNavigations[tabId];
      var ms := minutes * 60 * 1000;
      var session := Session(purpose, minutes, now, now + ms, [tabId], entry.targetUrl, Active);
      activeSession := Some(session);
      CreateSessionAlarm(session.endTime);
      pendingNavigations := pendingNavigations - {tabId};
      FocusAndNavigate(tabId, Site(session.targetUrl));
      o := Done(SessionValue(Some(session)));
    }

    /** `cancel-navigation`: forgets the tab's pending navigation and closes it. */
    method HandleCancelNavigation(sender: Option<TabId>) returns (o: Outcome)
      requires Valid()
      modifies this
      ensures Valid()
      ensures sender.None? ==> o == Thrown(MissingTab) && unchanged(this)
      ensures sender.Some? ==>
        && o == Done(Nothing)
        && pendingNavigations == old(pendingNavigations) - {sender.value}
        && removedTabs == old(removedTabs) + [sender.value]
        && activeSession == old(activeSession) && alarm == old(alarm)
        && tabUpdates == old(tabUpdates) && deliveries == old(deliveries)
    {
      if sender.None? {
        return Thrown(MissingTab);
      }
      var tabId := sender.value;
      if tabId in pendingNavigations {
        pendingNavigations := pendingNavigations - {tabId};
      }
      removedTabs := removedTabs + [tabId];
      o := Done(Nothing);
    }

    /** `get-session`: the stored session as it is. The contract is the
        whole specification: the empty frame says nothing else changes. */
    method HandleGetSession() returns (o: Outcome)
      ensures o == Done(SessionValue(activeSession))
    {
      o := Done(SessionValue(activeSession));
    }

    /** `register-tab`: lets the calling tab into a stored session, expired
        or not, unless it is already listed. */
    method HandleRegisterTab(sender: Option<TabId>) returns (o: Outcome)
      requires Valid()
      modifies this
      ensures Valid()
      ensures sender.None? || old(activeSession).None? ==> o == Done(SessionValue(None)) && unchanged(this)
      ensures sender.Some? && old(activeSession).Some? ==>
        && activeSession == Some(old(activeSession).value.(allowedTabIds := AddTab(old(activeSession).value.allowedTabIds, sender.value)))
        && o == Done(SessionValue(activeSession))
        && pendingNavigations == old(pendingNavigations) && alarm == old(alarm)
        && tabUpdates == old(tabUpdates) && removedTabs == old(removedTabs) && deliveries == old(deliveries)
    {
      if sender.None? {
        return Done(SessionValue(None));
      }
      var tabId := sender.value;
      if activeSession.None? {
        return Done(SessionValue(None));
      }
      var session := activeSession.value;
      if tabId !in session.allowedTabIds {
        session := session.(allowedTabIds := session.allowedTabIds + [tabId]);
        activeSession := Some(session);
      }
      o := Done(SessionValue(Some(session)));
    }

    /** `close-session`: ends the session at the user's request, closing its tabs. */
    method HandleCloseSession(openBlockedTabs: seq<Option<TabId>>) returns (o: Outcome)
      requires Valid()
      modifies this
      ensures Valid()
      ensures o == Done(Nothing)
      ensures activeSession == None && alarm == None
      ensures pendingNavigations == old(pendingNavigations) && tabUpdates == old(tabUpdates)
      ensures old(activeSession).None? ==>
        deliveries == old(deliveries) && removedTabs == old(removedTabs) + Unseen(openBlockedTabs, {})
      ensures old(activeSession).Some? ==>
        && deliveries == old(deliveries) + Broadcast(old(activeSession).value.allowedTabIds, SessionEnded("user"))
        && removedTabs == old(removedTabs) + old(activeSession).value.allowedTabIds + Unseen(openBlockedTabs, set t | t in old(activeSession).value.allowedTabIds)
    {
      EndSession(true, "user", openBlockedTabs);
      o := Done(Nothing);
    }

    /** `request-extension`: ends the session without closing tabs and
        defers the session's site again for the calling tab, remembering
        the old purpose, so that a new session must be asked for. */
    method HandleRequestExtension(sender: Option<TabId>, now: int) returns (o: Outcome)
      requires Valid()
      modifies this
      ensures Valid()
      ensures old(activeSession).None? || sender.None? ==> o == Thrown(NothingToExtend) && unchanged(this)
      ensures old(activeSession).Some? && sender.Some? ==>
        var old_ := old(activeSession).value;
        && o == Done(Nothing)
        && activeSession == None && alarm == None
        && pendingNavigations == old(pendingNavigations)[sender.value := PendingNavigation(old_.targetUrl, now, Some(old_.purpose))]
        && deliveries == old(deliveries) + Broadcast(old_.allowedTabIds, SessionEnded("extend"))
        && tabUpdates == old(tabUpdates) + [TabUpdate(sender.value, InterventionPage)]
        && removedTabs == old(removedTabs)
    {
      var session := activeSession;
      if session.None? || sender.None? {
        return Thrown(NothingToExtend);
      }
      var tabId := sender.value;
      EndSession(false, "extend", []);
      pendingNavigations := pendingNavigations[tabId := PendingNavigation(session.value.targetUrl, now, Some(session.value.purpose))];
      FocusAndNavigate(tabId, InterventionPage);
      o := Done(Nothing);
    }

    /** The message router: runs the handler for the request's kind and
        turns what it resolves or throws into a response. A failed request
        leaves every record and log as it was. */
    method Route(request: Request, sender: Option<TabId>, now: int, openBlockedTabs: seq<Option<TabId>>) returns (response: Response)
      requires Valid()
      modifies this
      ensures Valid()
      ensures response.NoResponse? <==> request.Unrecognised?
      ensures request.Unrecognised? ==> unchanged(this)
      ensures response.Failed? ==> unchanged(this) && response.error in {MissingTab, NoPending, NothingToExtend}
      ensures request.GetSession? ==> response == Ok(SessionValue(old(activeSession))) && unchanged(this)
      ensures request.StartSession? ==> (response.Ok? <==> sender.Some? && sender.value in old(pendingNavigations))
      ensures request.RequestExtension? ==> (response.Ok? <==> sender.Some? && old(activeSession).Some?)
      ensures request.CancelNavigation? ==> (response.Ok? <==> sender.Some?)
      ensures request.InterventionReady? || request.RegisterTab? || request.CloseSession? ==> response.Ok?
      // what each handler's success leaves behind
      ensures request.InterventionReady? ==>
        && response == Ok(ReadyInfo(AlternativeActivities,
             if sender.Some? && sender.value in old(pendingNavigations) then Some(old(pendingNavigations)[sender.value]) else None,
             old(activeSession)))
        && unchanged(this)
      ensures request.StartSession? && response.Ok? ==>
        var s := Session(request.purpose, request.minutes, now, now + request.minutes * MinuteMs, [sender.value],
                         old(pendingNavigations)[sender.value].targetUrl, Active);
        && response == Ok(SessionValue(Some(s)))
        && activeSession == Some(s) && alarm == Some(s.endTime)
        && pendingNavigations == old(pendingNavigations) - {sender.value}
        && tabUpdates == old(tabUpdates) + [TabUpdate(sender.value, Site(s.targetUrl))]
        && removedTabs == old(removedTabs) && deliveries == old(deliveries)
      ensures request.CancelNavigation? && response.Ok? ==>
        && response == Ok(Nothing)
        && pendingNavigations == old(pendingNavigations) - {sender.value}
        && removedTabs == old(removedTabs) + [sender.value]
        && activeSession == old(activeSession) && alarm == old(alarm)
        && tabUpdates == old(tabUpdates) && deliveries == old(deliveries)
      ensures request.RegisterTab? ==>
        && response == Ok(SessionValue(if sender.Some? then activeSession else None))
        && activeSession == (if sender.Some? && old(activeSession).Some?
             then Some(old(activeSession).value.(allowedTabIds := AddTab(old(activeSession).value.allowedTabIds, sender.value)))
             else old(activeSession))
        && pendingNavigations == old(pendingNavigations) && alarm == old(alarm)
        && tabUpdates == old(tabUpdates) && removedTabs == old(removedTabs) && deliveries == old(deliveries)
      ensures request.CloseSession? ==>
        && response == Ok(Nothing)
        && activeSession == None && alarm == None
        && pendingNavigations == old(pendingNavigations) && tabUpdates == old(tabUpdates)
        && deliveries == old(deliveries) + (if old(activeSession).Some? then Broadcast(old(activeSession).value.allowedTabIds, SessionEnded("user")) else [])
        && removedTabs == old(removedTabs) + (if old(activeSession).Some?
             then old(activeSession).value.allowedTabIds + Unseen(openBlockedTabs, set t | t in old(activeSession).value.allowedTabIds)
             else Unseen(openBlockedTabs, {}))
      ensures request.RequestExtension? && response.Ok? ==>
        var ended := old(activeSession).value;
        && response == Ok(Nothing)
        && activeSession == None && alarm == None
        && pendingNavigations == old(pendingNavigations)[sender.value := PendingNavigation(ended.targetUrl, now, Some(ended.purpose))]
        && deliveries == old(deliveries) + Broadcast(ended.allowedTabIds, SessionEnded("extend"))
        && tabUpdates == old(tabUpdates) + [TabUpdate(sender.value, InterventionPage)]
        && removedTabs == old(removedTabs)
    {
      var outcome: Outcome;
      match request {
        case Unrecognised(_) =>
          return NoResponse;
        case InterventionReady =>
          outcome := HandleInterventionReady(sender);
        case StartSession(purpose, minutes) =>
          outcome := HandleStartSession(sender, purpose, minutes, now);
        case CancelNavigation =>
          outcome := HandleCancelNavigation(sender);
        case GetSession =>
          outcome := HandleGetSession();
        case RegisterTab =>
          outcome := HandleRegisterTab(sender);
        case CloseSession =>
          outcome := HandleCloseSession(openBlockedTabs);
        case RequestExtension =>
          outcome := HandleRequestExtension(sender, now);
      }
      response := Wrap(outcome);
    }
  }

  /** Only exact monitored hosts qualify: neighbouring or deeper subdomains
      and look-alike hosts do not, and neither does a sub-frame. */
  lemma ExactHostsOnly()
    ensures Qualifies(0, "x.com") && Qualifies(0, "www.x.com") && Qualifies(0, "mobile.x.com")
    ensures Qualifies(0, "twitter.com") && Qualifies(0, "www.twitter.com")
    ensures !Qualifies(0, "api.x.com") && !Qualifies(0, "mobile.twitter.com") && !Qualifies(0, "notx.com")
    ensures !Qualifies(1, "x.com")
  {
  }
}
