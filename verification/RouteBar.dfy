/** The page's URL fragment: debounced route changes and out-of-order encodes in
  * web/boot.ts. The bar belongs to one open session at a time. */
module RouteBar {
  import opened Wrappers
  import ScalarDiff

  type Session = nat
  type Route = string

  /** `Shows(s, r)` is any fragment the kernel made of route `r` for session `s`. */
  datatype Bar = Untouched | Cleared | Shows(session: Session, route: Route)

  datatype Encode = Encode(session: Session, ask: nat, route: Route)

  /** `accepted` is the last route each session set and `newest` the last it asked to have
    * encoded; since it opened, `wrote` is the last it put in the bar and `failed` whether
    * its newest ask came to nothing. All four are history. */
  datatype Page = Page(frames: set<Session>, timers: map<Session, Route>, asks: map<Session, nat>,
                       flying: map<nat, Encode>, sent: nat, owner: Option<Session>, bar: Bar,
                       accepted: map<Session, Route>, newest: map<Session, Route>,
                       wrote: map<Session, Route>, failed: set<Session>)

  const INIT: Page := Page({}, map[], map[], map[], 0, None, Untouched, map[], map[], map[], {})

  const ROUTE_CAP: nat := 238

  predicate Fits(route: Route) {
    |ScalarDiff.Utf8(route)| <= ROUTE_CAP
  }

  datatype Event =
    | FrameUp(session: Session, route: Route)
    | RouteSet(session: Session, route: Route)
    | TimerFires(session: Session)
    | Encoded(id: nat)
    | EncodeFails(id: nat)
    | Close(session: Session)

  // ---- The handlers ------------------------------------------------------

  function NextAsk(asks: map<Session, nat>, s: Session): nat {
    (if s in asks then asks[s] else 0) + 1
  }

  function Ask(p: Page, s: Session, route: Route): Page {
    var ask := NextAsk(p.asks, s);
    p.(asks := p.asks[s := ask], flying := p.flying[p.sent := Encode(s, ask, route)], sent := p.sent + 1,
       newest := p.newest[s := route], failed := p.failed - {s})
  }

  /** The end of `openFrame`. */
  function OnFrameUp(p: Page, s: Session, route: Route): Page {
    Ask(p.(frames := p.frames + {s}, accepted := p.accepted[s := route]), s, route)
  }

  function OnRouteSet(p: Page, s: Session, route: Route): Page {
    if s !in p.frames || !Fits(route) then p
    else p.(timers := p.timers[s := route], accepted := p.accepted[s := route])
  }

  function OnTimer(p: Page, s: Session): Page {
    if s !in p.timers then p else Ask(p.(timers := p.timers - {s}), s, p.timers[s])
  }

  predicate IsNewest(p: Page, e: Encode) {
    e.session in p.frames && e.session in p.asks && p.asks[e.session] == e.ask
  }

  function OnEncoded(p: Page, id: nat): Page {
    if id !in p.flying then p
    else
      var e := p.flying[id];
      var q := p.(flying := p.flying - {id});
      if !IsNewest(p, e) then q
      else q.(owner := Some(e.session), bar := Shows(e.session, e.route),
              wrote := p.wrote[e.session := e.route], failed := p.failed - {e.session})
  }

  function OnEncodeFails(p: Page, id: nat): Page {
    if id !in p.flying then p
    else
      var e := p.flying[id];
      p.(flying := p.flying - {id}, failed := if IsNewest(p, e) then p.failed + {e.session} else p.failed)
  }

  function OnClose(p: Page, s: Session): Page {
    var q := p.(frames := p.frames - {s}, timers := p.timers - {s}, asks := p.asks - {s},
                wrote := p.wrote - {s}, failed := p.failed - {s});
    if p.owner == Some(s) then q.(owner := None, bar := Cleared) else q
  }

  function Step(p: Page, e: Event): Page {
    match e
    case FrameUp(s, route) => OnFrameUp(p, s, route)
    case RouteSet(s, route) => OnRouteSet(p, s, route)
    case TimerFires(s) => OnTimer(p, s)
    case Encoded(id) => OnEncoded(p, id)
    case EncodeFails(id) => OnEncodeFails(p, id)
    case Close(s) => OnClose(p, s)
  }

  function Run(events: seq<Event>): (p: Page)
    decreases |events|
  {
    if events == [] then INIT else Step(Run(events[..|events| - 1]), events[|events| - 1])
  }

  // ---- What the events say -----------------------------------------------

  /** The last frame of `s` to come up has not been closed. */
  predicate IsUp(events: seq<Event>, s: Session)
    decreases |events|
  {
    if events == [] then false
    else
      var e := events[|events| - 1];
      if e == Close(s) then false
      else (e.FrameUp? && e.session == s) || IsUp(events[..|events| - 1], s)
  }

  /** An event that gives `s` a route: a frame of it that comes up at one, or the app's
    * setting one of at most 238 bytes. */
  predicate Gives(e: Event, s: Session) {
    && (e.FrameUp? || e.RouteSet?) && e.session == s
    && (e.RouteSet? ==> |ScalarDiff.Utf8(e.route)| <= 238)
  }

  /** The last route it was given, if any. */
  function LastRoute(events: seq<Event>, s: Session): Option<Route>
    decreases |events|
  {
    if events == [] then None
    else if Gives(events[|events| - 1], s) then Some(events[|events| - 1].route)
    else LastRoute(events[..|events| - 1], s)
  }

  lemma StepIsAsTold(p: Page, e: Event, s: Session)
    ensures var q := Step(p, e);
            && (s in q.frames <==> e != Close(s) && ((e.FrameUp? && e.session == s) || s in p.frames))
            && (s in q.frames && Gives(e, s) ==> s in q.accepted && q.accepted[s] == e.route)
            && (s in q.frames && !Gives(e, s) && s in p.accepted ==> s in q.accepted && q.accepted[s] == p.accepted[s])
            && (s in q.failed ==> s in p.failed || e.EncodeFails?)
  {
    match e
    case FrameUp(_, _) =>
    case RouteSet(_, _) =>
    case TimerFires(_) =>
    case Encoded(_) =>
    case EncodeFails(_) =>
    case Close(_) =>
  }

  /** In every run, the frames up are the ones the events have up, and what each session
    * set last is what they say; and without a failure no ask is taken to have failed. */
  lemma {:induction false} RunIsAsTold(events: seq<Event>, s: Session)
    ensures var p := Run(events);
            && (s in p.frames <==> IsUp(events, s))
            && (s in p.frames ==> s in p.accepted && LastRoute(events, s) == Some(p.accepted[s]))
            && (s in p.failed ==> exists i :: 0 <= i < |events| && events[i].EncodeFails?)
    decreases |events|
  {
    if events != [] {
      var front := events[..|events| - 1];
      RunIsAsTold(front, s);
      StepIsAsTold(Run(front), events[|events| - 1], s);
      if i :| 0 <= i < |front| && front[i].EncodeFails? { assert events[i].EncodeFails?; }
    }
  }

  // ---- Who owns the bar --------------------------------------------------

  /** The bar shows its owner's last write, and its owner is open. */
  ghost predicate Owned(p: Page) {
    && p.asks.Keys == p.frames && p.timers.Keys <= p.frames && p.wrote.Keys <= p.frames
    && match p.owner
       case None => !p.bar.Shows?
       case Some(s) => s in p.frames && s in p.wrote && p.bar == Shows(s, p.wrote[s])
  }

  lemma StepOwns(p: Page, e: Event)
    requires Owned(p)
    ensures Owned(Step(p, e))
  {
  }

  lemma {:induction false} RunOwns(events: seq<Event>)
    ensures Owned(Run(events))
    decreases |events|
  {
    if events != [] {
      RunOwns(events[..|events| - 1]);
      StepOwns(Run(events[..|events| - 1]), events[|events| - 1]);
    }
  }

  /** In any state of any run: only the newest encode of an open session writes the bar,
    * and only its owner's closing clears it. */
  lemma BarChangesExactlyWhen(events: seq<Event>, e: Event)
    ensures var p := Run(events); var q := Step(p, e);
            && (q.bar == Cleared && p.bar != Cleared <==> e.Close? && p.owner == Some(e.session))
            && (forall s, r :: q.bar == Shows(s, r) && q.bar != p.bar ==>
                  && e.Encoded? && e.id in p.flying && s in p.frames && s in p.asks
                  && p.flying[e.id] == Encode(s, p.asks[s], r))
            && (e.Encoded? && e.id in p.flying && IsNewest(p, p.flying[e.id]) ==>
                  q.bar == Shows(p.flying[e.id].session, p.flying[e.id].route))
  {
    RunOwns(events);
  }

  // ---- A closed session --------------------------------------------------

  /** Whose doing an event is. */
  function Author(p: Page, e: Event): Option<Session> {
    match e
    case FrameUp(s, _) => Some(s)
    case RouteSet(s, _) => Some(s)
    case TimerFires(s) => Some(s)
    case Close(s) => Some(s)
    case Encoded(id) => if id in p.flying then Some(p.flying[id].session) else None
    case EncodeFails(id) => if id in p.flying then Some(p.flying[id].session) else None
  }

  function Continue(p: Page, events: seq<Event>): Page
    decreases |events|, p, events
  {
    if events == [] then p else Continue(Step(p, events[0]), events[1..])
  }

  lemma Once(p: Page, e: Event)
    ensures Continue(p, [e]) == Step(p, e)
  {
    assert [e][1..] == [];
  }

  lemma {:induction false} ContinueInTurn(p: Page, first: seq<Event>, second: seq<Event>)
    ensures Continue(p, first + second) == Continue(Continue(p, first), second)
    decreases |first|
  {
    if first == [] {
      assert first + second == second;
    } else {
      assert (first + second)[1..] == first[1..] + second;
      ContinueInTurn(Step(p, first[0]), first[1..], second);
    }
  }

  lemma ContinueOne(p: Page, events: seq<Event>, e: Event)
    ensures Continue(p, events + [e]) == Step(Continue(p, events), e)
  {
    ContinueInTurn(p, events, [e]);
    Once(Continue(p, events), e);
  }

  lemma RunOne(events: seq<Event>, e: Event)
    ensures Run(events + [e]) == Step(Run(events), e)
  {
    assert (events + [e])[..|events|] == events;
  }

  ghost predicate NoFrame(events: seq<Event>, s: Session) {
    forall i | 0 <= i < |events| :: !(events[i].FrameUp? && events[i].session == s)
  }

  lemma {:induction false} StaysDown(p: Page, events: seq<Event>, s: Session)
    requires Owned(p) && s !in p.frames && NoFrame(events, s)
    ensures Owned(Continue(p, events)) && s !in Continue(p, events).frames
    decreases |events|
  {
    if events != [] {
      StepOwns(p, events[0]);
      assert !(events[0].FrameUp? && events[0].session == s);
      forall i | 0 <= i < |events[1..]| ensures !(events[1..][i].FrameUp? && events[1..][i].session == s) {
        assert events[1..][i] == events[i + 1];
      }
      StaysDown(Step(p, events[0]), events[1..], s);
    }
  }

  /** From its close on, until a frame of it finishes opening, a session does not own the
    * bar, and nothing of its doing writes or clears it. */
  lemma ClosedStaysSilent(before: seq<Event>, after: seq<Event>, s: Session, e: Event)
    requires NoFrame(after, s)
    ensures var p := Continue(Step(Run(before), Close(s)), after);
            && p.owner != Some(s) && !(p.bar.Shows? && p.bar.session == s)
            && (Author(p, e) == Some(s) ==> Step(p, e).bar == p.bar && Step(p, e).owner == p.owner)
  {
    RunOwns(before);
    StepOwns(Run(before), Close(s));
    StaysDown(Step(Run(before), Close(s)), after, s);
  }

  /** And that is exact: in any state at all, a frame that finishes opening can take the
    * bar, closed session or not. */
  lemma LateOpeningTakesTheBar(p: Page, s: Session, route: Route)
    ensures var q := Step(Step(p, FrameUp(s, route)), Encoded(p.sent));
            q.owner == Some(s) && q.bar == Shows(s, route)
  {
  }

  // ---- What holds in every run -------------------------------------------

  /** A frame comes up harmlessly: if the session is down, no encode of it is under way
    * that could be taken for a newer one; if it is up, its timer has the same route. */
  ghost predicate Fresh(p: Page, e: Event) {
    e.FrameUp? ==>
      if e.session in p.frames then e.session in p.timers ==> p.timers[e.session] == e.route
      else forall id | id in p.flying && p.flying[id].session == e.session ::
             p.flying[id].ask == 1 && p.flying[id].route == e.route
  }

  ghost predicate AllFresh(events: seq<Event>) {
    forall i | 0 <= i < |events| :: Fresh(Run(events[..i]), events[i])
  }

  /** What the page knows of an open session: its timer holds its last route, or it has
    * asked for that route's encoding. */
  ghost predicate Tracked(p: Page, s: Session) {
    && s in p.asks && s in p.accepted && s in p.newest
    && (if s in p.timers then p.timers[s] == p.accepted[s] else p.newest[s] == p.accepted[s])
  }

  /** The newest ask of an open session is under way, failed, or in its last write. */
  ghost predicate Accounted(p: Page, s: Session)
    requires Tracked(p, s)
  {
    || Encode(s, p.asks[s], p.newest[s]) in p.flying.Values
    || s in p.failed
    || (s in p.wrote && p.wrote[s] == p.newest[s])
  }

  ghost predicate Flights(p: Page) {
    && (forall id | id in p.flying :: id < p.sent && 1 <= p.flying[id].ask)
    && (forall id | id in p.flying && p.flying[id].session in p.asks ::
          p.flying[id].ask <= p.asks[p.flying[id].session])
    && (forall id | id in p.flying && IsNewest(p, p.flying[id]) && p.flying[id].session in p.newest ::
          p.flying[id].route == p.newest[p.flying[id].session])
  }

  ghost predicate Inv(p: Page) {
    Owned(p) && Flights(p) && forall s | s in p.frames :: Tracked(p, s) && Accounted(p, s)
  }

  /** An ask by `s` puts its own encode under way and leaves the others' alone. */
  lemma AskAccounts(p: Page, e: Event, t: Session)
    requires Inv(p) && Fresh(p, e) && (e.FrameUp? || (e.TimerFires? && e.session in p.timers))
    requires t in Step(p, e).frames
    ensures Tracked(Step(p, e), t) && Accounted(Step(p, e), t)
  {
    var q, s := Step(p, e), e.session;
    if t == s {
      assert q.flying[p.sent] == Encode(s, q.asks[s], q.newest[s]);
    } else {
      assert Accounted(p, t);
      assert forall id | id in p.flying :: q.flying[id] == p.flying[id];
    }
  }

  lemma AskFlights(p: Page, e: Event)
    requires Inv(p) && Fresh(p, e) && (e.FrameUp? || (e.TimerFires? && e.session in p.timers))
    ensures Flights(Step(p, e))
  {
  }

  lemma AskKeeps(p: Page, e: Event)
    requires Inv(p) && Fresh(p, e) && (e.FrameUp? || (e.TimerFires? && e.session in p.timers))
    ensures Inv(Step(p, e))
  {
    StepOwns(p, e);
    AskFlights(p, e);
    forall t | t in Step(p, e).frames ensures Tracked(Step(p, e), t) && Accounted(Step(p, e), t) {
      AskAccounts(p, e, t);
    }
  }

  /** Landing takes one encode out of the air. */
  lemma OthersFly(p: Page, id: nat, e: Encode)
    requires id in p.flying && e in p.flying.Values && p.flying[id] != e
    ensures e in (p.flying - {id}).Values
  {
    var other :| other in p.flying && p.flying[other] == e;
    assert (p.flying - {id})[other] == e;
  }

  /** So the newest encode of `t` is still under way, unless it was the one. */
  lemma StillFlies(p: Page, id: nat, t: Session)
    requires Inv(p) && id in p.flying && t in p.frames
    ensures var newest := Encode(t, p.asks[t], p.newest[t]);
            newest in p.flying.Values && p.flying[id] != newest ==> newest in (p.flying - {id}).Values
  {
    var newest := Encode(t, p.asks[t], p.newest[t]);
    if newest in p.flying.Values && p.flying[id] != newest { OthersFly(p, id, newest); }
  }

  lemma EncodedAccounts(p: Page, id: nat, t: Session)
    requires Inv(p) && id in p.flying && t in p.frames
    ensures Tracked(OnEncoded(p, id), t) && Accounted(OnEncoded(p, id), t)
  {
    assert Accounted(p, t);
    StillFlies(p, id, t);
  }

  lemma FailureAccounts(p: Page, id: nat, t: Session)
    requires Inv(p) && id in p.flying && t in p.frames
    ensures Tracked(OnEncodeFails(p, id), t) && Accounted(OnEncodeFails(p, id), t)
  {
    assert Accounted(p, t);
    StillFlies(p, id, t);
  }

  lemma EncodedKeeps(p: Page, id: nat)
    requires Inv(p) && id in p.flying
    ensures Inv(OnEncoded(p, id))
  {
    forall t | t in p.frames ensures Tracked(OnEncoded(p, id), t) && Accounted(OnEncoded(p, id), t) {
      EncodedAccounts(p, id, t);
    }
  }

  lemma FailureKeeps(p: Page, id: nat)
    requires Inv(p) && id in p.flying
    ensures Inv(OnEncodeFails(p, id))
  {
    forall t | t in p.frames ensures Tracked(OnEncodeFails(p, id), t) && Accounted(OnEncodeFails(p, id), t) {
      FailureAccounts(p, id, t);
    }
  }

  lemma CloseFlights(p: Page, s: Session)
    requires Inv(p)
    ensures Flights(OnClose(p, s))
  {
  }

  lemma CloseKeeps(p: Page, s: Session)
    requires Inv(p)
    ensures Inv(OnClose(p, s))
  {
    StepOwns(p, Close(s));
    CloseFlights(p, s);
    forall t | t in p.frames - {s} ensures Tracked(OnClose(p, s), t) && Accounted(OnClose(p, s), t) {
      CloseAccounts(p, s, t);
    }
  }

  lemma CloseAccounts(p: Page, s: Session, t: Session)
    requires Inv(p) && t in p.frames && t != s
    ensures Tracked(OnClose(p, s), t) && Accounted(OnClose(p, s), t)
  {
    assert Accounted(p, t);
  }

  lemma TimedKeeps(p: Page, s: Session, route: Route)
    requires Inv(p) && s in p.frames
    ensures Inv(p.(timers := p.timers[s := route], accepted := p.accepted[s := route]))
  {
    var q := p.(timers := p.timers[s := route], accepted := p.accepted[s := route]);
    assert Flights(q) && Owned(q);
    forall t | t in p.frames ensures Accounted(q, t) {
      assert Accounted(p, t);
    }
  }

  lemma RouteKeeps(p: Page, s: Session, route: Route)
    requires Inv(p)
    ensures Inv(OnRouteSet(p, s, route))
  {
    if s in p.frames { TimedKeeps(p, s, route); }
  }

  lemma StepKeeps(p: Page, e: Event)
    requires Inv(p) && Fresh(p, e)
    ensures Inv(Step(p, e))
  {
    match e
    case FrameUp(_, _) => AskKeeps(p, e);
    case RouteSet(s, route) => RouteKeeps(p, s, route);
    case TimerFires(s) => if s in p.timers { AskKeeps(p, e); }
    case Encoded(id) => if id in p.flying { EncodedKeeps(p, id); }
    case EncodeFails(id) => if id in p.flying { FailureKeeps(p, id); }
    case Close(s) => CloseKeeps(p, s);
  }

  lemma {:induction false} RunKeeps(events: seq<Event>)
    requires AllFresh(events)
    ensures Inv(Run(events))
    decreases |events|
  {
    if events != [] {
      var front := events[..|events| - 1];
      assert forall i | 0 <= i < |front| :: front[..i] == events[..i];
      RunKeeps(front);
      StepKeeps(Run(front), events[|events| - 1]);
    }
  }

  /** Session `s` has nothing under way, and its newest encode did not fail. */
  ghost predicate Quiet(p: Page, s: Session) {
    && s !in p.timers
    && (forall id | id in p.flying :: p.flying[id].session != s)
    && s !in p.failed
  }

  /** Whatever order encodes complete in: once the session owning the bar is quiet, the
    * bar holds the last route it set. */
  lemma BarNamesLastRoute(events: seq<Event>)
    requires AllFresh(events)
    requires Run(events).owner.Some? && Quiet(Run(events), Run(events).owner.value)
    ensures var s := Run(events).owner.value; var last := LastRoute(events, s);
            IsUp(events, s) && last.Some? && Run(events).bar == Shows(s, last.value)
  {
    RunKeeps(events);
    RunIsAsTold(events, Run(events).owner.value);
  }

  // ---- A burst of routes -------------------------------------------------

  /** `s` sets these routes, one after the other. */
  function Sets(s: Session, routes: seq<Route>): (events: seq<Event>) {
    seq(|routes|, i requires 0 <= i < |routes| => RouteSet(s, routes[i]))
  }

  lemma SetsInTurn(s: Session, routes: seq<Route>)
    requires routes != []
    ensures Sets(s, routes) == Sets(s, routes[..|routes| - 1]) + [RouteSet(s, routes[|routes| - 1])]
  {
  }

  lemma LaterRoute(front: seq<Event>, e: Event, s: Session)
    ensures LastRoute(front + [e], s) == if Gives(e, s) then Some(e.route) else LastRoute(front, s)
  {
    assert (front + [e])[..|front|] == front;
  }

  lemma RouteWaits(p: Page, s: Session, route: Route)
    requires s in p.frames
    ensures var q := Step(p, RouteSet(s, route));
            && q == p.(timers := q.timers, accepted := q.accepted)
            && q.timers == if Gives(RouteSet(s, route), s) then p.timers[s := route] else p.timers
  {
  }

  lemma {:induction false} BurstWaits(p: Page, s: Session, routes: seq<Route>)
    requires s in p.frames
    ensures var q := Continue(p, Sets(s, routes)); var last := LastRoute(Sets(s, routes), s);
            && q == p.(timers := q.timers, accepted := q.accepted)
            && q.timers == if last.Some? then p.timers[s := last.value] else p.timers
    decreases |routes|
  {
    if routes != [] {
      var n := |routes| - 1;
      var front, last := Sets(s, routes[..n]), RouteSet(s, routes[n]);
      BurstWaits(p, s, routes[..n]);
      SetsInTurn(s, routes);
      ContinueOne(p, front, last);
      LaterRoute(front, last, s);
      RouteWaits(Continue(p, front), s, routes[n]);
    }
  }

  /** However many routes an open session sets while its timer runs, they cost one encode,
    * of the last that is not too long; and if it is answered before anything else, that is
    * what the bar shows. */
  lemma BurstAsksOnce(p: Page, s: Session, routes: seq<Route>)
    requires Owned(p) && s in p.frames && LastRoute(Sets(s, routes), s).Some?
    ensures var q := Step(Continue(p, Sets(s, routes)), TimerFires(s)); var last := LastRoute(Sets(s, routes), s).value;
            && s !in q.timers && q.sent == p.sent + 1 && q.bar == p.bar
            && q.flying == p.flying[p.sent := Encode(s, p.asks[s] + 1, last)]
            && Step(q, Encoded(p.sent)).bar == Shows(s, last)
  {
    BurstWaits(p, s, routes);
    FiringAsks(Continue(p, Sets(s, routes)), s);
  }

  lemma FiringAsks(p: Page, s: Session)
    requires s in p.frames && s in p.timers && s in p.asks
    ensures var q := Step(p, TimerFires(s));
            && s !in q.timers && q.sent == p.sent + 1 && q.bar == p.bar && q.frames == p.frames
            && q.flying == p.flying[p.sent := Encode(s, p.asks[s] + 1, p.timers[s])] && IsNewest(q, q.flying[p.sent])
            && OnEncoded(q, p.sent).bar == Shows(s, p.timers[s])
  {
  }

  /** An encode lands once: answered or failed, it is out of the way, and only it; and only
    * the newest of an open session leaves it with an ask that failed. */
  lemma LandsOnce(p: Page, e: Event)
    requires (e.Encoded? || e.EncodeFails?) && e.id in p.flying
    ensures var q := Step(p, e);
            && q.flying == p.flying - {e.id} && q.timers == p.timers && q.asks == p.asks && q.frames == p.frames
            && (e.EncodeFails? ==>
                  && q.bar == p.bar && q.owner == p.owner
                  && q.failed == var f := p.flying[e.id];
                       if f.session in p.frames && f.session in p.asks && p.asks[f.session] == f.ask
                       then p.failed + {f.session} else p.failed)
  {
    match e
    case Encoded(_) =>
    case EncodeFails(_) =>
  }

  // ---- One frame at a time -----------------------------------------------

  ghost predicate OneAtATime(events: seq<Event>) {
    forall i | 0 <= i < |events| && events[i].FrameUp? :: Run(events[..i]).frames == {}
  }

  ghost predicate Sole(p: Page) {
    && (forall s, t | s in p.frames && t in p.frames :: s == t)
    && (forall s | s in p.frames && s in p.wrote :: p.owner == Some(s))
  }

  lemma SoleStep(p: Page, e: Event)
    requires Inv(p) && Sole(p) && Fresh(p, e) && (e.FrameUp? ==> p.frames == {})
    ensures Sole(Step(p, e))
  {
  }

  lemma {:induction false} SoleFrame(events: seq<Event>)
    requires AllFresh(events) && OneAtATime(events)
    ensures Sole(Run(events))
    decreases |events|
  {
    if events != [] {
      var front := events[..|events| - 1];
      assert forall i | 0 <= i < |front| :: front[..i] == events[..i];
      SoleFrame(front);
      RunKeeps(front);
      SoleStep(Run(front), events[|events| - 1]);
    }
  }

  /** With one frame at a time, a quiet open session owns the bar, and the bar names the
    * last route it set. */
  lemma OpenSessionHasTheBar(events: seq<Event>, s: Session)
    requires AllFresh(events) && OneAtATime(events)
    requires s in Run(events).frames && Quiet(Run(events), s)
    ensures LastRoute(events, s).Some? && Run(events).bar == Shows(s, LastRoute(events, s).value)
  {
    RunKeeps(events);
    RunIsAsTold(events, s);
    SoleFrame(events);
    assert Accounted(Run(events), s);
  }

  // ---- If a frame comes up otherwise -------------------------------------

  /** All of a session's encodes but one can land, and leave its asks as they are. */
  lemma {:induction false} Drain(p: Page, s: Session, keep: nat) returns (events: seq<Event>)
    ensures forall i | 0 <= i < |events| :: events[i].Encoded?
    ensures var q := Continue(p, events);
            && q.frames == p.frames && q.asks == p.asks && q.timers == p.timers && q.accepted == p.accepted
            && (forall id | id in q.flying && q.flying[id].session == s :: id == keep)
            && (keep in p.flying ==> keep in q.flying && q.flying[keep] == p.flying[keep])
    decreases p.flying.Keys
  {
    if id :| id in p.flying && p.flying[id].session == s && id != keep {
      var q := Step(p, Encoded(id));
      assert id !in q.flying && q.flying.Keys <= p.flying.Keys;
      var rest := Drain(q, s, keep);
      events := [Encoded(id)] + rest;
      assert events[1..] == rest;
    } else {
      events := [];
    }
  }

  /** An open session can set routes until its asks number as many as one wishes. */
  lemma {:induction false} Raise(p: Page, s: Session, route: Route, n: nat) returns (events: seq<Event>)
    requires Owned(p) && s in p.frames && s !in p.timers && Fits(route)
    requires forall id | id in p.flying :: id < p.sent
    ensures NoFrame(events, s)
    ensures var q := Continue(p, events);
            && q.frames == p.frames && s in q.asks && q.asks[s] == p.asks[s] + n && s !in q.timers
            && (n > 0 ==> s in q.accepted && q.accepted[s] == route)
            && (n == 0 ==> q.accepted == p.accepted)
            && (forall id | id in p.flying :: id in q.flying && q.flying[id] == p.flying[id])
    decreases n
  {
    if n == 0 {
      events := [];
    } else {
      var e0, e1 := RouteSet(s, route), TimerFires(s);
      var q0 := Step(p, e0);
      var q := Step(q0, e1);
      StepOwns(p, e0);
      StepOwns(q0, e1);
      assert forall id | id in p.flying :: id in q.flying && q.flying[id] == p.flying[id];
      var rest := Raise(q, s, route, n - 1);
      events := [e0, e1] + rest;
      assert events[1..][1..] == rest && events[1..][0] == e1;
      forall i | 0 <= i < |events| ensures !(events[i].FrameUp? && events[i].session == s) {
        if i >= 2 { assert events[i] == rest[i - 2]; }
      }
    }
  }

  lemma AnotherRoute(route: Route) returns (other: Route)
    ensures Fits(other) && other != route
  {
    if route == "" {
      other := "a";
      assert other[..0] == "";
      assert ScalarDiff.Utf8(other) == ScalarDiff.Utf8("") + ScalarDiff.Utf8Char('a');
    } else {
      other := "";
    }
  }

  /** The bar is settled, and on a route the session did not set last. */
  ghost predicate ShowsAnOldRoute(p: Page, s: Session) {
    && p.owner == Some(s) && Quiet(p, s) && s in p.accepted
    && p.bar.Shows? && p.bar.session == s && p.bar.route != p.accepted[s]
  }

  /** The guard is exact: a frame that comes up without it can be followed, with no other
    * frame coming up, by answers in an order that leaves an old route in the bar. */
  lemma UnfreshShowsAnOldRoute(p: Page, s: Session, route: Route) returns (events: seq<Event>)
    requires Inv(p) && !Fresh(p, FrameUp(s, route))
    ensures NoFrame(events, s) && ShowsAnOldRoute(Continue(Step(p, FrameUp(s, route)), events), s)
  {
    if s in p.frames {
      events := TimerOvertakes(p, s, route);
    } else {
      var id :| id in p.flying && p.flying[id].session == s && (p.flying[id].ask != 1 || p.flying[id].route != route);
      events := AnswerOvertakes(p, s, route, id);
    }
  }

  lemma {:induction false} RunIsContinue(events: seq<Event>)
    ensures Run(events) == Continue(INIT, events)
    decreases |events|
  {
    if events != [] {
      var front, e := events[..|events| - 1], events[|events| - 1];
      RunIsContinue(front);
      ContinueOne(INIT, front, e);
      assert events == front + [e];
    }
  }

  lemma RunContinues(before: seq<Event>, after: seq<Event>)
    ensures Run(before + after) == Continue(Run(before), after)
  {
    RunIsContinue(before);
    RunIsContinue(before + after);
    ContinueInTurn(INIT, before, after);
  }

  /** So every guarded run that meets such a frame has a continuation after which the bar's
    * owner is quiet and its bar is not on the route it set last. */
  lemma UnfreshRun(before: seq<Event>, s: Session, route: Route) returns (after: seq<Event>)
    requires AllFresh(before) && !Fresh(Run(before), FrameUp(s, route))
    ensures |after| > 0 && after[0] == FrameUp(s, route) && NoFrame(after[1..], s)
    ensures var p := Run(before + after);
            && p.owner == Some(s) && Quiet(p, s) && p.bar.Shows? && p.bar.session == s
            && LastRoute(before + after, s) != Some(p.bar.route)
  {
    RunKeeps(before);
    var events := UnfreshShowsAnOldRoute(Run(before), s, route);
    after := [FrameUp(s, route)] + events;
    assert after[1..] == events;
    RunContinues(before, after);
    RunOwns(before + after);
    RunIsAsTold(before + after, s);
  }

  lemma TimerOvertakes(p: Page, s: Session, route: Route) returns (events: seq<Event>)
    requires Inv(p) && s in p.timers && p.timers[s] != route
    ensures NoFrame(events, s) && ShowsAnOldRoute(Continue(Step(p, FrameUp(s, route)), events), s)
  {
    var q := Step(p, FrameUp(s, route));
    var q0 := Step(q, TimerFires(s));
    StepOwns(p, FrameUp(s, route));
    StepOwns(q, TimerFires(s));
    var last := LastToLand(q0, s, q.sent);
    events := [TimerFires(s)] + last;
    assert events[1..] == last;
  }

  lemma AnswerOvertakes(p: Page, s: Session, route: Route, id: nat) returns (events: seq<Event>)
    requires Inv(p) && s !in p.frames && id in p.flying && p.flying[id].session == s
    requires p.flying[id].ask != 1 || p.flying[id].route != route
    ensures NoFrame(events, s) && ShowsAnOldRoute(Continue(Step(p, FrameUp(s, route)), events), s)
  {
    var q := Step(p, FrameUp(s, route));
    StepOwns(p, FrameUp(s, route));
    var other := AnotherRoute(p.flying[id].route);
    var raise := Raise(q, s, other, p.flying[id].ask - 1);
    var last := LastToLand(Continue(q, raise), s, id);
    events := raise + last;
    ContinueInTurn(q, raise, last);
  }

  /** Of all a session has under way, the answer to its newest ask can land last. */
  lemma LastToLand(p: Page, s: Session, id: nat) returns (events: seq<Event>)
    requires s in p.frames && s in p.asks && s !in p.timers && s in p.accepted && id in p.flying
    requires p.flying[id].session == s && p.flying[id].ask == p.asks[s] && p.flying[id].route != p.accepted[s]
    ensures NoFrame(events, s) && ShowsAnOldRoute(Continue(p, events), s)
  {
    var drain := Drain(p, s, id);
    var q := Continue(p, drain);
    events := drain + [Encoded(id)];
    ContinueInTurn(p, drain, [Encoded(id)]);
    Once(q, Encoded(id));
  }

  // ---- The code ----------------------------------------------------------

  class UrlBar {
    var frames: set<Session>
    var routeDebounce: map<Session, Route>
    var routeSeq: map<Session, nat>
    var encodes: map<nat, Encode>
    var calls: nat
    var fragmentOwner: Option<Session>
    var location: Bar
    ghost var accepted: map<Session, Route>
    ghost var newest: map<Session, Route>
    ghost var wrote: map<Session, Route>
    ghost var failed: set<Session>

    ghost function State(): Page
      reads this
    {
      Page(frames, routeDebounce, routeSeq, encodes, calls, fragmentOwner, location,
           accepted, newest, wrote, failed)
    }

    constructor ()
      ensures State() == INIT
    {
      frames, routeDebounce, routeSeq, encodes, calls := {}, map[], map[], map[], 0;
      fragmentOwner, location := None, Untouched;
      accepted, newest, wrote, failed := map[], map[], map[], {};
    }

    method EncodeFragment(session: Session, route: Route)
      modifies this
      ensures State() == Ask(old(State()), session, route)
    {
      var ask := 1;
      if session in routeSeq {
        ask := routeSeq[session] + 1;
      }
      routeSeq := routeSeq[session := ask];
      encodes := encodes[calls := Encode(session, ask, route)];
      calls := calls + 1;
      newest := newest[session := route];
      failed := failed - {session};
    }

    method HearFragment(id: nat)
      requires id in encodes
      modifies this
      ensures State() == OnEncoded(old(State()), id)
    {
      var e := encodes[id];
      encodes := encodes - {id};
      if e.session !in frames || e.session !in routeSeq || routeSeq[e.session] != e.ask {
        return;
      }
      WriteFragment(e.session, e.route);
      failed := failed - {e.session};
    }

    method WriteFragment(session: Session, route: Route)
      modifies `fragmentOwner, `location, `wrote
      ensures fragmentOwner == Some(session) && location == Shows(session, route)
      ensures wrote == old(wrote)[session := route]
    {
      fragmentOwner := Some(session);
      location := Shows(session, route);
      wrote := wrote[session := route];
    }

    method ClearFragment(session: Session)
      modifies `fragmentOwner, `location
      ensures old(fragmentOwner) == Some(session) ==> fragmentOwner == None && location == Cleared
      ensures old(fragmentOwner) != Some(session) ==> fragmentOwner == old(fragmentOwner) && location == old(location)
    {
      if fragmentOwner != Some(session) {
        return;
      }
      fragmentOwner := None;
      location := Cleared;
    }

    method HearFailure(id: nat)
      requires id in encodes
      modifies this
      ensures State() == OnEncodeFails(old(State()), id)
    {
      if IsNewest(State(), encodes[id]) {
        failed := failed + {encodes[id].session};
      }
      encodes := encodes - {id};
    }

    method HandleFrameRoute(session: Session, route: Route)
      modifies this
      ensures State() == OnRouteSet(old(State()), session, route)
    {
      if session !in frames {
        return;
      }
      if |ScalarDiff.Utf8(route)| > ROUTE_CAP {
        return;
      }
      routeDebounce := routeDebounce[session := route];
      accepted := accepted[session := route];
    }

    method Fire(session: Session)
      requires session in routeDebounce
      modifies this
      ensures State() == OnTimer(old(State()), session)
    {
      var route := routeDebounce[session];
      routeDebounce := routeDebounce - {session};
      EncodeFragment(session, route);
    }

    method FinishOpening(session: Session, route: Route)
      modifies this
      ensures State() == OnFrameUp(old(State()), session, route)
    {
      frames := frames + {session};
      accepted := accepted[session := route];
      EncodeFragment(session, route);
    }

    method CloseFrame(session: Session)
      modifies this
      ensures State() == OnClose(old(State()), session)
    {
      frames := frames - {session};
      routeDebounce := routeDebounce - {session};
      routeSeq := routeSeq - {session};
      wrote := wrote - {session};
      failed := failed - {session};
      ClearFragment(session);
    }
  }
}
