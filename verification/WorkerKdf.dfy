/** Backup key derivation across tabs: `backupKdf`, `withKdfOwner`, `depart` and the hello
  * handling of web/worker.ts. The worker owns no derivation thread of its own; the tab
  * that asked for a backup runs it, and the worker waits for that tab's answer. */
module WorkerKdf {
  import opened Wrappers

  type Tab = nat
  type Key = seq<nat>

  datatype Settlement = Derived(key: Key) | Failed(error: string) | TimedOut | TabDeparted

  /** `settled` lists, for each request, every settlement its promise was given; `asked`
    * which tab was sent it, `cancelled` which requests that tab was told to drop, and
    * `running` whose operations are under way: all history. */
  datatype Hub = Hub(connected: set<Tab>, helloed: set<Tab>, device: Option<string>,
                     owner: Option<Tab>, nextRequest: nat, waiters: map<nat, Tab>, timers: set<nat>,
                     settled: map<nat, seq<Settlement>>, asked: map<nat, Tab>, cancelled: set<nat>,
                     running: seq<Tab>)

  const INIT: Hub := Hub({}, {}, None, None, 0, map[], {}, map[], map[], {}, [])

  datatype Event =
    | Connect(tab: Tab)
    | Hello(tab: Tab, device: string)
    | Depart(tab: Tab)
    | Begin(tab: Tab)
    | End(tab: Tab)
    | Derive
    | Respond(tab: Tab, id: nat, answer: Result<Key, string>)
    | TimeOut(id: nat)

  function SoFar(settled: map<nat, seq<Settlement>>, id: nat): seq<Settlement> {
    if id in settled then settled[id] else []
  }

  function Answered(answer: Result<Key, string>): Settlement {
    match answer
    case Ok(key) => Derived(key)
    case Err(error) => Failed(error)
  }

  // ---- The handlers ------------------------------------------------------

  function Mine(waiters: map<nat, Tab>, tab: Tab): set<nat> {
    set id | id in waiters && waiters[id] == tab
  }

  function OnDepart(h: Hub, tab: Tab): Hub {
    var mine := Mine(h.waiters, tab);
    h.(helloed := h.helloed - {tab}, connected := h.connected - {tab},
       waiters := h.waiters - mine, timers := h.timers - mine, cancelled := h.cancelled + mine,
       settled := Departed(h.settled, mine))
  }

  function Departed(settled: map<nat, seq<Settlement>>, mine: set<nat>): map<nat, seq<Settlement>> {
    settled + map id | id in mine :: SoFar(settled, id) + [TabDeparted]
  }

  lemma DepartedOne(settled: map<nat, seq<Settlement>>, gone: set<nat>, id: nat)
    requires id !in gone
    ensures Departed(settled, gone + {id}) ==
            Departed(settled, gone)[id := SoFar(Departed(settled, gone), id) + [TabDeparted]]
  {
  }

  /** The first hello names the worker's device; a later one naming another is turned
    * away. */
  function OnHello(h: Hub, tab: Tab, device: string): Hub {
    match h.device
    case None =>
      h.(device := Some(device), helloed := if tab in h.connected then h.helloed + {tab} else h.helloed)
    case Some(mine) =>
      if mine != device then OnDepart(h, tab)
      else h.(helloed := h.helloed + {tab}, connected := h.connected + {tab})
  }

  predicate MayBegin(h: Hub, tab: Tab) {
    tab in h.helloed && h.owner.None?
  }

  function OnBegin(h: Hub, tab: Tab): Hub {
    if MayBegin(h, tab) then h.(owner := Some(tab), running := h.running + [tab]) else h
  }

  /** An operation of `tab` ends: only one that began can. */
  function OnEnd(h: Hub, tab: Tab): Hub {
    if tab !in h.running then h
    else h.(owner := if h.owner == Some(tab) then None else h.owner, running := Without(h.running, tab))
  }

  function Without(running: seq<Tab>, tab: Tab): seq<Tab> {
    if running == [] then [] else if running[0] == tab then running[1..] else [running[0]] + Without(running[1..], tab)
  }

  predicate MayDerive(h: Hub) {
    h.owner.Some? && h.owner.value in h.helloed
  }

  function OnDerive(h: Hub): Hub {
    if !MayDerive(h) then h
    else
      var id := h.nextRequest + 1;
      h.(nextRequest := id, waiters := h.waiters[id := h.owner.value], timers := h.timers + {id},
         asked := h.asked[id := h.owner.value])
  }

  function OnRespond(h: Hub, tab: Tab, id: nat, answer: Result<Key, string>): Hub {
    if id !in h.waiters || h.waiters[id] != tab then h
    else
      h.(waiters := h.waiters - {id}, timers := h.timers - {id},
         settled := h.settled[id := SoFar(h.settled, id) + [Answered(answer)]])
  }

  /** A timer that was not cleared fires; the handler asks nothing. */
  function OnTimeOut(h: Hub, id: nat): Hub {
    if id !in h.timers then h
    else
      h.(waiters := h.waiters - {id}, timers := h.timers - {id}, cancelled := h.cancelled + {id},
         settled := h.settled[id := SoFar(h.settled, id) + [TimedOut]])
  }

  function Step(h: Hub, e: Event): Hub {
    match e
    case Connect(tab) => h.(connected := h.connected + {tab})
    case Hello(tab, device) => OnHello(h, tab, device)
    case Depart(tab) => OnDepart(h, tab)
    case Begin(tab) => OnBegin(h, tab)
    case End(tab) => OnEnd(h, tab)
    case Derive => OnDerive(h)
    case Respond(tab, id, answer) => OnRespond(h, tab, id, answer)
    case TimeOut(id) => OnTimeOut(h, id)
  }

  function Run(events: seq<Event>): (h: Hub)
    decreases |events|
  {
    if events == [] then INIT else Step(Run(events[..|events| - 1]), events[|events| - 1])
  }

  // ---- What holds in every run -------------------------------------------

  /** Every request is either waited for, by a tab that is still here, or settled, and
    * settled once. */
  ghost predicate Requests(h: Hub) {
    && h.timers == h.waiters.Keys
    && h.waiters.Keys !! h.settled.Keys
    && h.waiters.Keys + h.settled.Keys == h.asked.Keys
    && (forall id: nat :: id in h.asked <==> 1 <= id <= h.nextRequest)
    && (forall id | id in h.waiters :: h.waiters[id] == h.asked[id] && h.asked[id] in h.helloed)
    && (forall id | id in h.settled :: |h.settled[id]| == 1)
    && (forall id: nat :: id in h.cancelled <==> id in h.settled && h.settled[id][0] in [TimedOut, TabDeparted])
  }

  /** At most one operation runs, and it is the owner's. */
  ghost predicate Owned(h: Hub) {
    h.running == if h.owner.Some? then [h.owner.value] else []
  }

  ghost predicate Inv(h: Hub) {
    h.helloed <= h.connected && Requests(h) && Owned(h)
  }

  lemma DepartKeeps(h: Hub, tab: Tab)
    requires Inv(h)
    ensures Inv(OnDepart(h, tab))
  {
    var u := OnDepart(h, tab);
    var mine := Mine(h.waiters, tab);
    assert u.settled.Keys == h.settled.Keys + mine;
    forall id | id in u.settled
      ensures |u.settled[id]| == 1
      ensures u.settled[id] == if id in mine then [TabDeparted] else h.settled[id]
    {
      if id in mine {
        assert SoFar(h.settled, id) == [];
      }
    }
  }

  lemma DeriveKeeps(h: Hub)
    requires Inv(h)
    ensures Inv(OnDerive(h))
  {
  }

  lemma AnswerKeeps(h: Hub, e: Event)
    requires Inv(h) && (e.Respond? || e.TimeOut?)
    ensures Inv(Step(h, e))
  {
    assert SoFar(h.settled, e.id) == [] || e.id !in h.waiters;
  }

  lemma HelloKeeps(h: Hub, tab: Tab, device: string)
    requires Inv(h)
    ensures Inv(OnHello(h, tab, device))
  {
    DepartKeeps(h, tab);
  }

  lemma OperationKeeps(h: Hub, e: Event)
    requires Inv(h) && (e.Begin? || e.End?)
    ensures Inv(Step(h, e))
  {
  }

  lemma StepKeeps(h: Hub, e: Event)
    requires Inv(h)
    ensures Inv(Step(h, e))
  {
    match e
    case Depart(tab) => DepartKeeps(h, tab);
    case Hello(tab, device) => HelloKeeps(h, tab, device);
    case Derive => DeriveKeeps(h);
    case Respond(_, _, _) => AnswerKeeps(h, e);
    case TimeOut(_) => AnswerKeeps(h, e);
    case Begin(tab) => OperationKeeps(h, e);
    case End(tab) => OperationKeeps(h, e);
    case Connect(tab) =>
  }

  lemma {:induction false} RunKeeps(events: seq<Event>)
    ensures Inv(Run(events))
    decreases |events|
  {
    if events != [] {
      RunKeeps(events[..|events| - 1]);
      StepKeeps(Run(events[..|events| - 1]), events[|events| - 1]);
    }
  }

  /** In every run, however hellos, departures, answers and timeouts interleave: each
    * request ever made is settled exactly once, or waits, timed, for the tab it was sent
    * to, which has said hello and not left; and at most one operation is under way. */
  lemma EveryRun(events: seq<Event>)
    ensures var h := Run(events);
            && (forall id | id in h.asked && id !in h.waiters :: id in h.settled && |h.settled[id]| == 1)
            && (forall id | id in h.waiters :: id !in h.settled && id in h.timers && id in h.asked
                                              && h.waiters[id] == h.asked[id] && h.asked[id] in h.helloed * h.connected)
            && h.running == if h.owner.Some? then [h.owner.value] else []
  {
    RunKeeps(events);
    var h := Run(events);
    assert forall id | id in h.asked :: id in h.waiters.Keys + h.settled.Keys;
  }

  /** What an event does to request `id`, if anything. */
  function Outcome(h: Hub, e: Event, id: nat): Option<Settlement>
    requires id in h.waiters
  {
    var tab := h.waiters[id];
    if e.Respond? && e.id == id && e.tab == tab then
      Some(if e.answer.Ok? then Derived(e.answer.value) else Failed(e.answer.error))
    else if e == TimeOut(id) then Some(TimedOut)
    else if e == Depart(tab) || (e.Hello? && e.tab == tab && h.device.Some? && h.device.value != e.device) then
      Some(TabDeparted)
    else None
  }

  /** A waiting request settles exactly when its own tab answers or leaves or its time
    * runs out, and then with just that. */
  lemma SettlesExactlyWhen(h: Hub, e: Event, id: nat)
    requires Inv(h) && id in h.waiters
    ensures var u := Step(h, e);
            match Outcome(h, e, id) {
              case Some(s) => id !in u.waiters && id in u.settled && u.settled[id] == [s]
              case None => id in u.waiters && u.waiters[id] == h.waiters[id] && id !in u.settled
            }
  {
    assert SoFar(h.settled, id) == [];
    assert id in h.timers;
  }

  lemma StepSettledForGood(h: Hub, e: Event, id: nat)
    requires Inv(h) && id in h.settled
    ensures id in Step(h, e).settled && Step(h, e).settled[id] == h.settled[id]
  {
    assert id !in h.waiters && id !in h.timers;
  }

  /** What is settled stays as it was, through any further run. */
  lemma {:induction false} SettledForGood(before: seq<Event>, after: seq<Event>, id: nat)
    requires id in Run(before).settled
    ensures id in Run(before + after).settled && Run(before + after).settled[id] == Run(before).settled[id]
    decreases |after|
  {
    if after == [] {
      assert before + after == before;
    } else {
      var front := after[..|after| - 1];
      SettledForGood(before, front, id);
      RunKeeps(before + front);
      assert (before + after)[..|before + after| - 1] == before + front;
      StepSettledForGood(Run(before + front), after[|after| - 1], id);
    }
  }

  /** Nothing another tab sends settles a request, moves it, or takes the derivation over
    * from the tab that has it. */
  lemma StrangersChangeNothing(h: Hub, e: Event, id: nat)
    requires Inv(h) && id in h.waiters
    requires e.Connect? || e.Hello? || e.Depart? || e.Begin? || e.Respond?
    requires e.tab != h.waiters[id]
    ensures var u := Step(h, e);
            && id in u.waiters && u.waiters[id] == h.waiters[id] && id !in u.settled
            && (h.owner.Some? ==> u.owner == h.owner)
  {
    SettlesExactlyWhen(h, e, id);
  }

  /** Only the tab whose operation is running is ever asked to derive. */
  lemma OnlyTheOwnerIsAsked(h: Hub, e: Event)
    requires Inv(h) && Step(h, e).nextRequest != h.nextRequest
    ensures e.Derive? && h.running == [Step(h, e).asked[h.nextRequest + 1]]
    ensures Step(h, e).asked == h.asked[h.nextRequest + 1 := h.running[0]]
    ensures h.nextRequest + 1 !in h.asked
  {
  }

  /** A request is made exactly when the kernel derives while the tab whose operation is
    * running is still here; without, the state is left as it was. */
  lemma AsksExactlyWhen(h: Hub, e: Event)
    requires Inv(h)
    ensures Step(h, e).nextRequest != h.nextRequest
       <==> e.Derive? && h.running != [] && h.running[0] in h.helloed
    ensures e.Derive? && Step(h, e).nextRequest == h.nextRequest ==> Step(h, e) == h
  {
  }

  /** The derivation is taken exactly when a tab that said hello begins and nobody has it,
    * and freed exactly when its owner's operation ends: a departure does not free it. */
  lemma OwnerChangesExactlyWhen(h: Hub, e: Event)
    requires Inv(h)
    ensures var u := Step(h, e);
            && (h.owner.None? ==> (u.owner.Some? <==> e.Begin? && e.tab in h.helloed)
                                  && (u.owner.Some? ==> u.owner == Some(e.tab)))
            && (h.owner.Some? ==> u.owner == if e == End(h.owner.value) then None else h.owner)
  {
  }

  // ---- Who is here -------------------------------------------------------

  /** The device the first hello named. */
  function Device(events: seq<Event>): Option<string>
    decreases |events|
  {
    if events == [] then None
    else
      var before := Device(events[..|events| - 1]);
      var e := events[|events| - 1];
      if before.None? && e.Hello? then Some(e.device) else before
  }

  /** An event that ends a tab's stay: it departs, or names another device. */
  predicate Leaves(e: Event, tab: Tab, device: string) {
    e == Depart(tab) || (e.Hello? && e.tab == tab && e.device != device)
  }

  /** The tab's port is listed: it connected, or said hello with the device's name once that
    * had been given, and has not left since. */
  predicate IsListed(events: seq<Event>, tab: Tab)
    decreases |events|
  {
    if events == [] then false
    else
      var front, e := events[..|events| - 1], events[|events| - 1];
      if Device(front).Some? && Leaves(e, tab, Device(front).value) then false
      else if e == Depart(tab) then false
      else e == Connect(tab) || (Device(front).Some? && e == Hello(tab, Device(front).value)) || IsListed(front, tab)
  }

  lemma ListedStep(h: Hub, e: Event, tab: Tab)
    ensures tab in Step(h, e).connected <==>
            && e != Depart(tab) && !(h.device.Some? && Leaves(e, tab, h.device.value))
            && (e == Connect(tab) || (h.device.Some? && e == Hello(tab, h.device.value)) || tab in h.connected)
  {
    match e
    case Connect(_) =>
    case Hello(_, _) =>
    case Depart(_) =>
    case Begin(_) =>
    case End(_) =>
    case Derive =>
    case Respond(_, _, _) =>
    case TimeOut(_) =>
  }

  lemma {:induction false} RunListed(events: seq<Event>, tab: Tab)
    ensures tab in Run(events).connected <==> IsListed(events, tab)
    decreases |events|
  {
    if events != [] {
      RunListed(events[..|events| - 1], tab);
      RunDevice(events[..|events| - 1]);
      ListedStep(Run(events[..|events| - 1]), events[|events| - 1], tab);
    }
  }

  /** The hello at `i` stands: `tab` named the device, while listed if nobody had
    * named one before it, and nothing since has ended its stay. */
  ghost predicate Stands(events: seq<Event>, tab: Tab, i: nat) {
    && i < |events| && Device(events).Some? && events[i] == Hello(tab, Device(events).value)
    && (Device(events[..i]).None? ==> IsListed(events[..i], tab))
    && forall j | i < j < |events| :: !Leaves(events[j], tab, Device(events).value)
  }

  lemma {:induction false} RunDevice(events: seq<Event>)
    ensures Run(events).device == Device(events)
    decreases |events|
  {
    if events != [] { RunDevice(events[..|events| - 1]); }
  }

  lemma {:induction false} DeviceNamed(events: seq<Event>, i: nat)
    requires i < |events| && events[i].Hello?
    ensures Device(events).Some?
    decreases |events|
  {
    if i < |events| - 1 { DeviceNamed(events[..|events| - 1], i); }
  }

  /** What a step does to whether `tab` is served. */
  lemma HelloSteps(h: Hub, e: Event, tab: Tab, device: string)
    requires Inv(h) && (h.device.Some? ==> device == h.device.value)
    requires h.device.None? && e.Hello? ==> device == e.device
    ensures tab in Step(h, e).helloed <==>
            || (tab in h.helloed && !Leaves(e, tab, device))
            || (e == Hello(tab, device) && (h.device.None? ==> tab in h.connected))
  {
    match e
    case Connect(_) =>
    case Hello(_, _) =>
    case Depart(_) =>
    case Begin(_) =>
    case End(_) =>
    case Derive =>
    case Respond(_, _, _) =>
    case TimeOut(_) =>
  }

  /** One more event: an earlier hello stands on unless the event ends its stay, and the
    * event itself may be one that stands. */
  lemma StandsNext(front: seq<Event>, e: Event, tab: Tab, i: nat)
    requires Device(front + [e]).Some?
    ensures var events := front + [e];
            && (i < |front| ==>
                  (Stands(events, tab, i) <==> Stands(front, tab, i) && !Leaves(e, tab, Device(events).value)))
            && (Stands(events, tab, |front|) <==>
                  e == Hello(tab, Device(events).value) && (Device(front).None? ==> IsListed(front, tab)))
  {
    var events := front + [e];
    assert events[..|front|] == front;
    if i < |front| {
      assert events[..i] == front[..i] && events[i] == front[i];
      if events[i].Hello? { DeviceNamed(front, i); }
      assert forall j | i < j < |front| :: events[j] == front[j];
      if Stands(events, tab, i) {
        assert !Leaves(events[|front|], tab, Device(events).value);
        forall j | i < j < |front| ensures !Leaves(front[j], tab, Device(front).value) {
          assert !Leaves(events[j], tab, Device(events).value);
        }
      }
    }
  }

  /** A tab is served exactly while a hello of it stands. */
  lemma {:induction false} ServedExactlyWhile(events: seq<Event>, tab: Tab)
    ensures tab in Run(events).helloed <==> exists i: nat :: Stands(events, tab, i)
    decreases |events|
  {
    if events != [] {
      var front, e := events[..|events| - 1], events[|events| - 1];
      ServedExactlyWhile(front, tab);
      RunDevice(front);
      RunListed(front, tab);
      RunKeeps(front);
      assert events == front + [e];
      if Device(events).None? {
        NobodyYet(front, e, tab);
      } else {
        HelloSteps(Run(front), e, tab, Device(events).value);
        ServedStep(front, e, tab);
      }
    }
  }

  lemma NobodyYet(front: seq<Event>, e: Event, tab: Tab)
    requires Inv(Run(front)) && Run(front).device == Device(front) && Device(front + [e]).None?
    requires tab in Run(front).helloed <==> exists i: nat :: Stands(front, tab, i)
    ensures tab !in Step(Run(front), e).helloed
  {
    assert (front + [e])[..|front|] == front;
    HelloSteps(Run(front), e, tab, "");
  }

  lemma ServedStep(front: seq<Event>, e: Event, tab: Tab)
    requires Device(front + [e]).Some?
    requires tab in Run(front).helloed <==> exists i: nat :: Stands(front, tab, i)
    ensures var device := Device(front + [e]).value;
            (exists i: nat :: Stands(front + [e], tab, i)) <==>
            || (tab in Run(front).helloed && !Leaves(e, tab, device))
            || (e == Hello(tab, device) && (Device(front).None? ==> IsListed(front, tab)))
  {
    var events := front + [e];
    StandsNext(front, e, tab, |front|);
    forall i: nat | i < |front| && (Stands(front, tab, i) || Stands(events, tab, i))
      ensures Stands(events, tab, i) <==> Stands(front, tab, i) && !Leaves(e, tab, Device(events).value)
    {
      StandsNext(front, e, tab, i);
    }
    if i: nat :| Stands(events, tab, i) {
      if i < |front| { assert Stands(front, tab, i); }
    }
    if i: nat :| Stands(front, tab, i) {
      assert i < |front|;
      if !Leaves(e, tab, Device(events).value) { assert Stands(events, tab, i); }
    }
  }

  // ---- The code ----------------------------------------------------------

  class Worker {
    var tabs: set<Tab>
    var helloed: set<Tab>
    var hello: Option<string>
    var kdfOwner: Option<Tab>
    var nextKdfRequest: nat
    var kdfWaiters: map<nat, Tab>
    var timers: set<nat>
    ghost var settled: map<nat, seq<Settlement>>
    ghost var asked: map<nat, Tab>
    ghost var cancelled: set<nat>
    ghost var running: seq<Tab>

    ghost function State(): Hub
      reads this
    {
      Hub(tabs, helloed, hello, kdfOwner, nextKdfRequest, kdfWaiters, timers, settled, asked, cancelled, running)
    }

    constructor ()
      ensures State() == INIT
    {
      tabs, helloed, hello, kdfOwner, nextKdfRequest := {}, {}, None, None, 0;
      kdfWaiters, timers := map[], {};
      settled, asked, cancelled, running := map[], map[], {}, [];
    }

    /** Settles every request waiting for `tab`. */
    method Abandon(tab: Tab)
      modifies `kdfWaiters, `timers, `cancelled, `settled
      ensures kdfWaiters == old(kdfWaiters) - Mine(old(kdfWaiters), tab)
      ensures timers == old(timers) - Mine(old(kdfWaiters), tab)
      ensures cancelled == old(cancelled) + Mine(old(kdfWaiters), tab)
      ensures settled == Departed(old(settled), Mine(old(kdfWaiters), tab))
    {
      ghost var mine := Mine(kdfWaiters, tab);
      ghost var gone := {};
      var left := kdfWaiters.Keys;
      while left != {}
        invariant left <= old(kdfWaiters).Keys && gone <= mine <= gone + left && gone !! left
        invariant kdfWaiters == old(kdfWaiters) - gone && timers == old(timers) - gone
        invariant cancelled == old(cancelled) + gone && settled == Departed(old(settled), gone)
        decreases left
      {
        var id :| id in left;
        left := left - {id};
        if kdfWaiters[id] == tab {
          DepartedOne(old(settled), gone, id);
          gone := gone + {id};
          kdfWaiters := kdfWaiters - {id};
          timers := timers - {id};
          cancelled := cancelled + {id};
          settled := settled[id := SoFar(settled, id) + [TabDeparted]];
        }
      }
      assert gone == mine;
    }

    method Leave(tab: Tab)
      modifies this
      ensures State() == OnDepart(old(State()), tab)
    {
      helloed := helloed - {tab};
      tabs := tabs - {tab};
      Abandon(tab);
    }

    method SayHello(tab: Tab, device: string)
      modifies this
      ensures State() == OnHello(old(State()), tab, device)
    {
      if hello.None? {
        hello := Some(device);
      } else if hello.value != device {
        Leave(tab);
      } else {
        helloed := helloed + {tab};
        tabs := tabs + {tab};
      }
      if hello == Some(device) && tab in tabs {
        helloed := helloed + {tab};
      }
    }

    method Acquire(tab: Tab) returns (refused: Option<string>)
      modifies this
      ensures State() == OnBegin(old(State()), tab)
      ensures refused.None? == MayBegin(old(State()), tab)
    {
      if tab !in helloed {
        return Some("the requesting tab has departed");
      }
      if kdfOwner.Some? {
        return Some("backup key derivation is busy");
      }
      kdfOwner := Some(tab);
      running := running + [tab];
      refused := None;
    }

    method Release(tab: Tab)
      requires tab in running
      modifies this
      ensures State() == OnEnd(old(State()), tab)
    {
      running := Without(running, tab);
      if kdfOwner == Some(tab) {
        kdfOwner := None;
      }
    }

    method Ask() returns (id: Option<nat>)
      modifies this
      ensures State() == OnDerive(old(State()))
      ensures id == if MayDerive(old(State())) then Some(old(nextKdfRequest) + 1) else None
    {
      if kdfOwner.None? || kdfOwner.value !in helloed {
        return None;
      }
      nextKdfRequest := nextKdfRequest + 1;
      id := Some(nextKdfRequest);
      timers := timers + {nextKdfRequest};
      kdfWaiters := kdfWaiters[nextKdfRequest := kdfOwner.value];
      asked := asked[nextKdfRequest := kdfOwner.value];
    }

    method HearAnswer(tab: Tab, id: nat, answer: Result<Key, string>)
      modifies this
      ensures State() == OnRespond(old(State()), tab, id, answer)
    {
      if id !in kdfWaiters || kdfWaiters[id] != tab {
        return;
      }
      kdfWaiters := kdfWaiters - {id};
      timers := timers - {id};
      settled := settled[id := SoFar(settled, id) + [Answered(answer)]];
    }

    method Expire(id: nat)
      requires id in timers
      modifies this
      ensures State() == OnTimeOut(old(State()), id)
    {
      timers := timers - {id};
      kdfWaiters := kdfWaiters - {id};
      cancelled := cancelled + {id};
      settled := settled[id := SoFar(settled, id) + [TimedOut]];
    }
  }
}
