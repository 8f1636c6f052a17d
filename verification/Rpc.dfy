/** Calls over a MessagePort: web/rpc.ts, and web/frame.ts, which puts two proxies on
  * one port. Both number their calls from 1 and both hear every response. */
module Rpc {
  import opened Wrappers

  // ---- Messages ----------------------------------------------------------

  datatype Outcome = Resolved(value: nat) | Rejected(message: string)

  /** The fields of a message that either listener looks at, absent where they are
    * missing or of another type. `call` is history: which call a request is, or which
    * one a response answers. No listener sees it. */
  datatype Message =
    Message(rpc: Option<nat>, id: Option<nat>, iface: Option<string>, fn: Option<string>, ok: Option<bool>,
            outcome: Outcome, call: nat)

  predicate IsRequest(m: Message) {
    m.rpc == Some(1) && m.iface.Some? && m.fn.Some?
  }

  predicate IsResponse(m: Message) {
    m.rpc == Some(1) && m.id.Some? && m.ok.Some? && m.iface.None?
  }

  function Request(id: nat, iface: string, fn: string, call: nat): Message {
    Message(Some(1), Some(id), Some(iface), Some(fn), None, Resolved(0), call)
  }

  function Response(id: nat, outcome: Outcome, call: nat): Message {
    Message(Some(1), Some(id), None, None, Some(outcome.Resolved?), outcome, call)
  }

  /** One port carries both directions and other traffic besides: no message is taken
    * for both, and each listener knows its own. */
  lemma MessagesTellApart(m: Message, id: nat, iface: string, fn: string, outcome: Outcome, call: nat)
    ensures !(IsRequest(m) && IsResponse(m))
    ensures IsRequest(Request(id, iface, fn, call)) && IsResponse(Response(id, outcome, call))
    ensures var m := Request(id, iface, fn, call); m.id == Some(id) && m.iface == Some(iface) && m.fn == Some(fn)
    ensures var m := Response(id, outcome, call);
            m.id == Some(id) && m.outcome == outcome && m.ok == Some(outcome.Resolved?)
  {
  }

  // ---- One proxy ---------------------------------------------------------

  datatype Proxy = Proxy(pending: map<nat, nat>, nextId: nat)

  const FRESH: Proxy := Proxy(map[], 1)

  /** A call takes the next id and waits under it. */
  function Place(p: Proxy, call: nat): Proxy {
    Proxy(p.pending[p.nextId := call], p.nextId + 1)
  }

  function Hear(p: Proxy, m: Message): Proxy {
    if IsResponse(m) && m.id.value in p.pending then p.(pending := p.pending - {m.id.value}) else p
  }

  /** The call, if any, that a message settles at this proxy. */
  function Settles(p: Proxy, m: Message): Option<nat> {
    if IsResponse(m) && m.id.value in p.pending then Some(p.pending[m.id.value]) else None
  }

  class ProxyInterfaces {
    var pending: map<nat, nat>
    var nextId: nat

    ghost function State(): Proxy
      reads this
    {
      Proxy(pending, nextId)
    }

    /** No id waits that was not given out. */
    ghost predicate Valid()
      reads this
    {
      forall id | id in pending :: id < nextId
    }

    constructor ()
      ensures Valid() && State() == FRESH
    {
      pending := map[];
      nextId := 1;
    }

    /** Answers the request it posted, or nothing when the arguments do not clone. */
    method Call(iface: string, fn: string, call: nat, clones: bool) returns (posted: Option<Message>)
      requires Valid()
      modifies this
      ensures Valid()
      ensures clones ==> State() == Place(old(State()), call)
                         && posted == Some(Request(old(nextId), iface, fn, call))
      ensures !clones ==> State() == old(State()).(nextId := old(nextId) + 1) && posted == None
    {
      var id := nextId;
      nextId := nextId + 1;
      pending := pending[id := call];
      if clones {
        posted := Some(Request(id, iface, fn, call));
      } else {
        pending := pending - {id};
        assert pending == old(pending);
        posted := None;
      }
    }

    method OnMessage(m: Message) returns (settled: Option<nat>)
      requires Valid()
      modifies this
      ensures Valid()
      ensures State() == Hear(old(State()), m) && settled == Settles(old(State()), m)
    {
      if !IsResponse(m) {
        return None;
      }
      if m.id.value !in pending {
        return None;
      }
      settled := Some(pending[m.id.value]);
      pending := pending - {m.id.value};
    }
  }

  // ---- A frame: two proxies, one port ------------------------------------

  /** What `mount` waits for. `Fetching(left)` has one asset call out and `left` to go. */
  datatype Phase = NotMounted | Listing | Fetching(left: nat) | Running | TornDown

  /** A request posted, and the server's answer once it has one. */
  datatype Flight = Flight(request: Message, answer: Option<Outcome>) {
    function Id(): nat { if request.id.Some? then request.id.value else 0 }
  }

  /** `app` proxies what the producer imports, `assets` what the loader fetches.
    * `flights` is every request somewhere between its call and its delivery; `answers`
    * and `settled` are history. */
  datatype Frame = Frame(app: Proxy, assets: Proxy, phase: Phase, nextCall: nat,
                         flights: map<nat, Flight>, answers: map<nat, Outcome>, settled: seq<(nat, Outcome)>)

  const INIT: Frame := Frame(FRESH, FRESH, NotMounted, 0, map[], map[], [])

  datatype Event =
    | Mount
    | ProducerCalls(iface: string, fn: string)
    | ProducerCallFails(message: string)
    | ServerAnswers(call: nat, outcome: Outcome)
    | Deliver(call: nat)

  const APPS: string := "polyvisor:internal/apps@0.1.0"

  function CallAssets(s: Frame): Frame {
    var fn := if s.phase.Listing? then "assets" else "asset";
    s.(assets := Place(s.assets, s.nextCall), nextCall := s.nextCall + 1,
       flights := s.flights[s.nextCall := Flight(Request(s.assets.nextId, APPS, fn, s.nextCall), None)])
  }

  function CallApp(s: Frame, iface: string, fn: string): Frame {
    s.(app := Place(s.app, s.nextCall), nextCall := s.nextCall + 1,
       flights := s.flights[s.nextCall := Flight(Request(s.app.nextId, iface, fn, s.nextCall), None)])
  }

  function Log(call: Option<nat>, outcome: Outcome): seq<(nat, Outcome)> {
    if call.Some? then [(call.value, outcome)] else []
  }

  /** Both listeners hear the response; then `mount` goes on if it was waiting. */
  function Heard(s: Frame, call: nat): Frame
    requires call in s.flights && s.flights[call].answer.Some?
  {
    var outcome := s.flights[call].answer.value;
    var m := Response(s.flights[call].Id(), outcome, call);
    var t := s.(app := Hear(s.app, m), assets := Hear(s.assets, m), flights := s.flights - {call},
                settled := s.settled + Log(Settles(s.app, m), outcome) + Log(Settles(s.assets, m), outcome));
    if Settles(s.assets, m).None? then t else Resume(t, outcome)
  }

  /** `mount`, past the `await` it was at: the list's length is its outcome's value. */
  function Resume(s: Frame, outcome: Outcome): Frame {
    if outcome.Rejected? && (s.phase.Listing? || s.phase.Fetching?) then s.(phase := TornDown)
    else match s.phase
      case Listing => if outcome.value == 0 then s.(phase := Running)
                      else CallAssets(s.(phase := Fetching(outcome.value - 1)))
      case Fetching(left) => if left == 0 then s.(phase := Running) else CallAssets(s.(phase := Fetching(left - 1)))
      case _ => s
  }

  function Step(s: Frame, e: Event): Frame {
    match e
    case Mount => if s.phase.NotMounted? then CallAssets(s.(phase := Listing)) else s
    case ProducerCalls(iface, fn) => CallApp(s, iface, fn)
    case ProducerCallFails(message) =>
      s.(app := s.app.(nextId := s.app.nextId + 1), nextCall := s.nextCall + 1,
         answers := s.answers[s.nextCall := Rejected(message)],
         settled := s.settled + [(s.nextCall, Rejected(message))])
    case ServerAnswers(call, outcome) =>
      if call in s.flights && s.flights[call].answer.None? then
        s.(flights := s.flights[call := s.flights[call].(answer := Some(outcome))],
           answers := s.answers[call := outcome])
      else s
    case Deliver(call) =>
      if call in s.flights && s.flights[call].answer.Some? then Heard(s, call) else s
  }

  /** The producer runs only once `mountProducer` has been reached. */
  predicate Enabled(s: Frame, e: Event) {
    e.ProducerCalls? || e.ProducerCallFails? ==> s.phase.Running?
  }

  // ---- What every step keeps ---------------------------------------------

  /** Each pending id is some flight's and each flight's id is pending for it. */
  ghost predicate Matched(pending: map<nat, nat>, flights: map<nat, Flight>) {
    && (forall id | id in pending :: pending[id] in flights && flights[pending[id]].Id() == id)
    && (forall c | c in flights :: flights[c].Id() in pending && pending[flights[c].Id()] == c)
  }

  /** Settled calls are distinct, and each has the server's answer to it. */
  ghost predicate SettledWell(s: Frame) {
    && (forall i, j | 0 <= i < j < |s.settled| :: s.settled[i].0 != s.settled[j].0)
    && (forall i | 0 <= i < |s.settled| ::
          var (call, outcome) := s.settled[i];
          call < s.nextCall && call !in s.flights && call in s.answers && s.answers[call] == outcome)
  }

  ghost predicate Inv(s: Frame) {
    && SettledWell(s)
    && (forall c | c in s.flights :: c < s.nextCall)
    && (forall c | c in s.answers :: c < s.nextCall)
    && (forall c | c in s.flights ::
          if s.flights[c].answer.Some? then c in s.answers && s.answers[c] == s.flights[c].answer.value
          else c !in s.answers)
    && (forall id | id in s.app.pending :: id < s.app.nextId)
    && (forall id | id in s.assets.pending :: id < s.assets.nextId)
    && (if s.phase.Running? then s.assets.pending == map[] && Matched(s.app.pending, s.flights)
        else s.app == FRESH && Matched(s.assets.pending, s.flights))
    && (s.phase.Listing? || s.phase.Fetching? ==> s.assets.nextId > 0 && s.assets.pending.Keys == {s.assets.nextId - 1})
    && (s.phase.NotMounted? || s.phase.TornDown? ==> s.assets.pending == map[])
  }

  lemma CallAssetsKeeps(s: Frame)
    requires Inv(s.(phase := NotMounted)) && (s.phase.Listing? || s.phase.Fetching?)
    ensures Inv(CallAssets(s))
  {
    var t := CallAssets(s);
    assert s.flights.Keys == {};
    assert t.assets.pending.Keys == {t.assets.nextId - 1};
  }

  lemma CallAppKeeps(s: Frame, iface: string, fn: string)
    requires Inv(s) && s.phase.Running?
    ensures Inv(CallApp(s, iface, fn))
  {
  }

  lemma AnswerKeeps(s: Frame, call: nat, outcome: Outcome)
    requires Inv(s)
    ensures Inv(Step(s, ServerAnswers(call, outcome)))
  {
    if call in s.flights {
      AnswerMatches(s.app.pending, s.flights, call, outcome);
      AnswerMatches(s.assets.pending, s.flights, call, outcome);
    }
  }

  lemma AnswerMatches(pending: map<nat, nat>, flights: map<nat, Flight>, call: nat, outcome: Outcome)
    requires call in flights
    ensures Matched(pending, flights) ==> Matched(pending, flights[call := flights[call].(answer := Some(outcome))])
  {
  }

  /** While one proxy waits and the other does not, a response settles its own call. */
  lemma HeardOnce(s: Frame, call: nat)
    requires Inv(s) && call in s.flights && s.flights[call].answer.Some?
    ensures var outcome := s.flights[call].answer.value;
            var m := Response(s.flights[call].Id(), outcome, call);
            Log(Settles(s.app, m), outcome) + Log(Settles(s.assets, m), outcome) == [(call, outcome)]
    ensures s.phase.Running? <==>
            Settles(s.assets, Response(s.flights[call].Id(), s.flights[call].answer.value, call)).None?
  {
  }

  lemma HeardKeeps(s: Frame, call: nat)
    requires Inv(s) && call in s.flights && s.flights[call].answer.Some?
    ensures Inv(Heard(s, call))
  {
    HeardOnce(s, call);
    var outcome := s.flights[call].answer.value;
    var m := Response(s.flights[call].Id(), outcome, call);
    var t := s.(app := Hear(s.app, m), assets := Hear(s.assets, m), flights := s.flights - {call},
                settled := s.settled + Log(Settles(s.app, m), outcome) + Log(Settles(s.assets, m), outcome));
    assert t.settled == s.settled + [(call, outcome)];
    if s.phase.Running? {
      RunningHears(s, t, call, m);
    } else {
      MountHears(s, t, call, m);
      ResumeKeeps(t, outcome);
    }
  }

  lemma RunningHears(s: Frame, t: Frame, call: nat, m: Message)
    requires Inv(s) && s.phase.Running? && call in s.flights && s.flights[call].answer.Some?
    requires m == Response(s.flights[call].Id(), s.flights[call].answer.value, call)
    requires t == s.(app := Hear(s.app, m), assets := Hear(s.assets, m), flights := s.flights - {call},
                     settled := s.settled + [(call, s.flights[call].answer.value)])
    ensures Inv(t)
  {
  }

  lemma MountHears(s: Frame, t: Frame, call: nat, m: Message)
    requires Inv(s) && !s.phase.Running? && call in s.flights && s.flights[call].answer.Some?
    requires m == Response(s.flights[call].Id(), s.flights[call].answer.value, call)
    requires t == s.(app := Hear(s.app, m), assets := Hear(s.assets, m), flights := s.flights - {call},
                     settled := s.settled + [(call, s.flights[call].answer.value)])
    ensures Inv(t.(phase := NotMounted)) && (s.phase.Listing? || s.phase.Fetching?)
  {
    assert s.flights[call].Id() in s.assets.pending;
    assert t.assets.pending == map[];
  }

  lemma ResumeKeeps(s: Frame, outcome: Outcome)
    requires Inv(s.(phase := NotMounted)) && (s.phase.Listing? || s.phase.Fetching?)
    ensures Inv(Resume(s, outcome))
  {
    var left :=
      if s.phase.Fetching? then (if s.phase.left > 0 then s.phase.left - 1 else 0)
      else if outcome.Resolved? && outcome.value > 0 then outcome.value - 1 else 0;
    CallAssetsKeeps(s.(phase := Fetching(left)));
    assert s.flights.Keys == {};
  }

  lemma StepKeeps(s: Frame, e: Event)
    requires Inv(s) && Enabled(s, e)
    ensures Inv(Step(s, e))
  {
    match e
    case Mount => if s.phase.NotMounted? { CallAssetsKeeps(s.(phase := Listing)); }
    case ProducerCalls(iface, fn) => CallAppKeeps(s, iface, fn);
    case ProducerCallFails(_) =>
    case ServerAnswers(call, outcome) => AnswerKeeps(s, call, outcome);
    case Deliver(call) => if call in s.flights && s.flights[call].answer.Some? { HeardKeeps(s, call); }
  }

  // ---- Runs --------------------------------------------------------------

  function Run(events: seq<Event>): (s: Frame) {
    if events == [] then INIT else Step(Run(events[..|events| - 1]), events[|events| - 1])
  }

  ghost predicate Mounted(events: seq<Event>) {
    forall i | 0 <= i < |events| :: Enabled(Run(events[..i]), events[i])
  }

  lemma {:induction false} RunKeeps(events: seq<Event>)
    requires Mounted(events)
    ensures Inv(Run(events))
  {
    if events != [] {
      var before := events[..|events| - 1];
      assert forall i | 0 <= i < |before| :: before[..i] == events[..i];
      RunKeeps(before);
      StepKeeps(Run(before), events[|events| - 1]);
    }
  }

  /** However the answers are ordered, every call settles at most once, with the
    * server's answer to that very call; and one that has not is still in flight. */
  lemma EveryCallItsOwnAnswer(events: seq<Event>)
    requires Mounted(events)
    ensures SettledWell(Run(events)) && Accounted(Run(events))
  {
    RunKeeps(events);
    NothingForgotten(events);
  }

  ghost predicate Accounted(s: Frame) {
    forall c | 0 <= c < s.nextCall :: c in s.flights || c in Calls(s.settled)
  }

  ghost function Calls(settled: seq<(nat, Outcome)>): set<nat> {
    set i | 0 <= i < |settled| :: settled[i].0
  }

  lemma {:induction false} NothingForgotten(events: seq<Event>)
    requires Mounted(events)
    ensures Accounted(Run(events))
  {
    if events != [] {
      var before := events[..|events| - 1];
      assert forall i | 0 <= i < |before| :: before[..i] == events[..i];
      RunKeeps(before);
      NothingForgotten(before);
      AccountedStep(Run(before), events[|events| - 1]);
    }
  }

  lemma CallsGrow(settled: seq<(nat, Outcome)>, call: nat, outcome: Outcome)
    ensures Calls(settled + [(call, outcome)]) == Calls(settled) + {call}
  {
    var more := settled + [(call, outcome)];
    assert more[|settled|].0 == call;
    forall c | c in Calls(settled) ensures c in Calls(more) {
      var i :| 0 <= i < |settled| && settled[i].0 == c;
      assert more[i].0 == c;
    }
  }

  lemma ResumeAccounts(s: Frame, outcome: Outcome)
    requires Accounted(s)
    ensures Accounted(Resume(s, outcome))
  {
    assert Resume(s, outcome).settled == s.settled;
  }

  lemma HeardAccounts(s: Frame, call: nat)
    requires Inv(s) && Accounted(s) && call in s.flights && s.flights[call].answer.Some?
    ensures Accounted(Heard(s, call))
  {
    HeardOnce(s, call);
    var outcome := s.flights[call].answer.value;
    var m := Response(s.flights[call].Id(), outcome, call);
    var t := s.(app := Hear(s.app, m), assets := Hear(s.assets, m), flights := s.flights - {call},
                settled := s.settled + Log(Settles(s.app, m), outcome) + Log(Settles(s.assets, m), outcome));
    assert t.settled == s.settled + [(call, outcome)];
    CallsGrow(s.settled, call, outcome);
    assert Accounted(t);
    ResumeAccounts(t, outcome);
  }

  lemma AccountedStep(s: Frame, e: Event)
    requires Inv(s) && Accounted(s)
    ensures Accounted(Step(s, e))
  {
    match e
    case Mount =>
    case ProducerCalls(_, _) =>
    case ProducerCallFails(message) => CallsGrow(s.settled, s.nextCall, Rejected(message));
    case ServerAnswers(call, outcome) =>
    case Deliver(call) => if call in s.flights && s.flights[call].answer.Some? { HeardAccounts(s, call); }
  }

  // ---- How far the mount has come ----------------------------------------

  /** The list was answered, and each of the assets it told of. */
  ghost predicate AllFetched(settled: seq<(nat, Outcome)>) {
    && settled != [] && settled[0].1.Resolved? && settled[0].1.value < |settled|
    && forall i | 0 <= i <= settled[0].1.value :: settled[i].1.Resolved?
  }

  /** One of these answers was a failure. */
  ghost predicate FetchFailed(settled: seq<(nat, Outcome)>) {
    settled != []
    && (settled[0].1.Rejected?
        || exists i :: 0 < i <= settled[0].1.value && i < |settled| && settled[i].1.Rejected?)
  }

  /** The phase goes by what has been settled; the k-th answer settles asset call k. */
  ghost predicate Paced(s: Frame) {
    match s.phase
    case NotMounted => s.settled == [] && s.nextCall == 0
    case Listing => s.settled == [] && s.nextCall == 1
    case Fetching(left) =>
      && s.settled != [] && (forall i | 0 <= i < |s.settled| :: s.settled[i].1.Resolved?)
      && s.nextCall == |s.settled| + 1 && |s.settled| + left == s.settled[0].1.value
    case Running => AllFetched(s.settled)
    case TornDown => FetchFailed(s.settled)
  }

  lemma MorePaced(before: seq<(nat, Outcome)>, more: seq<(nat, Outcome)>)
    ensures AllFetched(before) ==> AllFetched(before + more)
    ensures FetchFailed(before) ==> FetchFailed(before + more)
  {
    if FetchFailed(before) && before[0].1.Resolved? {
      var i :| 0 < i <= before[0].1.value && i < |before| && before[i].1.Rejected?;
      assert (before + more)[i].1.Rejected?;
    }
  }

  /** The producer runs exactly once the list and every asset in it have been answered;
    * the frame is torn down exactly once one of these calls has failed. */
  lemma {:induction false} RunsExactlyWhen(events: seq<Event>)
    requires Mounted(events)
    ensures Run(events).phase.Running? <==> AllFetched(Run(events).settled)
    ensures Run(events).phase.TornDown? <==> FetchFailed(Run(events).settled)
  {
    RunPaced(events);
  }

  lemma {:induction false} RunPaced(events: seq<Event>)
    requires Mounted(events)
    ensures Paced(Run(events))
  {
    if events != [] {
      var before := events[..|events| - 1];
      assert forall i | 0 <= i < |before| :: before[..i] == events[..i];
      RunKeeps(before);
      RunPaced(before);
      StepPaced(Run(before), events[|events| - 1]);
    }
  }

  lemma StepPaced(s: Frame, e: Event)
    requires Inv(s) && Paced(s) && Enabled(s, e)
    ensures Paced(Step(s, e))
  {
    match e
    case Mount =>
    case ProducerCalls(_, _) =>
    case ProducerCallFails(message) => MorePaced(s.settled, [(s.nextCall, Rejected(message))]);
    case ServerAnswers(_, _) =>
    case Deliver(call) => if call in s.flights && s.flights[call].answer.Some? { HeardPaced(s, call); }
  }

  lemma HeardPaced(s: Frame, call: nat)
    requires Inv(s) && Paced(s) && call in s.flights && s.flights[call].answer.Some?
    ensures Paced(Heard(s, call))
  {
    HeardOnce(s, call);
    var outcome := s.flights[call].answer.value;
    MorePaced(s.settled, [(call, outcome)]);
    var m := Response(s.flights[call].Id(), outcome, call);
    var t := s.(app := Hear(s.app, m), assets := Hear(s.assets, m), flights := s.flights - {call},
                settled := s.settled + Log(Settles(s.app, m), outcome) + Log(Settles(s.assets, m), outcome));
    assert t.settled == s.settled + [(call, outcome)];
    if !s.phase.Running? { ResumePaced(s, t, outcome); }
  }

  lemma ResumePaced(s: Frame, t: Frame, outcome: Outcome)
    requires Paced(s) && (s.phase.Listing? || s.phase.Fetching?) && t.phase == s.phase && t.nextCall == s.nextCall
    requires |t.settled| == |s.settled| + 1 && t.settled[..|s.settled|] == s.settled
    requires t.settled[|s.settled|].1 == outcome
    ensures Paced(Resume(t, outcome))
  {
    forall i | 0 <= i < |s.settled| ensures t.settled[i] == s.settled[i] {
      assert t.settled[..|s.settled|][i] == t.settled[i];
    }
    if outcome.Rejected? {
      assert t.settled[|s.settled|].1.Rejected?;
    }
  }

  // ---- What is asked of the server ---------------------------------------

  /** The producer's calls, in order; one whose arguments do not clone asks nothing. */
  function CallsMade(events: seq<Event>): seq<Option<(string, string)>> {
    if events == [] then []
    else
      var made := CallsMade(events[..|events| - 1]);
      match events[|events| - 1]
      case ProducerCalls(iface, fn) => made + [Some((iface, fn))]
      case ProducerCallFails(_) => made + [None]
      case _ => made
  }

  predicate Asks(m: Message, id: nat, iface: string, fn: string) {
    IsRequest(m) && m.id == Some(id) && m.iface == Some(iface) && m.fn == Some(fn)
  }

  /** The producer's k-th call is asked under id k, and as it was made; and until it runs,
    * the server is asked for the list of assets, and then for assets. */
  ghost predicate AskedAs(s: Frame, made: seq<Option<(string, string)>>) {
    && s.app.nextId == |made| + 1
    && (forall id | id in s.app.pending ::
          && 1 <= id <= |made| && made[id - 1].Some? && s.app.pending[id] in s.flights
          && Asks(s.flights[s.app.pending[id]].request, id, made[id - 1].value.0, made[id - 1].value.1))
    && (!s.phase.Running? ==>
          forall c | c in s.flights ::
            Asks(s.flights[c].request, s.flights[c].Id(), APPS, if s.phase.Listing? then "assets" else "asset"))
  }

  /** In every run, what the server is asked is what was called. */
  lemma {:induction false} RequestsAsCalled(events: seq<Event>)
    requires Mounted(events)
    ensures AskedAs(Run(events), CallsMade(events))
  {
    if events != [] {
      var before := events[..|events| - 1];
      assert forall i | 0 <= i < |before| :: before[..i] == events[..i];
      RunKeeps(before);
      RequestsAsCalled(before);
      StepAsks(Run(before), events[|events| - 1], CallsMade(before), CallsMade(events));
    }
  }

  lemma StepAsks(s: Frame, e: Event, made: seq<Option<(string, string)>>, next: seq<Option<(string, string)>>)
    requires Inv(s) && Enabled(s, e) && AskedAs(s, made)
    requires next == made + if e.ProducerCalls? then [Some((e.iface, e.fn))]
                            else if e.ProducerCallFails? then [None] else []
    ensures AskedAs(Step(s, e), next)
  {
    match e
    case Mount =>
    case ProducerCalls(iface, fn) => CallAsks(s, iface, fn, made);
    case ProducerCallFails(_) =>
    case ServerAnswers(call, outcome) => AnswerAsks(s, call, outcome, made);
    case Deliver(call) => if call in s.flights && s.flights[call].answer.Some? { HeardAsks(s, call, made); }
  }

  lemma CallAsks(s: Frame, iface: string, fn: string, made: seq<Option<(string, string)>>)
    requires Inv(s) && s.phase.Running? && AskedAs(s, made)
    ensures AskedAs(CallApp(s, iface, fn), made + [Some((iface, fn))])
  {
  }

  lemma AnswerAsks(s: Frame, call: nat, outcome: Outcome, made: seq<Option<(string, string)>>)
    requires Inv(s) && AskedAs(s, made)
    ensures AskedAs(Step(s, ServerAnswers(call, outcome)), made)
  {
  }

  lemma HeardAsks(s: Frame, call: nat, made: seq<Option<(string, string)>>)
    requires Inv(s) && AskedAs(s, made) && call in s.flights && s.flights[call].answer.Some?
    ensures AskedAs(Heard(s, call), made)
  {
    HeardOnce(s, call);
    if !s.phase.Running? { assert s.flights.Keys == {call}; }
  }

  /** The call waits at this proxy under the id of its request. */
  predicate WaitsAt(p: Proxy, s: Frame, call: nat) {
    call in s.flights && s.flights[call].Id() in p.pending && p.pending[s.flights[call].Id()] == call
  }

  /** An answer to a call of either proxy settles that call alone exactly when the other
    * has none out under the same id. */
  lemma CrossTalkExactlyWhen(s: Frame, call: nat)
    requires call in s.flights && s.flights[call].answer.Some?
    requires WaitsAt(s.assets, s, call) || WaitsAt(s.app, s, call)
    ensures Heard(s, call).settled == s.settled + [(call, s.flights[call].answer.value)]
       <==> !(s.flights[call].Id() in s.app.pending && s.flights[call].Id() in s.assets.pending)
  {
    var outcome := s.flights[call].answer.value;
    var m := Response(s.flights[call].Id(), outcome, call);
    var log := Log(Settles(s.app, m), outcome) + Log(Settles(s.assets, m), outcome);
    assert Heard(s, call).settled == s.settled + log;
    assert Heard(s, call).settled[|s.settled|..] == log;
  }

  /** If the producer could call while the asset list is out, it would be given the list:
    * both calls are number 1 on the port. */
  lemma CrossTalk(iface: string, fn: string) returns (events: seq<Event>)
    ensures !Mounted(events)
    ensures Run(events).settled == [(1, Resolved(7)), (0, Resolved(7))] && 1 !in Run(events).answers
  {
    var a, b, c, d := Mount, ProducerCalls(iface, fn), ServerAnswers(0, Resolved(7)), Deliver(0);
    events := [a, b, c, d];
    assert events[..3] == [a, b, c] && events[..3][..2] == [a, b] && [a, b][..1] == [a] && [a][..0] == [];
    assert events[..1] == [a];
    assert Run([a]) == CallAssets(INIT.(phase := Listing));
    assert Run([a, b]) == CallApp(Run([a]), iface, fn);
    var s := Run([a, b, c]);
    assert s.flights[0] == Flight(Request(1, APPS, "assets", 0), Some(Resolved(7)));
    var m := Response(1, Resolved(7), 0);
    assert Settles(s.app, m) == Some(1) && Settles(s.assets, m) == Some(0);
  }
}
