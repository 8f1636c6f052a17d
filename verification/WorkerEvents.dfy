/** One tab's copy of the kernel's event stream: `fanOut` and `events.next` of
  * web/worker.ts. A tab that stops asking loses the oldest events past a limit. */
module WorkerEvents {
  import opened Wrappers

  datatype KernelEvent = KernelEvent(kind: string, value: nat)

  const QUEUE_LIMIT: nat := 64

  /** `log` is every event pumped while the tab was connected, `given` the places in it
    * of those the tab received, both history; `received` is what it received. */
  datatype Stream = Stream(queue: seq<KernelEvent>, waiting: bool,
                           log: seq<KernelEvent>, given: seq<nat>, received: seq<KernelEvent>)

  const INIT: Stream := Stream([], false, [], [], [])

  datatype Answer = Given(event: KernelEvent) | Parked | Refused

  /** Where in the log the queue begins. */
  function Head(t: Stream): nat
    requires |t.queue| <= |t.log|
  {
    |t.log| - |t.queue|
  }

  function Pump(t: Stream, ev: KernelEvent): Stream {
    if t.waiting then
      t.(waiting := false, log := t.log + [ev], given := t.given + [|t.log|], received := t.received + [ev])
    else
      var queue := t.queue + [ev];
      t.(queue := if |queue| > QUEUE_LIMIT then queue[1..] else queue, log := t.log + [ev])
  }

  function PumpAll(t: Stream, events: seq<KernelEvent>): Stream {
    if events == [] then t else Pump(PumpAll(t, events[..|events| - 1]), events[|events| - 1])
  }

  function AfterNext(t: Stream): Stream {
    if t.queue != [] then
      t.(queue := t.queue[1..], given := t.given + [if |t.queue| <= |t.log| then Head(t) else 0],
         received := t.received + [t.queue[0]])
    else t.(waiting := true)
  }

  function NextAnswer(t: Stream): Answer {
    if t.queue != [] then Given(t.queue[0]) else if t.waiting then Refused else Parked
  }

  /** A tab's turn: the pump delivers an event, or the tab asks for one. */
  datatype Turn = Pumped(event: KernelEvent) | Asked

  function Take(t: Stream, turn: Turn): Stream {
    match turn
    case Pumped(ev) => Pump(t, ev)
    case Asked => AfterNext(t)
  }

  function Run(turns: seq<Turn>): (t: Stream) {
    if turns == [] then INIT else Take(Run(turns[..|turns| - 1]), turns[|turns| - 1])
  }

  // ---- What the tab and the pump see -------------------------------------

  /** The events pumped. */
  function Pumps(turns: seq<Turn>): seq<KernelEvent> {
    if turns == [] then []
    else
      var turn := turns[|turns| - 1];
      Pumps(turns[..|turns| - 1]) + if turn.Pumped? then [turn.event] else []
  }

  /** What the tab's last `next` was answered, if it was the last turn. */
  function LastAnswer(turns: seq<Turn>): Option<Answer> {
    if turns == [] || !turns[|turns| - 1].Asked? then None
    else Some(NextAnswer(Run(turns[..|turns| - 1])))
  }

  /** A `next` was parked and nothing has been pumped since. */
  function Parks(turns: seq<Turn>): bool {
    turns != [] && turns[|turns| - 1].Asked?
    && (LastAnswer(turns) == Some(Parked) || Parks(turns[..|turns| - 1]))
  }

  /** What the tab's calls of `next` come to: an event given at once, or the first pumped
    * after one was parked. */
  function Gets(turns: seq<Turn>): seq<KernelEvent> {
    if turns == [] then []
    else
      var front, turn := turns[..|turns| - 1], turns[|turns| - 1];
      Gets(front) +
      if turn.Pumped? then (if Parks(front) then [turn.event] else [])
      else if LastAnswer(turns).value.Given? then [LastAnswer(turns).value.event]
      else []
  }

  /** The histories are what was pumped and what the tab's calls came to; a call parks
    * exactly when nothing waits and none is parked, and is refused exactly when one is. */
  lemma {:induction false} RunIsAsSeen(turns: seq<Turn>)
    ensures var t := Run(turns);
            && t.log == Pumps(turns) && t.received == Gets(turns) && t.waiting == Parks(turns)
            && (NextAnswer(t) == Parked <==> t.queue == [] && !Parks(turns))
            && (NextAnswer(t) == Refused <==> Parks(turns))
  {
    RunKeeps(turns);
    if turns != [] {
      RunIsAsSeen(turns[..|turns| - 1]);
    }
  }

  // ---- What holds after any turns ----------------------------------------

  ghost predicate Inv(t: Stream) {
    && (t.waiting ==> t.queue == [])
    && |t.queue| <= QUEUE_LIMIT && |t.queue| <= |t.log|
    && t.queue == t.log[Head(t)..]
    && |t.given| == |t.received|
    && (forall i | 0 <= i < |t.given| :: t.given[i] < Head(t) && t.received[i] == t.log[t.given[i]])
    && (forall i, j | 0 <= i < j < |t.given| :: t.given[i] < t.given[j])
    && (forall k | 0 <= k < Head(t) && k !in t.given :: k + QUEUE_LIMIT < |t.log|)
  }

  lemma PumpKeeps(t: Stream, ev: KernelEvent)
    requires Inv(t)
    ensures Inv(Pump(t, ev))
  {
    var u := Pump(t, ev);
    var h := Head(t);
    assert u.log[..|t.log|] == t.log;
    if t.waiting {
      assert u.queue == u.log[Head(u)..];
      forall k | 0 <= k < Head(u) && k !in u.given ensures k + QUEUE_LIMIT < |u.log| {
        assert u.given[|t.given|] == |t.log|;
        assert u.given[..|t.given|] == t.given;
      }
    } else {
      assert t.queue + [ev] == u.log[h..];
      assert u.queue == u.log[Head(u)..];
    }
  }

  lemma NextKeeps(t: Stream)
    requires Inv(t)
    ensures Inv(AfterNext(t))
  {
    var u := AfterNext(t);
    if t.queue != [] {
      var h := Head(t);
      assert t.queue[0] == t.log[h];
      assert u.queue == t.log[h + 1..];
      forall k | 0 <= k < Head(u) && k !in u.given ensures k + QUEUE_LIMIT < |u.log| {
        assert u.given[|t.given|] == h;
        assert u.given[..|t.given|] == t.given;
      }
    }
  }

  lemma {:induction false} RunKeeps(turns: seq<Turn>)
    ensures Inv(Run(turns))
  {
    if turns != [] {
      var before := Run(turns[..|turns| - 1]);
      RunKeeps(turns[..|turns| - 1]);
      if turns[|turns| - 1].Asked? { NextKeeps(before); } else { PumpKeeps(before, turns[|turns| - 1].event); }
    }
  }

  /** In every interleaving of pump and `next`: a parked waiter means an empty queue;
    * the queue is at most 64 events, the newest ones; what was received came in order
    * without repeats; and what was neither received nor waits was lost with 64 newer
    * events behind it. */
  lemma EveryInterleaving(turns: seq<Turn>)
    ensures var t := Run(turns); var waiting := |t.log| - |t.queue|;
            && t.log == Pumps(turns) && t.received == Gets(turns)
            && (t.waiting ==> t.queue == [])
            && |t.queue| <= 64 && 0 <= waiting && t.queue == t.log[waiting..]
            && |t.given| == |t.received|
            && (forall i | 0 <= i < |t.given| :: t.given[i] < waiting && t.received[i] == t.log[t.given[i]])
            && (forall i, j | 0 <= i < j < |t.given| :: t.given[i] < t.given[j])
            && (forall k | 0 <= k < waiting && k !in t.given :: k + 64 < |t.log|)
  {
    RunKeeps(turns);
    RunIsAsSeen(turns);
  }

  /** How many events have gone by unreceived. */
  function Lost(t: Stream): int
    requires |t.queue| <= |t.log|
  {
    Head(t) - |t.given|
  }

  /** A turn loses an event exactly when the pump finds 64 waiting, and then just one. */
  lemma LosesExactlyWhen(t: Stream, turn: Turn)
    requires Inv(t)
    ensures Inv(Take(t, turn))
    ensures Lost(Take(t, turn)) ==
            Lost(t) + (if turn.Pumped? && !t.waiting && |t.queue| == 64 then 1 else 0)
  {
    if turn.Asked? { NextKeeps(t); } else { PumpKeeps(t, turn.event); }
  }

  /** A tab that never falls 64 behind gets all that is pumped, from the start, in order:
    * what it has not had yet is what waits. */
  lemma {:induction false} KeepsUp(turns: seq<Turn>)
    requires forall i | 0 <= i < |turns| :: |Run(turns[..i]).queue| < QUEUE_LIMIT
    ensures Gets(turns) + Run(turns).queue == Pumps(turns)
    ensures |Run(turns).queue| <= |Run(turns).log| && Lost(Run(turns)) == 0
  {
    LosesNone(turns);
    RunIsAsSeen(turns);
    ReceivesAll(Run(turns));
  }

  lemma {:induction false} LosesNone(turns: seq<Turn>)
    requires forall i | 0 <= i < |turns| :: |Run(turns[..i]).queue| < QUEUE_LIMIT
    ensures Inv(Run(turns)) && Lost(Run(turns)) == 0
  {
    RunKeeps(turns);
    if turns != [] {
      var front := turns[..|turns| - 1];
      assert forall i | 0 <= i < |front| :: front[..i] == turns[..i];
      LosesNone(front);
      LosesExactlyWhen(Run(front), turns[|turns| - 1]);
    }
  }

  ghost predicate Ascend(places: seq<nat>, limit: nat) {
    && (forall i | 0 <= i < |places| :: places[i] < limit)
    && forall i, j | 0 <= i < j < |places| :: places[i] < places[j]
  }

  lemma {:induction false} AtLeast(places: seq<nat>, limit: nat, i: nat)
    requires Ascend(places, limit) && i < |places|
    ensures i <= places[i]
  {
    if i > 0 { AtLeast(places, limit, i - 1); }
  }

  /** As many places as there are, in order, are all of them. */
  lemma {:induction false} AllPlaces(places: seq<nat>, limit: nat, i: nat)
    requires Ascend(places, limit) && i < |places| == limit
    ensures places[i] == i
    decreases |places| - i
  {
    AtLeast(places, limit, i);
    if i + 1 < |places| { AllPlaces(places, limit, i + 1); }
  }

  /** With none lost, what was received is all there is before the queue. */
  lemma ReceivesAll(t: Stream)
    requires Inv(t) && Lost(t) == 0
    ensures t.received + t.queue == t.log
  {
    var head := Head(t);
    assert Ascend(t.given, head);
    forall i | 0 <= i < head ensures t.received[i] == t.log[i] {
      AllPlaces(t.given, head, i);
    }
    Joined(t.received, t.queue, t.log);
  }

  lemma Joined(front: seq<KernelEvent>, back: seq<KernelEvent>, log: seq<KernelEvent>)
    requires |front| <= |log| && back == log[|front|..]
    requires forall i | 0 <= i < |front| :: front[i] == log[i]
    ensures front + back == log
  {
  }

  // ---- The code ----------------------------------------------------------

  class Tab {
    var queue: seq<KernelEvent>
    var waiter: bool
    ghost var log: seq<KernelEvent>
    ghost var given: seq<nat>
    ghost var received: seq<KernelEvent>

    ghost function State(): Stream
      reads this
    {
      Stream(queue, waiter, log, given, received)
    }

    constructor ()
      ensures State() == INIT
    {
      queue := [];
      waiter := false;
      log, given, received := [], [], [];
    }

    /** The pump's turn at this tab: its waiter gets the event, or the queue does. */
    method Deliver(ev: KernelEvent)
      modifies this
      ensures State() == Pump(old(State()), ev)
    {
      log := log + [ev];
      if waiter {
        waiter := false;
        given := given + [|log| - 1];
        received := received + [ev];
      } else {
        queue := queue + [ev];
        if |queue| > QUEUE_LIMIT {
          queue := queue[1..];
        }
      }
    }

    method Next() returns (answer: Answer)
      modifies this
      ensures State() == AfterNext(old(State())) && answer == NextAnswer(old(State()))
      ensures answer.Given? ==> old(queue) == [answer.event] + queue && received == old(received) + [answer.event]
      ensures answer == Parked <==> old(queue) == [] && !old(waiter)
      ensures answer == Parked ==> waiter && queue == [] && received == old(received)
      ensures answer == Refused ==> old(waiter) && State() == old(State())
    {
      if |queue| > 0 {
        answer := Given(queue[0]);
        given := given + [if |queue| <= |log| then |log| - |queue| else 0];
        received := received + [queue[0]];
        queue := queue[1..];
      } else if waiter {
        answer := Refused;
      } else {
        waiter := true;
        answer := Parked;
      }
    }
  }

  /** Every connected tab gets every event, in order, whatever the others do. */
  method FanOut(tabs: seq<Tab>, events: seq<KernelEvent>)
    requires forall i, j | 0 <= i < j < |tabs| :: tabs[i] != tabs[j]
    modifies tabs
    ensures forall tab | tab in tabs :: tab.State() == PumpAll(old(tab.State()), events)
  {
    assert events[..|events|] == events;
    for i := 0 to |events|
      invariant forall tab | tab in tabs :: tab.State() == PumpAll(old(tab.State()), events[..i])
    {
      var ev := events[i];
      assert events[..i + 1][..i] == events[..i];
      for k := 0 to |tabs|
        invariant forall j | 0 <= j < k :: tabs[j].State() == PumpAll(old(tabs[j].State()), events[..i + 1])
        invariant forall j | k <= j < |tabs| :: tabs[j].State() == PumpAll(old(tabs[j].State()), events[..i])
      {
        tabs[k].Deliver(ev);
      }
    }
  }
}
