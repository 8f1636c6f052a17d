/** The handlers of the markdown editor, apps/markdown/src/lib.rs: local edits on
  * their way to the kernel's history, remote snapshots on their way into the
  * document, and an input-method composition holding the text still between them.
  *
  * Each asynchronous answer is one event; each event runs to completion. */
module MarkdownApp {
  import opened Wrappers
  import opened Words
  import opened ScalarDiff
  import opened TextDocument

  type Batch = seq<Doc>

  datatype Status = Loading | SavingLocally | SavedLocally | Failure

  datatype InFlight = Nothing | Publishing(changes: Batch, coalesced: nat)

  /** `enqueued`, `published`, `merged` and `frozen` are history: everything ever sent
    * to the publisher, everything the kernel took, every snapshot merged, and the
    * document as the composition found it. */
  datatype App = App(
    doc: Doc, revision: nat, ready: bool, failed: bool, status: Status,
    composing: bool, deferred: Option<Snapshot>, completed: Option<ControlState>,
    pending: nat, queue: seq<Batch>, inFlight: InFlight, publishing: bool, reading: bool, watching: bool,
    enqueued: Batch, published: Batch, merged: Doc, frozen: Doc)

  const EMPTY: Doc := Doc({}, {})

  /** The byte-identical change every replica authors: the body itself, no text. */
  const GENESIS: Batch := [EMPTY]

  const INIT: App :=
    App(EMPTY, 0, false, false, Loading, false, None, None, 0, [], Nothing, true, true, true, [], [], EMPTY, EMPTY)

  /** `added` and `placed` are Automerge's part of an edit: the elements it allots, and
    * whether the selection that came with the text could be placed in it. */
  datatype Event =
    | ReadAnswers(revision: nat, bytes: Snapshot)
    | ReadFails
    | WatchAnswers(revision: nat, bytes: Snapshot)
    | WatchFails
    | CompositionStart
    | CompositionEnd(final: Option<ControlState>, added: seq<Elem>, placed: bool)
    | Input(typed: Option<ControlState>, added: seq<Elem>, placed: bool)
    | PublisherTakes
    | PublishAnswers(ok: bool)

  // ---- What each handler does --------------------------------------------

  function SetProgress(s: App, message: Status): App {
    if s.failed then s else s.(status := message)
  }

  function Fail(s: App): App {
    s.(failed := true, status := Failure)
  }

  function Send(s: App, batch: Batch): App {
    var t := SetProgress(s.(pending := s.pending + 1), SavingLocally);
    t.(queue := t.queue + [batch], enqueued := t.enqueued + batch)
  }

  /** Bytes that do not load, or leave the text without a body. */
  predicate Unusable(bytes: Snapshot) {
    bytes.Malformed? || bytes.Bodiless?
  }

  function MergeBytes(s: App, bytes: Snapshot): App {
    s.(doc := Merge(s.doc, Loads(bytes)), merged := Merge(s.merged, Loads(bytes)))
  }

  /** `input`, then `enqueue` of what it answers. */
  function Author(s: App, value: string, added: seq<Elem>, placed: bool): App {
    Enqueue(s.(doc := Edited(s.doc, value, added)), Edits(s.doc, value, added), placed)
  }

  function Enqueue(s: App, edits: Batch, placed: bool): App {
    if !placed then Fail(s) else if edits == [] then s else Send(s, edits)
  }

  function OnRead(s: App, revision: nat, bytes: Snapshot): App {
    if Unusable(bytes) then Fail(MergeBytes(s, bytes))
    else Readied(MergeBytes(s, bytes), revision, bytes.History? && bytes.hasBody)
  }

  function Readied(s: App, revision: nat, hasBody: bool): App {
    var t := s.(revision := revision, ready := true);
    if hasBody then SetProgress(t, SavedLocally) else Send(t, GENESIS)
  }

  function OnWatch(s: App, revision: nat, bytes: Snapshot): App {
    if revision <= s.revision then s
    else
      var t := s.(revision := revision);
      if t.composing then t.(deferred := Some(bytes))
      else if Unusable(bytes) then Fail(MergeBytes(t, bytes)).(watching := false)
      else MergeBytes(t, bytes)
  }

  function OnCompositionEnd(s: App, final: Option<ControlState>, added: seq<Elem>, placed: bool): App {
    var t := s.(composing := false, completed := final);
    Undefer(if final.None? then Fail(t) else Author(t, final.value.value, added, placed))
  }

  function Undefer(s: App): App {
    if s.deferred.None? then s
    else if Unusable(s.deferred.value) then Fail(MergeBytes(s, s.deferred.value)).(deferred := None)
    else MergeBytes(s, s.deferred.value).(deferred := None)
  }

  function OnInput(s: App, typed: Option<ControlState>, added: seq<Elem>, placed: bool): App {
    if typed.None? then Fail(s)
    else if typed.value.isComposing || s.composing then s
    else if s.completed == typed then s.(completed := None)
    else Author(s.(completed := None), typed.value.value, added, placed)
  }

  function Concat(batches: seq<Batch>): (b: Batch) {
    if batches == [] then [] else batches[0] + Concat(batches[1..])
  }

  function OnTake(s: App): App {
    if !s.publishing || s.inFlight.Publishing? || s.queue == [] then s
    else s.(inFlight := Publishing(Concat(s.queue), |s.queue|), queue := [])
  }

  function OnPublish(s: App, ok: bool): App {
    if !s.publishing || s.inFlight.Nothing? then s
    else if !ok then Fail(s).(publishing := false)
    else
      var remaining := if s.pending < s.inFlight.coalesced then 0 else s.pending - s.inFlight.coalesced;
      var t := s.(pending := remaining, inFlight := Nothing, published := s.published + s.inFlight.changes);
      if remaining == 0 then SetProgress(t, SavedLocally) else t
  }

  function Step(s: App, e: Event): App {
    match e
    case ReadAnswers(revision, bytes) =>
      if !s.reading then s else OnRead(s, revision, bytes).(reading := false)
    case ReadFails => if !s.reading then s else Fail(s).(reading := false)
    case WatchAnswers(revision, bytes) => if !s.watching then s else OnWatch(s, revision, bytes)
    case WatchFails => if !s.watching then s else Fail(s).(watching := false)
    case CompositionStart => s.(composing := true, completed := None, frozen := s.doc)
    case CompositionEnd(final, added, placed) => OnCompositionEnd(s, final, added, placed)
    case Input(typed, added, placed) => OnInput(s, typed, added, placed)
    case PublisherTakes => OnTake(s)
    case PublishAnswers(ok) => OnPublish(s, ok)
  }

  // ---- What every step keeps ---------------------------------------------

  function Sent(s: App): Batch {
    s.published + (if s.inFlight.Publishing? then s.inFlight.changes else []) + Concat(s.queue)
  }

  function Unsent(s: App): nat {
    (if s.inFlight.Publishing? then s.inFlight.coalesced else 0) + |s.queue|
  }

  /** Everything a list of changes carries. */
  function Join(changes: Batch): (d: Doc) {
    if changes == [] then EMPTY else Merge(Join(changes[..|changes| - 1]), changes[|changes| - 1])
  }

  ghost predicate Inv(s: App) {
    && Sent(s) == s.enqueued && s.pending == Unsent(s)
    && (s.inFlight.Publishing? ==> s.inFlight.coalesced > 0)
    && (s.failed <==> s.status == Failure)
    && (!s.failed ==> s.publishing && s.doc == Merge(s.merged, Join(s.enqueued)))
  }

  lemma {:induction false} ConcatSnoc(batches: seq<Batch>, b: Batch)
    ensures Concat(batches + [b]) == Concat(batches) + b
  {
    if batches == [] {
      assert [b][1..] == [];
    } else {
      ConcatSnoc(batches[1..], b);
      assert (batches + [b])[1..] == batches[1..] + [b];
    }
  }

  lemma {:induction false} JoinAppend(a: Batch, b: Batch)
    ensures Join(a + b) == Merge(Join(a), Join(b))
  {
    if b == [] {
      assert a + b == a;
    } else {
      JoinAppend(a, b[..|b| - 1]);
      assert (a + b)[..|a + b| - 1] == a + b[..|b| - 1];
    }
  }

  lemma MergeReorders(a: Doc, b: Doc, c: Doc)
    ensures Merge(Merge(a, b), c) == Merge(a, Merge(b, c)) == Merge(Merge(a, c), b)
  {
  }

  lemma SendKeeps(s: App, batch: Batch)
    requires Sent(s) == s.enqueued && s.pending == Unsent(s) && (s.failed <==> s.status == Failure)
    requires s.inFlight.Publishing? ==> s.inFlight.coalesced > 0
    requires !s.failed ==> s.publishing && s.doc == Merge(s.merged, Join(s.enqueued + batch))
    ensures Inv(Send(s, batch))
  {
    SendQueues(s, batch);
  }

  lemma SendQueues(s: App, batch: Batch)
    ensures var t := Send(s, batch);
            Sent(t) == Sent(s) + batch && Unsent(t) == Unsent(s) + 1
  {
    ConcatSnoc(s.queue, batch);
  }

  lemma EnqueueKeeps(s: App, before: Doc, edits: Batch, placed: bool)
    requires Inv(s.(doc := before)) && s.doc == Merge(before, Join(edits))
    ensures Inv(Enqueue(s, edits, placed))
  {
    JoinAppend(s.enqueued, edits);
    MergeReorders(s.merged, Join(s.enqueued), Join(edits));
    if placed && edits != [] {
      assert Sent(s) == Sent(s.(doc := before));
      SendKeeps(s, edits);
    }
  }

  lemma EditsJoin(doc: Doc, value: string, added: seq<Elem>)
    ensures Edited(doc, value, added) == Merge(doc, Join(Edits(doc, value, added)))
  {
    var d := Diff(doc.Text(), value);
    var change := Change(doc, d.start, d.deleted, added);
    assert Join([change]) == Merge(Join([]), change) == change;
  }

  lemma AuthorKeeps(s: App, value: string, added: seq<Elem>, placed: bool)
    requires Inv(s)
    ensures Inv(Author(s, value, added, placed))
  {
    EditsJoin(s.doc, value, added);
    var t := s.(doc := Edited(s.doc, value, added));
    assert t.(doc := s.doc) == s;
    EnqueueKeeps(t, s.doc, Edits(s.doc, value, added), placed);
  }

  lemma MergeKeeps(s: App, bytes: Snapshot)
    requires Inv(s)
    ensures Inv(MergeBytes(s, bytes))
  {
    MergeReorders(s.merged, Join(s.enqueued), Loads(bytes));
    assert Sent(MergeBytes(s, bytes)) == Sent(s);
  }

  lemma UndeferKeeps(s: App)
    requires Inv(s)
    ensures Inv(Undefer(s))
  {
    if s.deferred.Some? {
      MergeKeeps(s, s.deferred.value);
      InvElsewhere(MergeBytes(s, s.deferred.value), s.composing, None, s.completed);
      InvElsewhere(Fail(s), s.composing, None, s.completed);
    }
  }

  /** The composition's own fields are no part of the invariant. */
  lemma InvElsewhere(s: App, composing: bool, deferred: Option<Snapshot>, completed: Option<ControlState>)
    requires Inv(s)
    ensures Inv(s.(composing := composing, deferred := deferred, completed := completed))
  {
  }

  lemma ReadKeeps(s: App, revision: nat, bytes: Snapshot)
    requires Inv(s)
    ensures Inv(OnRead(s, revision, bytes))
  {
    MergeKeeps(s, bytes);
    if !Unusable(bytes) {
      var t := MergeBytes(s, bytes).(revision := revision, ready := true);
      assert Join(GENESIS) == EMPTY by { assert GENESIS[..0] == []; }
      JoinAppend(s.enqueued, GENESIS);
      MergeReorders(t.merged, Join(s.enqueued), EMPTY);
      if !(bytes.History? && bytes.hasBody) { SendKeeps(t, GENESIS); }
    }
  }

  lemma CompositionEndKeeps(s: App, final: Option<ControlState>, added: seq<Elem>, placed: bool)
    requires Inv(s)
    ensures Inv(OnCompositionEnd(s, final, added, placed))
  {
    var t := s.(composing := false, completed := final);
    InvElsewhere(s, false, s.deferred, final);
    if final.Some? { AuthorKeeps(t, final.value.value, added, placed); }
    UndeferKeeps(if final.None? then Fail(t) else Author(t, final.value.value, added, placed));
  }

  lemma InputKeeps(s: App, typed: Option<ControlState>, added: seq<Elem>, placed: bool)
    requires Inv(s)
    ensures Inv(OnInput(s, typed, added, placed))
  {
    if typed.Some? { AuthorKeeps(s.(completed := None), typed.value.value, added, placed); }
  }

  lemma TakeKeeps(s: App)
    requires Inv(s)
    ensures Inv(OnTake(s))
  {
  }

  lemma PublishKeeps(s: App, ok: bool)
    requires Inv(s)
    ensures Inv(OnPublish(s, ok))
  {
  }

  lemma RevisionElsewhere(s: App, revision: nat)
    requires Inv(s)
    ensures Inv(s.(revision := revision))
  {
    assert Sent(s.(revision := revision)) == Sent(s);
  }

  lemma WatchKeeps(s: App, revision: nat, bytes: Snapshot)
    requires Inv(s)
    ensures Inv(OnWatch(s, revision, bytes))
  {
    MergeKeeps(s, bytes);
    RevisionElsewhere(MergeBytes(s, bytes), revision);
  }

  lemma StepKeeps(s: App, e: Event)
    requires Inv(s)
    ensures Inv(Step(s, e))
  {
    match e
    case ReadAnswers(revision, bytes) => ReadKeeps(s, revision, bytes);
    case WatchAnswers(revision, bytes) => WatchKeeps(s, revision, bytes);
    case CompositionEnd(final, added, placed) => CompositionEndKeeps(s, final, added, placed);
    case Input(typed, added, placed) => InputKeeps(s, typed, added, placed);
    case PublisherTakes => TakeKeeps(s);
    case PublishAnswers(ok) => PublishKeeps(s, ok);
    case _ =>
  }

  // ---- Runs --------------------------------------------------------------

  function Run(events: seq<Event>): (s: App) {
    if events == [] then INIT else Step(Run(events[..|events| - 1]), events[|events| - 1])
  }

  /** The textarea is read-only until the first read has landed. */
  ghost predicate WhenReady(events: seq<Event>) {
    forall i | 0 <= i < |events| ::
      (events[i].CompositionStart? || events[i].CompositionEnd? || events[i].Input?) ==> Run(events[..i]).ready
  }

  lemma {:induction false} RunKeeps(events: seq<Event>)
    ensures Inv(Run(events))
  {
    if events != [] {
      RunKeeps(events[..|events| - 1]);
      StepKeeps(Run(events[..|events| - 1]), events[|events| - 1]);
    }
  }

  /** What has been published, is being published and waits to be is what was ever
    * enqueued, in order; `pending` counts the batches of it not yet published; and
    * unless something failed the document is what was merged and what was enqueued. */
  lemma NothingLost(events: seq<Event>)
    ensures var s := Run(events); var flying := if s.inFlight.Publishing? then s.inFlight.changes else [];
            && s.published + flying + Concat(s.queue) == s.enqueued
            && s.pending == |s.queue| + (if s.inFlight.Publishing? then s.inFlight.coalesced else 0)
            && (!s.failed ==> s.doc == Merge(s.merged, Join(s.enqueued)))
  {
    RunKeeps(events);
  }

  ghost predicate SavedInv(s: App) {
    && (s.ready ==> !s.reading)
    && (s.reading ==> s.pending == 0)
    && (s.status == SavedLocally ==> s.pending == 0)
    && (s.composing ==> s.ready && s.doc == s.frozen)
  }

  function Waiting(s: App): Doc {
    if s.deferred.Some? then Loads(s.deferred.value) else EMPTY
  }

  /** All that authoring an edit can do. */
  lemma AuthorEffect(s: App, value: string, added: seq<Elem>, placed: bool)
    ensures var t := Author(s, value, added, placed);
            && t == s.(doc := t.doc, failed := t.failed, status := t.status, pending := t.pending,
                       queue := t.queue, enqueued := t.enqueued)
            && t.doc == Edited(s.doc, value, added) && t.doc.Covers(s.doc) && (s.failed ==> t.failed)
            && ((s.failed ==> s.status == Failure) && t.status == SavedLocally ==>
                  s.status == SavedLocally && t.pending == s.pending)
  {
    EnqueueEffect(s.(doc := Edited(s.doc, value, added)), Edits(s.doc, value, added), placed);
  }

  lemma EnqueueEffect(s: App, edits: Batch, placed: bool)
    ensures var t := Enqueue(s, edits, placed);
            && t == s.(failed := t.failed, status := t.status, pending := t.pending,
                       queue := t.queue, enqueued := t.enqueued)
            && (s.failed ==> t.failed)
    ensures var t := Enqueue(s, edits, placed);
            && ((s.failed ==> s.status == Failure) && t.status == SavedLocally ==>
                  s.status == SavedLocally && t.pending == s.pending)
  {
    if placed && edits != [] {
      var t := Send(s, edits);
      assert t.status == if s.failed then s.status else SavingLocally;
    }
  }

  lemma UndeferEffect(s: App)
    ensures var t := Undefer(s);
            && t == s.(doc := t.doc, merged := t.merged, failed := t.failed, status := t.status, deferred := None)
            && (t.status == SavedLocally ==> s.status == SavedLocally) && (s.failed ==> t.failed)
            && t.doc == Merge(s.doc, Waiting(s))
  {
    if s.deferred.None? {
      MergeNothing(s.doc);
      assert Undefer(s) == s.(deferred := None);
    } else {
      UndeferMerges(s, MergeBytes(s, s.deferred.value));
    }
  }

  lemma UndeferMerges(s: App, m: App)
    requires s.deferred.Some? && m == MergeBytes(s, s.deferred.value)
    ensures Undefer(s) == if Unusable(s.deferred.value) then Fail(m).(deferred := None) else m.(deferred := None)
    ensures m == s.(doc := m.doc, merged := m.merged) && m.doc == Merge(s.doc, Waiting(s))
  {
  }

  lemma MergeNothing(a: Doc)
    ensures Merge(a, EMPTY) == a
  {
  }

  lemma SavedCompositionEnd(s: App, final: Option<ControlState>, added: seq<Elem>, placed: bool)
    requires SavedInv(s) && s.ready && (s.failed ==> s.status == Failure)
    ensures SavedInv(OnCompositionEnd(s, final, added, placed))
  {
    var t := s.(composing := false, completed := final);
    if final.Some? { AuthorEffect(t, final.value.value, added, placed); }
    var u := if final.None? then Fail(t) else Author(t, final.value.value, added, placed);
    assert SavedInv(u);
    UndeferEffect(u);
  }

  lemma SavedInput(s: App, typed: Option<ControlState>, added: seq<Elem>, placed: bool)
    requires SavedInv(s) && s.ready && (s.failed ==> s.status == Failure)
    ensures SavedInv(OnInput(s, typed, added, placed))
  {
    if typed.Some? { AuthorEffect(s.(completed := None), typed.value.value, added, placed); }
  }

  lemma SavedRead(s: App, revision: nat, bytes: Snapshot)
    requires Inv(s) && SavedInv(s) && s.reading
    ensures SavedInv(OnRead(s, revision, bytes).(reading := false))
  {
  }

  /** What the saved status does not depend on. */
  lemma SavedElsewhere(s: App, doc: Doc, merged: Doc, revision: nat, deferred: Option<Snapshot>)
    requires SavedInv(s) && (s.composing ==> doc == s.doc)
    ensures SavedInv(s.(doc := doc, merged := merged, revision := revision, deferred := deferred))
  {
  }

  lemma SavedWatch(s: App, revision: nat, bytes: Snapshot)
    requires Inv(s) && SavedInv(s)
    ensures SavedInv(OnWatch(s, revision, bytes))
  {
    if s.composing {
      SavedElsewhere(s, s.doc, s.merged, revision, Some(bytes));
    } else {
      SavedElsewhere(s, Merge(s.doc, Loads(bytes)), Merge(s.merged, Loads(bytes)), revision, s.deferred);
    }
  }

  lemma SavedPublish(s: App, ok: bool)
    requires Inv(s) && SavedInv(s)
    ensures SavedInv(OnPublish(s, ok))
  {
  }

  lemma SavedStep(s: App, e: Event)
    requires Inv(s) && SavedInv(s)
    requires (e.CompositionStart? || e.CompositionEnd? || e.Input?) ==> s.ready
    ensures SavedInv(Step(s, e))
  {
    match e
    case CompositionEnd(final, added, placed) => SavedCompositionEnd(s, final, added, placed);
    case Input(typed, added, placed) => SavedInput(s, typed, added, placed);
    case ReadAnswers(revision, bytes) => if s.reading { SavedRead(s, revision, bytes); }
    case WatchAnswers(revision, bytes) => SavedWatch(s, revision, bytes);
    case PublisherTakes =>
    case PublishAnswers(ok) => SavedPublish(s, ok);
    case ReadFails =>
    case WatchFails =>
    case CompositionStart =>
  }

  lemma {:induction false} SavedRun(events: seq<Event>)
    requires WhenReady(events)
    ensures SavedInv(Run(events))
  {
    if events != [] {
      var before := events[..|events| - 1];
      forall i | 0 <= i < |before| ensures before[..i] == events[..i] {}
      SavedRun(before);
      RunKeeps(before);
      SavedStep(Run(before), events[|events| - 1]);
    }
  }

  /** While it says "Saved locally", everything enqueued is published, and the document
    * on screen is exactly what was published and what came from the kernel. */
  lemma SavedMeansSaved(events: seq<Event>)
    requires WhenReady(events) && Run(events).status == SavedLocally
    ensures var s := Run(events);
            s.published == s.enqueued && s.pending == 0 && s.doc == Merge(s.merged, Join(s.published))
  {
    RunKeeps(events);
    SavedRun(events);
  }

  /** Without the read-only textarea it would not: text typed before the first read is
    * still queued when that read says it is saved. */
  lemma SavedTooEarly(typed: ControlState, added: seq<Elem>) returns (events: seq<Event>)
    requires typed.value != "" && !typed.isComposing && FitsText(EMPTY, typed.value, added)
    ensures !WhenReady(events) && Run(events).status == SavedLocally && Run(events).published != Run(events).enqueued
  {
    var e0, e1 := Input(Some(typed), added, true), ReadAnswers(1, History(true, EMPTY));
    events := [e0, e1];
    assert events[..1] == [e0] && events[..1][..0] == [] && events[..0] == [];
    assert Run(events[..0]) == INIT;
    EmptyText();
    NoChange("", typed.value);
    var d := Diff("", typed.value);
    ChangeIsDifference(EMPTY, d.start, d.deleted, Inserted("", typed.value), added);
  }

  lemma EmptyText()
    ensures EMPTY.Text() == "" && EMPTY.Items() == []
  {
  }

  // ---- What each handler leaves alone ------------------------------------

  /** The publisher's part, and what a composition began with. */
  ghost predicate Unmoved(s: App, t: App) {
    && t.published == s.published && t.publishing == s.publishing && t.inFlight == s.inFlight
    && t.frozen == s.frozen && (s.composing && t.composing ==> t.completed == s.completed)
  }

  lemma ReadLeaves(s: App, revision: nat, bytes: Snapshot)
    ensures var t := OnRead(s, revision, bytes);
            Unmoved(s, t) && t.composing == s.composing && t.watching == s.watching
  {
    if !Unusable(bytes) {
      ReadiedLeaves(MergeBytes(s, bytes), revision, bytes.History? && bytes.hasBody);
    }
  }

  lemma ReadiedLeaves(s: App, revision: nat, hasBody: bool)
    ensures var t := Readied(s, revision, hasBody);
            Unmoved(s, t) && t.composing == s.composing && t.watching == s.watching
  {
  }

  lemma WatchLeaves(s: App, revision: nat, bytes: Snapshot)
    ensures var t := OnWatch(s, revision, bytes);
            Unmoved(s, t) && t.composing == s.composing && t.revision >= s.revision && t.reading == s.reading
  {
    if revision > s.revision {
      if s.composing {
      } else if Unusable(bytes) {
      } else {
      }
    }
  }

  lemma InputLeaves(s: App, typed: Option<ControlState>, added: seq<Elem>, placed: bool)
    ensures var t := OnInput(s, typed, added, placed);
            && Unmoved(s, t) && t.composing == s.composing && t.revision == s.revision
            && t.watching == s.watching && t.reading == s.reading
  {
    if typed.Some? { AuthorEffect(s.(completed := None), typed.value.value, added, placed); }
  }

  lemma CompositionEndLeaves(s: App, final: Option<ControlState>, added: seq<Elem>, placed: bool)
    ensures var t := OnCompositionEnd(s, final, added, placed);
            Unmoved(s, t) && t.revision == s.revision && t.watching == s.watching && t.reading == s.reading
  {
    var t := s.(composing := false, completed := final);
    if final.Some? { AuthorEffect(t, final.value.value, added, placed); }
    UndeferEffect(if final.None? then Fail(t) else Author(t, final.value.value, added, placed));
  }

  lemma StepLeaves(s: App, e: Event)
    ensures var u := Step(s, e);
            && (!e.ReadAnswers? ==> u.revision >= s.revision)
            && (!e.CompositionStart? && !e.CompositionEnd? ==> u.composing == s.composing && u.frozen == s.frozen)
            && (!e.CompositionStart? && !e.CompositionEnd? && s.composing ==> u.completed == s.completed)
            && (e.CompositionStart? ==> u.composing && u.completed == None && u.doc == u.frozen == s.doc)
            && (!s.publishing ==> u.published == s.published && !u.publishing)
  {
    match e
    case ReadAnswers(revision, bytes) => ReadLeaves(s, revision, bytes);
    case WatchAnswers(revision, bytes) => WatchLeaves(s, revision, bytes);
    case CompositionEnd(final, added, placed) => CompositionEndLeaves(s, final, added, placed);
    case Input(typed, added, placed) => InputLeaves(s, typed, added, placed);
    case ReadFails =>
    case WatchFails =>
    case CompositionStart =>
    case PublisherTakes =>
    case PublishAnswers(_) =>
  }

  // ---- Compositions ------------------------------------------------------

  /** The composition begun by event `k` has neither ended nor begun anew. */
  ghost predicate Begun(events: seq<Event>, k: nat) {
    && k < |events| && events[k].CompositionStart?
    && forall i | k < i < |events| :: !events[i].CompositionStart? && !events[i].CompositionEnd?
  }

  lemma {:induction false} BegunComposes(events: seq<Event>, k: nat)
    requires Begun(events, k)
    ensures Run(events).composing && Run(events).frozen == Run(events[..k]).doc && Run(events).completed == None
  {
    var before := events[..|events| - 1];
    assert before[..k] == events[..k];
    if k < |before| { BegunComposes(before, k); }
    StepLeaves(Run(before), events[|events| - 1]);
  }

  /** While a composition goes on the document is as its beginning found it, and the echo
    * of the one before is forgotten. */
  lemma FrozenWhileComposing(events: seq<Event>, k: nat)
    requires WhenReady(events) && Begun(events, k)
    ensures Run(events).composing && Run(events).doc == Run(events[..k]).doc && Run(events).completed == None
  {
    SavedRun(events);
    BegunComposes(events, k);
  }

  /** Exactly one event could thaw it: a first read that lands in the middle. */
  lemma ThawsExactlyWhen(s: App, e: Event)
    requires s.composing && !e.CompositionEnd?
    ensures Step(s, e).doc == s.doc
       <==> !(e.ReadAnswers? && s.reading && !s.doc.Covers(Loads(e.bytes)))
  {
    if e.ReadAnswers? { ReadThaws(s, e.revision, e.bytes); } else { OthersDoNot(s, e); }
  }

  /** A read merges what it can, and moves the revision if that is all right. */
  lemma ReadEffect(s: App, revision: nat, bytes: Snapshot)
    ensures var t := OnRead(s, revision, bytes);
            && t.doc == Merge(s.doc, Loads(bytes)) && t.deferred == s.deferred
            && t.revision == if Unusable(bytes) then s.revision else revision
  {
    if !Unusable(bytes) {
      ReadiedEffect(MergeBytes(s, bytes), revision, bytes.History? && bytes.hasBody);
    }
  }

  lemma ReadiedEffect(s: App, revision: nat, hasBody: bool)
    ensures var t := Readied(s, revision, hasBody);
            t.doc == s.doc && t.deferred == s.deferred && t.revision == revision
  {
    if hasBody {
    } else {
    }
  }

  lemma ReadThaws(s: App, revision: nat, bytes: Snapshot)
    ensures OnRead(s, revision, bytes).doc == s.doc <==> s.doc.Covers(Loads(bytes))
  {
    ReadEffect(s, revision, bytes);
    MergeCovered(s.doc, Loads(bytes));
  }

  lemma MergeCovered(a: Doc, b: Doc)
    ensures Merge(a, b) == a <==> a.Covers(b)
  {
    if a.Covers(b) {
      assert a.elems + b.elems == a.elems && a.removed + b.removed == a.removed;
    } else {
      assert Merge(a, b).Covers(b);
    }
  }

  lemma OthersDoNot(s: App, e: Event)
    requires s.composing && !e.CompositionEnd? && !e.ReadAnswers?
    ensures Step(s, e).doc == s.doc
  {
  }

  ghost predicate FitsText(doc: Doc, value: string, added: seq<Elem>) {
    Fits(doc, Diff(doc.Text(), value).start, Inserted(doc.Text(), value), added)
  }

  /** The end of a composition is diffed against the text the browser composed over,
    * makes the document the composed text, and only then lets the deferred snapshot in. */
  lemma {:induction false} CompositionOverShownText(events: seq<Event>, k: nat, final: ControlState, added: seq<Elem>,
                                                    placed: bool)
    requires WhenReady(events) && Begun(events, k) && FitsText(Run(events).doc, final.value, added)
    ensures var s := Run(events); var edited := Edited(Run(events[..k]).doc, final.value, added);
            && edited.Text() == final.value
            && Step(s, CompositionEnd(Some(final), added, placed)).doc == Merge(edited, Waiting(s))
  {
    FrozenWhileComposing(events, k);
    BegunComposes(events, k);
    FrozenComposed(Run(events), final, added, placed);
  }

  lemma FrozenComposed(s: App, final: ControlState, added: seq<Elem>, placed: bool)
    requires s.doc == s.frozen && FitsText(s.doc, final.value, added)
    ensures var edited := Edited(s.frozen, final.value, added);
            edited.Text() == final.value
            && Step(s, CompositionEnd(Some(final), added, placed)).doc == Merge(edited, Waiting(s))
  {
    EditedText(s.doc, final.value, added);
    CompositionEndMerges(s, final, added, placed);
  }

  lemma CompositionEndMerges(s: App, final: ControlState, added: seq<Elem>, placed: bool)
    ensures OnCompositionEnd(s, Some(final), added, placed).doc == Merge(Edited(s.doc, final.value, added), Waiting(s))
  {
    var t := s.(composing := false, completed := Some(final));
    AuthorEffect(t, final.value, added, placed);
    UndeferEffect(Author(t, final.value, added, placed));
  }

  lemma AfterCompositionEnd(s: App, final: Option<ControlState>, added: seq<Elem>, placed: bool)
    ensures var t := OnCompositionEnd(s, final, added, placed);
            !t.composing && t.completed == final && t.deferred == None
  {
    var t := s.(composing := false, completed := final);
    if final.Some? { AuthorEffect(t, final.value.value, added, placed); }
    UndeferEffect(if final.None? then Fail(t) else Author(t, final.value.value, added, placed));
  }

  /** The input event that repeats a composition's end changes nothing, so text merged
    * between the two is not typed over. */
  lemma EchoAuthorsNothing(s: App, final: ControlState, added: seq<Elem>, placed: bool, again: seq<Elem>, p: bool)
    requires !final.isComposing
    ensures var t := Step(s, CompositionEnd(Some(final), added, placed));
            Step(t, Input(Some(final), again, p)) == t.(completed := None)
  {
    AfterCompositionEnd(s, Some(final), added, placed);
  }

  /** Outside a composition every input but the echo makes the document its text and, if
    * its selection could be placed, sends what takes the old document there; the echo
    * does neither, and is forgotten, so the same input again is no echo. */
  lemma OtherInputIsAuthored(s: App, typed: ControlState, added: seq<Elem>, placed: bool)
    requires !s.composing && !typed.isComposing && FitsText(s.doc, typed.value, added)
    ensures var t := Step(s, Input(Some(typed), added, placed));
            && t.completed == None
            && (if s.completed == Some(typed) then t.doc == s.doc && t.enqueued == s.enqueued && t.pending == s.pending
                else t.doc.Text() == typed.value && Carried(s, t, placed)
                     && (placed ==> t.pending == s.pending + (if typed.value == s.doc.Text() then 0 else 1)))
  {
    if s.completed != Some(typed) {
      AuthorCarries(s.(completed := None), typed.value, added, placed);
    }
  }

  /** What was enqueued between `s` and `t`, if anything, takes one's document to the
    * other's; a selection that could not be placed is a failure. */
  ghost predicate Carried(s: App, t: App, placed: bool) {
    if placed then
      && |s.enqueued| <= |t.enqueued| && t.enqueued[..|s.enqueued|] == s.enqueued
      && t.doc == Merge(s.doc, Join(t.enqueued[|s.enqueued|..]))
    else t.failed && t.enqueued == s.enqueued
  }

  lemma AuthorCarries(s: App, value: string, added: seq<Elem>, placed: bool)
    requires FitsText(s.doc, value, added)
    ensures var t := Author(s, value, added, placed);
            && t.completed == s.completed && t.doc.Text() == value && Carried(s, t, placed)
            && (placed ==> t.pending == s.pending + (if value == s.doc.Text() then 0 else 1))
  {
    var edits := Edits(s.doc, value, added);
    var t := Author(s, value, added, placed);
    EditedText(s.doc, value, added);
    EditsCarryTheEdit(s.doc, value, added);
    EditsJoin(s.doc, value, added);
    AuthorEffect(s, value, added, placed);
    EnqueueSends(s.(doc := t.doc), edits, placed);
    assert placed ==> t.enqueued[|s.enqueued|..] == edits;
  }

  lemma EnqueueSends(s: App, edits: Batch, placed: bool)
    ensures var t := Enqueue(s, edits, placed);
            if placed then t.enqueued == s.enqueued + edits && t.pending == s.pending + (if edits == [] then 0 else 1)
            else t.enqueued == s.enqueued && t.failed
  {
  }

  // ---- Remote history ----------------------------------------------------

  /** Revision by revision, the kernel's history only grows, from nothing. */
  ghost predicate Growing(kernel: nat -> Doc) {
    kernel(0) == EMPTY && forall i: nat, j: nat | i <= j :: kernel(j).Covers(kernel(i))
  }

  ghost predicate Serves(kernel: nat -> Doc, e: Event) {
    e.ReadAnswers? || e.WatchAnswers? ==> !e.bytes.Malformed? && Loads(e.bytes) == kernel(e.revision)
  }

  ghost predicate CoverInv(kernel: nat -> Doc, s: App) {
    && (s.deferred.Some? ==> !s.deferred.value.Malformed?)
    && Merge(s.doc, Waiting(s)).Covers(kernel(s.revision))
  }

  lemma CoverCompositionEnd(kernel: nat -> Doc, s: App, final: Option<ControlState>, added: seq<Elem>, placed: bool)
    requires CoverInv(kernel, s)
    ensures CoverInv(kernel, OnCompositionEnd(s, final, added, placed))
  {
    var t := s.(composing := false, completed := final);
    if final.Some? { AuthorEffect(t, final.value.value, added, placed); }
    UndeferEffect(if final.None? then Fail(t) else Author(t, final.value.value, added, placed));
  }

  lemma CoverInput(kernel: nat -> Doc, s: App, typed: Option<ControlState>, added: seq<Elem>, placed: bool)
    requires CoverInv(kernel, s)
    ensures CoverInv(kernel, OnInput(s, typed, added, placed))
  {
    if typed.Some? { AuthorEffect(s.(completed := None), typed.value.value, added, placed); }
  }

  lemma CoverMerge(kernel: nat -> Doc, s: App, revision: nat, bytes: Snapshot)
    requires CoverInv(kernel, s) && Loads(bytes) == kernel(revision)
    ensures CoverInv(kernel, MergeBytes(s, bytes).(revision := revision))
  {
  }

  lemma CoverMore(kernel: nat -> Doc, s: App, t: App)
    requires CoverInv(kernel, s) && t.deferred == s.deferred && t.doc.Covers(s.doc)
    requires t.revision == s.revision || t.doc.Covers(kernel(t.revision))
    ensures CoverInv(kernel, t)
  {
  }

  lemma CoverRead(kernel: nat -> Doc, s: App, revision: nat, bytes: Snapshot)
    requires CoverInv(kernel, s) && !bytes.Malformed? && Loads(bytes) == kernel(revision)
    ensures CoverInv(kernel, OnRead(s, revision, bytes))
  {
    ReadEffect(s, revision, bytes);
    CoverMore(kernel, s, OnRead(s, revision, bytes));
  }

  lemma CoverWatch(kernel: nat -> Doc, s: App, revision: nat, bytes: Snapshot)
    requires CoverInv(kernel, s) && !bytes.Malformed? && Loads(bytes) == kernel(revision)
    ensures CoverInv(kernel, OnWatch(s, revision, bytes))
  {
    if revision > s.revision && !s.composing {
      CoverMerge(kernel, s, revision, bytes);
      assert OnWatch(s, revision, bytes).doc == MergeBytes(s, bytes).doc;
    }
  }

  lemma CoverStep(kernel: nat -> Doc, s: App, e: Event)
    requires CoverInv(kernel, s) && Serves(kernel, e)
    ensures CoverInv(kernel, Step(s, e))
  {
    match e
    case ReadAnswers(revision, bytes) => CoverRead(kernel, s, revision, bytes);
    case WatchAnswers(revision, bytes) => CoverWatch(kernel, s, revision, bytes);
    case CompositionEnd(final, added, placed) => CoverCompositionEnd(kernel, s, final, added, placed);
    case Input(typed, added, placed) => CoverInput(kernel, s, typed, added, placed);
    case _ =>
  }

  /** The document and the one deferred snapshot hold everything up to `revision`,
    * though only the newest snapshot is kept and the first read may lower `revision`. */
  lemma {:induction false} HistoryCovered(kernel: nat -> Doc, events: seq<Event>, upTo: nat)
    requires Growing(kernel) && (forall i | 0 <= i < |events| :: Serves(kernel, events[i]))
    requires upTo <= Run(events).revision
    ensures CoverInv(kernel, Run(events))
    ensures Merge(Run(events).doc, Waiting(Run(events))).Covers(kernel(upTo))
  {
    if events != [] {
      var before := events[..|events| - 1];
      HistoryCovered(kernel, before, 0);
      CoverStep(kernel, Run(before), events[|events| - 1]);
    }
    assert kernel(Run(events).revision).Covers(kernel(upTo));
  }

  /** A newer snapshot moves the revision and is in the document at once, or after the
    * composition that is going on; any other changes nothing. */
  lemma WatchAdvances(s: App, revision: nat, hasBody: bool, h: Doc)
    requires s.watching
    ensures var u := Step(s, WatchAnswers(revision, History(hasBody, h)));
            if revision <= s.revision then u == s
            else
              && u.revision == revision && u.watching && u.failed == s.failed && u.enqueued == s.enqueued
              && Merge(u.doc, Waiting(u)).Covers(h)
              && (if s.composing then u.doc == s.doc
                  else u.doc.elems == s.doc.elems + h.elems && u.doc.removed == s.doc.removed + h.removed)
  {
  }

  /** The first read is merged, makes the editor ready, and sends the genesis exactly if
    * the history had no body yet. */
  lemma ReadLands(s: App, revision: nat, bytes: Snapshot)
    requires s.reading && !Unusable(bytes)
    ensures var u := Step(s, ReadAnswers(revision, bytes)); var h := if bytes.History? then bytes.doc else EMPTY;
            && u.revision == revision && u.ready && !u.reading && u.failed == s.failed
            && u.doc.elems == s.doc.elems + h.elems && u.doc.removed == s.doc.removed + h.removed
            && u.enqueued == s.enqueued + (if bytes.History? && bytes.hasBody then [] else [EMPTY])
            && u.pending == s.pending + (if bytes.History? && bytes.hasBody then 0 else 1)
  {
    ReadyLands(MergeBytes(s, bytes), revision, bytes.History? && bytes.hasBody);
  }

  lemma ReadyLands(s: App, revision: nat, hasBody: bool)
    ensures var u := Readied(s, revision, hasBody);
            && u.revision == revision && u.ready && u.failed == s.failed && u.doc == s.doc
            && u.enqueued == s.enqueued + (if hasBody then [] else [EMPTY])
            && u.pending == s.pending + (if hasBody then 0 else 1)
  {
  }

  lemma RevisionRises(events: seq<Event>, e: Event)
    requires !e.ReadAnswers?
    ensures Run(events + [e]).revision >= Run(events).revision
  {
    assert (events + [e])[..|events|] == events;
    StepLeaves(Run(events), e);
  }

  /** Nothing but the first read puts the revision back. */
  lemma {:induction false} RevisionStays(before: seq<Event>, after: seq<Event>)
    requires forall i | 0 <= i < |after| :: !after[i].ReadAnswers?
    ensures Run(before + after).revision >= Run(before).revision
    decreases |after|
  {
    if after == [] {
      assert before + after == before;
    } else {
      RevisionRises(before, after[0]);
      RevisionStays(before + [after[0]], after[1..]);
      assert before + [after[0]] + after[1..] == before + after;
    }
  }

  /** Whatever the kernel served a watching editor, it has, and keeps: in the document, or
    * deferred while a composition goes on. */
  lemma {:induction false} ServedArrives(kernel: nat -> Doc, before: seq<Event>, served: Event, after: seq<Event>)
    requires served.WatchAnswers? && Run(before).watching && !Unusable(served.bytes)
    requires Growing(kernel) && (forall e | e in before + [served] + after :: Serves(kernel, e))
    requires forall i | 0 <= i < |after| :: !after[i].ReadAnswers?
    ensures var s := Run(before + [served] + after);
            && Merge(s.doc, Waiting(s)).Covers(kernel(served.revision))
            && (s.deferred.None? ==> s.doc.Covers(kernel(served.revision)))
  {
    var now := before + [served];
    assert now[..|before|] == before;
    assert Run(now).revision >= served.revision;
    RevisionStays(now, after);
    var events := now + after;
    forall i | 0 <= i < |events| ensures Serves(kernel, events[i]) { assert events[i] in events; }
    HistoryCovered(kernel, events, served.revision);
  }

  // ---- What the user is told ---------------------------------------------

  function Told(s: App): Status {
    if s.failed then Failure
    else if !s.ready then Loading
    else if s.pending == 0 then SavedLocally
    else SavingLocally
  }

  ghost predicate ToldInv(s: App) {
    s.status == Told(s) && (s.ready ==> !s.reading) && (!s.ready ==> s.pending == 0 && (s.reading || s.failed))
  }

  lemma ToldEnqueue(s: App, edits: Batch, placed: bool)
    requires ToldInv(s) && s.ready
    ensures var t := Enqueue(s, edits, placed); ToldInv(t) && t.ready
  {
  }

  lemma ToldCompositionEnd(s: App, final: Option<ControlState>, added: seq<Elem>, placed: bool)
    requires ToldInv(s) && s.ready
    ensures ToldInv(OnCompositionEnd(s, final, added, placed))
  {
    var t := s.(composing := false, completed := final);
    if final.Some? {
      ToldEnqueue(t.(doc := Edited(t.doc, final.value.value, added)), Edits(t.doc, final.value.value, added), placed);
    }
    ToldUndefer(if final.None? then Fail(t) else Author(t, final.value.value, added, placed));
  }

  lemma ToldUndefer(s: App)
    requires ToldInv(s)
    ensures ToldInv(Undefer(s))
  {
  }

  lemma ToldInput(s: App, typed: Option<ControlState>, added: seq<Elem>, placed: bool)
    requires ToldInv(s) && s.ready
    ensures ToldInv(OnInput(s, typed, added, placed))
  {
    if typed.Some? {
      var value := typed.value.value;
      ToldEnqueue(s.(completed := None, doc := Edited(s.doc, value, added)), Edits(s.doc, value, added), placed);
    }
  }

  lemma ToldRead(s: App, revision: nat, bytes: Snapshot)
    requires Inv(s) && ToldInv(s) && s.reading
    ensures ToldInv(OnRead(s, revision, bytes).(reading := false))
  {
  }

  lemma ToldWatch(s: App, revision: nat, bytes: Snapshot)
    requires ToldInv(s)
    ensures ToldInv(OnWatch(s, revision, bytes))
  {
  }

  lemma ToldPublish(s: App, ok: bool)
    requires Inv(s) && ToldInv(s)
    ensures ToldInv(OnPublish(s, ok))
  {
  }

  lemma ToldStep(s: App, e: Event)
    requires Inv(s) && ToldInv(s) && ((e.CompositionStart? || e.CompositionEnd? || e.Input?) ==> s.ready)
    ensures ToldInv(Step(s, e))
  {
    match e
    case CompositionEnd(final, added, placed) => ToldCompositionEnd(s, final, added, placed);
    case Input(typed, added, placed) => ToldInput(s, typed, added, placed);
    case ReadAnswers(revision, bytes) => if s.reading { ToldRead(s, revision, bytes); }
    case WatchAnswers(revision, bytes) => ToldWatch(s, revision, bytes);
    case PublisherTakes =>
    case PublishAnswers(ok) => ToldPublish(s, ok);
    case ReadFails =>
    case WatchFails =>
    case CompositionStart =>
  }

  /** What the status says is so, whenever it says it: it says saved exactly when the first
    * read is in and nothing waits to be published, and that something failed exactly when
    * something has. */
  lemma {:induction false} StatusTells(events: seq<Event>)
    requires WhenReady(events)
    ensures var s := Run(events);
            && (s.status == Failure <==> s.failed)
            && (s.status == Loading <==> !s.failed && !s.ready)
            && (s.status == SavedLocally <==> !s.failed && s.ready && s.pending == 0)
            && (s.status == SavingLocally <==> !s.failed && s.ready && s.pending > 0)
            && s.pending == |s.queue| + (if s.inFlight.Publishing? then s.inFlight.coalesced else 0)
    ensures ToldInv(Run(events))
  {
    RunKeeps(events);
    if events != [] {
      var before := events[..|events| - 1];
      forall i | 0 <= i < |before| ensures before[..i] == events[..i] {}
      RunKeeps(before);
      StatusTells(before);
      ToldStep(Run(before), events[|events| - 1]);
    }
  }

  /** A selection the edit's text has no place for. */
  predicate Misplaced(s: App, e: Event) {
    || (e.CompositionEnd? && (e.final.None? || !e.placed))
    || (e.Input? && (e.typed.None? || (!e.typed.value.isComposing && !s.composing && s.completed != e.typed
                                       && !e.placed)))
  }

  /** A step fails exactly when the kernel's answer is an error or cannot be used, or an
    * edit comes without its text or with a selection it has no place for; and a failure
    * stays. */
  lemma FailsExactlyWhen(s: App, e: Event)
    ensures Step(s, e).failed <==>
            || s.failed || Misplaced(s, e)
            || (e.ReadFails? && s.reading) || (e.ReadAnswers? && s.reading && Unusable(e.bytes))
            || (e.WatchFails? && s.watching)
            || (e.WatchAnswers? && s.watching && e.revision > s.revision && !s.composing && Unusable(e.bytes))
            || (e.CompositionEnd? && s.deferred.Some? && Unusable(s.deferred.value))
            || (e.PublishAnswers? && !e.ok && s.publishing && s.inFlight.Publishing?)
  {
    match e
    case CompositionEnd(final, added, placed) => EndFailsWhen(s, final, added, placed);
    case Input(typed, added, placed) => InputFailsWhen(s, typed, added, placed);
    case ReadAnswers(revision, bytes) => ReadFailsWhen(s, revision, bytes);
    case WatchAnswers(_, _) =>
    case PublisherTakes =>
    case PublishAnswers(_) =>
    case ReadFails =>
    case WatchFails =>
    case CompositionStart =>
  }

  lemma InputFailsWhen(s: App, typed: Option<ControlState>, added: seq<Elem>, placed: bool)
    ensures OnInput(s, typed, added, placed).failed <==> s.failed || Misplaced(s, Input(typed, added, placed))
  {
    if typed.Some? { AuthorFailsWhen(s.(completed := None), typed.value.value, added, placed); }
  }

  lemma ReadFailsWhen(s: App, revision: nat, bytes: Snapshot)
    ensures OnRead(s, revision, bytes).failed <==> s.failed || Unusable(bytes)
  {
  }

  /** The editor stops watching exactly when a watch fails, or brings what it cannot use
    * while no composition goes on. */
  lemma WatchingStopsExactlyWhen(s: App, e: Event)
    ensures Step(s, e).watching <==>
            && s.watching && !e.WatchFails?
            && !(e.WatchAnswers? && e.revision > s.revision && !s.composing && Unusable(e.bytes))
    ensures Step(s, e).reading <==> s.reading && !e.ReadFails? && !e.ReadAnswers?
  {
    match e
    case ReadAnswers(revision, bytes) => ReadLeaves(s, revision, bytes);
    case WatchAnswers(_, _) =>
    case CompositionEnd(final, added, placed) => CompositionEndLeaves(s, final, added, placed);
    case Input(typed, added, placed) => InputLeaves(s, typed, added, placed);
    case ReadFails =>
    case WatchFails =>
    case CompositionStart =>
    case PublisherTakes =>
    case PublishAnswers(_) =>
  }

  lemma AuthorFailsWhen(s: App, value: string, added: seq<Elem>, placed: bool)
    ensures var t := Author(s, value, added, placed);
            (t.failed <==> s.failed || !placed) && t.deferred == s.deferred
  {
  }

  lemma EndFailsWhen(s: App, final: Option<ControlState>, added: seq<Elem>, placed: bool)
    ensures OnCompositionEnd(s, final, added, placed).failed <==>
            s.failed || final.None? || !placed || (s.deferred.Some? && Unusable(s.deferred.value))
  {
    var t := s.(composing := false, completed := final);
    if final.Some? { AuthorFailsWhen(t, final.value.value, added, placed); }
    var u := if final.None? then Fail(t) else Author(t, final.value.value, added, placed);
    if s.deferred.Some? { UndeferMerges(u, MergeBytes(u, s.deferred.value)); }
  }

  lemma PublishEmpties(s: App)
    requires Inv(s) && s.publishing
    ensures var t := OnPublish(s, true);
            && Inv(t) && t.publishing && t.inFlight == Nothing && t.queue == s.queue && t.failed == s.failed
            && t.enqueued == s.enqueued && t.pending == |s.queue|
            && (!s.failed && s.inFlight.Publishing? && s.queue == [] ==> t.status == SavedLocally)
            && (s.inFlight.Nothing? ==> t == s)
  {
    PublishKeeps(s, true);
  }

  lemma TakeEmpties(s: App)
    requires Inv(s) && s.publishing && s.inFlight == Nothing
    ensures var t := OnTake(s);
            && Inv(t) && t.publishing && t.queue == [] && t.failed == s.failed && t.status == s.status
            && t.enqueued == s.enqueued && (t.inFlight.Publishing? <==> s.queue != [])
  {
    TakeKeeps(s);
  }

  /** As long as the publisher runs and the kernel takes what it is given, two publishes
    * empty the backlog: everything enqueued is published, in order. */
  lemma BacklogPublished(events: seq<Event>)
    requires Run(events).publishing
    ensures var s := Run(events);
            var u := Step(Step(Step(s, PublishAnswers(true)), PublisherTakes), PublishAnswers(true));
            && u.published == s.enqueued && u.pending == 0 && u.queue == [] && u.inFlight == Nothing
            && (!s.failed && s.pending > 0 ==> u.status == SavedLocally)
  {
    RunKeeps(events);
    TwoPublishes(Run(events));
  }

  lemma TwoPublishes(s: App)
    requires Inv(s) && s.publishing
    ensures var u := OnPublish(OnTake(OnPublish(s, true)), true);
            && u.published == s.enqueued && u.pending == 0 && u.queue == [] && u.inFlight == Nothing
            && (!s.failed && s.pending > 0 ==> u.status == SavedLocally)
  {
    PublishEmpties(s);
    TakeEmpties(OnPublish(s, true));
    PublishEmpties(OnTake(OnPublish(s, true)));
  }

  /** What the kernel refuses is not published, and the publisher stops. */
  lemma RefusedStops(s: App)
    requires s.publishing && s.inFlight.Publishing?
    ensures var u := Step(s, PublishAnswers(false));
            && u.failed && !u.publishing && u.published == s.published && u.enqueued == s.enqueued
  {
  }

  lemma StoppedNext(events: seq<Event>, e: Event)
    requires !Run(events).publishing
    ensures Run(events + [e]).published == Run(events).published && !Run(events + [e]).publishing
  {
    assert (events + [e])[..|events|] == events;
    StepLeaves(Run(events), e);
  }

  /** Once it has stopped nothing more is published, whatever happens. */
  lemma {:induction false} StoppedStays(before: seq<Event>, after: seq<Event>)
    requires !Run(before).publishing
    ensures Run(before + after).published == Run(before).published && !Run(before + after).publishing
    decreases |after|
  {
    if after == [] {
      assert before + after == before;
    } else {
      StoppedNext(before, after[0]);
      StoppedStays(before + [after[0]], after[1..]);
      assert before + [after[0]] + after[1..] == before + after;
    }
  }

  // ---- The handlers themselves -------------------------------------------

  class Editor {
    const document: MarkdownDocument
    var revision: nat
    var ready: bool
    var failed: bool
    var status: Status
    var composing: bool
    var deferred: Option<Snapshot>
    var completed: Option<ControlState>
    var pending: nat
    var queue: seq<Batch>
    var inFlight: InFlight
    var publishing: bool
    var reading: bool
    var watching: bool
    ghost var enqueued: Batch
    ghost var published: Batch
    ghost var merged: Doc
    ghost var frozen: Doc

    ghost function State(): App
      reads this, document
    {
      App(document.doc, revision, ready, failed, status, composing, deferred, completed, pending,
          queue, inFlight, publishing, reading, watching, enqueued, published, merged, frozen)
    }

    constructor ()
      ensures State() == INIT && fresh(document)
    {
      document := new MarkdownDocument();
      revision, ready, failed, status := 0, false, false, Loading;
      composing, deferred, completed := false, None, None;
      pending, queue, inFlight, publishing := 0, [], Nothing, true;
      reading, watching := true, true;
      enqueued, published, merged, frozen := [], [], EMPTY, EMPTY;
    }

    method ShowProgress(message: Status)
      modifies this`status
      ensures status == if failed then old(status) else message
    {
      if !failed {
        status := message;
      }
    }

    method MarkFailed()
      modifies this`failed, this`status
      ensures State() == Fail(old(State()))
    {
      failed, status := true, Failure;
    }

    method SendBatch(batch: Batch)
      modifies this`pending, this`status, this`queue, this`enqueued
      ensures State() == Send(old(State()), batch)
    {
      pending := pending + 1;
      ShowProgress(SavingLocally);
      queue := queue + [batch];
      enqueued := enqueued + batch;
    }

    method EnqueueResult(changes: Result<Batch, Fault>)
      modifies this`pending, this`status, this`queue, this`enqueued, this`failed
      ensures State() == Enqueue(old(State()), if changes.Ok? then changes.value else [], changes.Ok?)
    {
      if changes.Err? {
        MarkFailed();
      } else if changes.value != [] {
        SendBatch(changes.value);
      }
    }

    /** Merges what loads; answers whether it held the body already. */
    method MergeHistory(bytes: Snapshot) returns (result: Result<bool, Fault>)
      modifies document, this`merged
      ensures State() == MergeBytes(old(State()), bytes)
      ensures result.Err? <==> Unusable(bytes)
      ensures result.Ok? ==> (result.value <==> bytes.History? && bytes.hasBody)
    {
      result := document.MergeSnapshot(bytes);
      merged := Merge(merged, Loads(bytes));
    }

    method AuthorEdit(state: ControlState, added: seq<Elem>) returns (ghost placed: bool)
      requires state.selectionStart < U32 && state.selectionEnd < U32 && FitsText(document.doc, state.value, added)
      modifies document, this`pending, this`status, this`queue, this`enqueued, this`failed
      ensures State() == Author(old(State()), state.value, added, placed)
      ensures Units(state.value) < U32 ==>
                (placed <==> Placeable(Edited(old(document.doc), state.value, added), state))
    {
      var result := document.Input(state, added);
      placed := result.Ok?;
      EnqueueResult(result);
    }

    method HandleRead(rev: nat, bytes: Snapshot)
      requires reading
      modifies this, document
      ensures State() == OnRead(old(State()), rev, bytes).(reading := false)
    {
      var result := MergeHistory(bytes);
      reading := false;
      if result.Err? {
        MarkFailed();
      } else {
        MakeReady(rev, result.value);
      }
    }

    method MakeReady(rev: nat, hasBody: bool)
      modifies this`revision, this`ready, this`pending, this`status, this`queue, this`enqueued
      ensures State() == Readied(old(State()), rev, hasBody)
    {
      revision := rev;
      ready := true;
      if hasBody {
        ShowProgress(SavedLocally);
      } else {
        SendBatch(GENESIS);
      }
    }

    method HandleWatch(rev: nat, bytes: Snapshot)
      requires watching
      modifies this, document
      ensures State() == OnWatch(old(State()), rev, bytes)
    {
      if rev <= revision {
        return;
      }
      revision := rev;
      if composing {
        deferred := Some(bytes);
      } else {
        MergeWatched(bytes);
      }
    }

    method MergeWatched(bytes: Snapshot)
      modifies document, this`merged, this`failed, this`status, this`watching
      ensures State() == if Unusable(bytes) then Fail(MergeBytes(old(State()), bytes)).(watching := false)
                         else MergeBytes(old(State()), bytes)
    {
      var result := MergeHistory(bytes);
      if result.Err? {
        MarkFailed();
        watching := false;
      }
    }

    method HandleCompositionStart()
      modifies this
      ensures State() == old(State()).(composing := true, completed := None, frozen := old(document.doc))
    {
      composing := true;
      completed := None;
      frozen := document.doc;
    }

    method MergeDeferred()
      modifies this, document
      ensures State() == Undefer(old(State()))
    {
      var snapshot := deferred;
      deferred := None;
      if snapshot.Some? {
        var result := MergeHistory(snapshot.value);
        if result.Err? {
          MarkFailed();
        }
      }
    }

    method HandleCompositionEnd(final: Option<ControlState>, added: seq<Elem>) returns (ghost placed: bool)
      requires final.Some? ==> final.value.selectionStart < U32 && final.value.selectionEnd < U32
      requires final.Some? ==> FitsText(document.doc, final.value.value, added)
      modifies this, document
      ensures State() == OnCompositionEnd(old(State()), final, added, placed)
      ensures final.Some? && Units(final.value.value) < U32 ==>
                (placed <==> Placeable(Edited(old(document.doc), final.value.value, added), final.value))
    {
      composing := false;
      completed := final;
      placed := AuthorFinal(final, added);
      MergeDeferred();
    }

    method AuthorFinal(final: Option<ControlState>, added: seq<Elem>) returns (ghost placed: bool)
      requires final.Some? ==> final.value.selectionStart < U32 && final.value.selectionEnd < U32
      requires final.Some? ==> FitsText(document.doc, final.value.value, added)
      modifies document, this`pending, this`status, this`queue, this`enqueued, this`failed
      ensures State() == if final.None? then Fail(old(State()))
                         else Author(old(State()), final.value.value, added, placed)
      ensures final.Some? && Units(final.value.value) < U32 ==>
                (placed <==> Placeable(Edited(old(document.doc), final.value.value, added), final.value))
    {
      placed := false;
      if final.None? {
        MarkFailed();
      } else {
        placed := AuthorEdit(final.value, added);
      }
    }

    method HandleInput(typed: Option<ControlState>, added: seq<Elem>) returns (ghost placed: bool)
      requires typed.Some? ==> typed.value.selectionStart < U32 && typed.value.selectionEnd < U32
      requires typed.Some? ==> FitsText(document.doc, typed.value.value, added)
      modifies this, document
      ensures State() == OnInput(old(State()), typed, added, placed)
      ensures typed.Some? && !typed.value.isComposing && !composing && old(completed) != typed ==>
                (Units(typed.value.value) < U32 ==>
                   (placed <==> Placeable(Edited(old(document.doc), typed.value.value, added), typed.value)))
    {
      placed := false;
      if typed.None? {
        MarkFailed();
      } else if !typed.value.isComposing && !composing {
        var echo := completed == typed;
        completed := None;
        if !echo {
          placed := AuthorEdit(typed.value, added);
        }
      }
    }

    /** Flattens `first` and every batch already queued, without waiting for more. */
    method DrainBacklog(first: Batch) returns (flattened: Batch, coalesced: nat)
      modifies this`queue
      ensures queue == [] && flattened == first + Concat(old(queue)) && coalesced == 1 + |old(queue)|
    {
      coalesced := 1;
      flattened := first;
      while queue != []
        invariant coalesced + |queue| == 1 + |old(queue)|
        invariant flattened + Concat(queue) == first + Concat(old(queue))
        decreases |queue|
      {
        flattened := flattened + queue[0];
        queue := queue[1..];
        coalesced := coalesced + 1;
      }
    }

    /** The publisher's turn: it waits for a batch only when nothing is in flight. */
    method TakeBacklog()
      requires publishing && inFlight.Nothing? && queue != []
      modifies this
      ensures State() == OnTake(old(State()))
    {
      var first := queue[0];
      queue := queue[1..];
      var batch, coalesced := DrainBacklog(first);
      inFlight := Publishing(batch, coalesced);
    }

    method HandlePublished(ok: bool)
      requires publishing && inFlight.Publishing?
      modifies this
      ensures State() == OnPublish(old(State()), ok)
    {
      if !ok {
        MarkFailed();
        publishing := false;
        return;
      }
      var remaining := if pending < inFlight.coalesced then 0 else pending - inFlight.coalesced;
      pending := remaining;
      published := published + inFlight.changes;
      inFlight := Nothing;
      if remaining == 0 {
        ShowProgress(SavedLocally);
      }
    }
  }
}
