/** The visor's sheets, drawer and saves as one machine (visor/src/ui.rs): what the user
  * types, what the kernel answers, and the transitions between them, in any order. */
module Visor {
  import opened Wrappers
  import opened Words
  import opened Draft
  import opened Drawer
  import opened Saving

  datatype Running = Running(id: nat, app: string)

  datatype Stage = AtName | AtHue | AtUser | AtApp | AtReads

  /** A save under way; `sent` are the calls the kernel has accepted, history. */
  datatype Save = Save(was: Sheet, now: Sheet, app: Option<string>, after: Option<Action>,
                       stage: Stage, failed: bool, sent: seq<Call>)

  /** A field's value as the user left it, and the app that ran then. */
  datatype Owned = Owned(value: Option<Value>, app: Option<string>)

  /** What a Save made a glyph from, the app that ran then, and whether the field read as
    * saved when it did: a glyph the user had not touched. */
  datatype Made = Made(from: string, app: Option<string>, untouched: bool)

  /** `typed` is what the user last put in each field, `made` what a Save has made since of
    * a glyph, and `discarded` whether seeding ever met an unsaved edit: all history. */
  datatype Edit = Edit(draft: Sheet, seed: Sheet, save: Option<Save>, typed: map<Field, Owned>,
                       made: map<Field, Made>, discarded: bool)

  datatype Refresh = Refresh(status: Gate, drawer: Gate, session: Option<Running>)

  /** `known` is what the kernel last said. `glyph` takes a string to its first grapheme. */
  datatype Visor = Visor(glyph: string -> string, edit: Edit, known: Sheet, statusKnown: bool,
                         session: Option<Running>, drawer: Drawer, pending: Option<Action>,
                         statusGate: Gate, drawerGate: Gate, refresh: Option<Refresh>,
                         boot: Option<Gate>, touched: bool)

  function Init(glyph: string -> string): Visor {
    Visor(glyph, Edit(EMPTY, EMPTY, None, map[], map[], false), EMPTY, false, None, Closed, None, 0, 0, None,
          Some(0), false)
  }

  datatype Choice = ToSave | ToRevert | ToCancel

  /** What the kernel answers at one stage of a save. */
  datatype Reply = Reply(ok: bool, user: Result<Meta, string>, latest: Result<Sheet, string>)

  datatype Event =
    | Type(field: Field, value: Value)
    | Request(action: Action)
    | Confirm(choice: Choice)
    | SaveBar
    | RevertBar
    | Answer(reply: Reply)
    | RefreshBegins
    | RefreshLands(said: Result<Sheet, string>)
    | SessionOpens(running: Running)
    | SessionEnds
    | Closes
    | ContactsLink
    | SharePrompt
    | Learns(known: Sheet)
    | StatusWritten
    | BootLands(facts: Option<Facts>)

  // ---- The sheet ---------------------------------------------------------

  const GLYPH: string := "glyph"

  function NormalMeta(glyph: string -> string, m: Meta): Meta {
    if GLYPH in m then SetField(m, GLYPH, glyph(m[GLYPH])) else m
  }

  function Normal(glyph: string -> string, s: Sheet): Sheet {
    s.(user := NormalMeta(glyph, s.user), app := NormalMeta(glyph, s.app))
  }

  function Put(s: Sheet, f: Field, v: Value): Sheet {
    match (f, v)
    case (Name, Text(text)) => s.(name := text)
    case (Hue, Angle(hue)) => s.(hue := hue)
    case (User(key), Text(text)) => s.(user := SetField(s.user, key, text))
    case (App(key), Text(text)) => s.(app := SetField(s.app, key, text))
    case _ => s
  }

  /** The hue is a number and every other field a text. */
  predicate Suits(f: Field, v: Value) {
    f.Hue? <==> v.Angle?
  }

  function AppOf(session: Option<Running>): Option<string> {
    if session.Some? then Some(session.value.app) else None
  }

  function Typing(e: Edit, f: Field, v: Value, app: Option<string>): Edit {
    var draft := Put(e.draft, f, v);
    e.(draft := draft, typed := e.typed[f := Owned(Get(draft, f), app)], made := e.made - {f})
  }

  predicate IsGlyph(f: Field) {
    f == User(GLYPH) || f == App(GLYPH)
  }

  function TextOf(v: Option<Value>): string {
    if v.Some? && v.value.Text? then v.value.text else ""
  }

  /** What the sheet shows of the first grapheme of `text`. */
  function Glyphed(glyph: string -> string, text: string): Option<Value> {
    if glyph(text) == "" then None else Some(Text(glyph(text)))
  }

  /** The glyphs a Save makes something else of. */
  function NewlyMade(e: Edit, now: Sheet, app: Option<string>): map<Field, Made> {
    map f | f in {User(GLYPH), App(GLYPH)} && Differs(e.draft, now, f)
      :: Made(TextOf(Get(e.draft, f)), app, !Differs(e.draft, e.seed, f) || (f in e.made && e.made[f].untouched))
  }

  function Beginning(e: Edit, now: Sheet, app: Option<string>, after: Option<Action>): Edit {
    e.(draft := now, save := Some(Save(e.seed, now, app, after, AtName, false, [])),
       made := e.made + NewlyMade(e, now, app))
  }

  function Committing(e: Edit, s: Save, latest: Sheet): Edit {
    e.(draft := Rebased(latest, s.now, e.draft), seed := latest, save := None)
  }

  function Refreshing(e: Edit, news: Sheet): Edit {
    e.(draft := Rebased(news, e.seed, e.draft), seed := news)
  }

  function Seeding(e: Edit, next: Sheet): Edit {
    e.(draft := next, seed := next, discarded := e.discarded || e.draft != e.seed)
  }

  // ---- The handlers ------------------------------------------------------

  function SeedDraft(v: Visor): Visor {
    v.(edit := Seeding(v.edit, Normal(v.glyph, v.known)))
  }

  function Apply(v: Visor, action: Action): Visor {
    var next := Reduce(v.drawer, action, v.session.None?);
    var u := v.(drawerGate := Bump(v.drawerGate), drawer := next, touched := true);
    if next != v.drawer && next in {Open(Settings), Open(AppInfo)} then SeedDraft(u) else u
  }

  predicate Clean(v: Visor) {
    v.edit.draft == v.edit.seed
  }

  predicate IsSaving(v: Visor) {
    v.edit.save.Some?
  }

  function OnRequest(v: Visor, action: Action): Visor {
    if v.pending.Some? || IsSaving(v) then v
    else if !Clean(v) then v.(pending := Some(action))
    else Apply(v, action)
  }

  function SaveNow(v: Visor, after: Option<Action>): Visor {
    if IsSaving(v) then v
    else
      v.(statusGate := Bump(v.statusGate),
         edit := Beginning(v.edit, Normal(v.glyph, v.edit.draft), AppOf(v.session), after))
  }

  function RevertNow(v: Visor, after: Option<Action>): Visor {
    if IsSaving(v) then v
    else
      var u := v.(edit := v.edit.(draft := v.edit.seed));
      if after.Some? then Apply(u, after.value) else u
  }

  function OnConfirm(v: Visor, choice: Choice): Visor {
    if v.pending.None? then v
    else
      var u := v.(pending := None);
      match choice
      case ToSave => SaveNow(u, v.pending)
      case ToRevert => RevertNow(u, v.pending)
      case ToCancel => u
  }

  function NextStage(stage: Stage): Stage {
    match stage
    case AtName => AtHue
    case AtHue => AtUser
    case AtUser => AtApp
    case _ => AtReads
  }

  /** The call a stage makes: none where nothing changed. */
  function Tried(s: Save): seq<Call> {
    match s.stage
    case AtName => NameCalls(s.was, s.now)
    case AtHue => HueCalls(s.was, s.now)
    case AtUser => UserCalls(s.was, s.now)
    case AtApp => AppCalls(s.was, s.now, s.app)
    case AtReads => []
  }

  /** The user's map is read back once it is patched, and that can fail too. */
  predicate Went(s: Save, r: Reply) {
    Tried(s) == [] || (r.ok && (s.stage == AtUser ==> r.user.Ok?))
  }

  function Progress(s: Save, r: Reply): Save {
    s.(stage := NextStage(s.stage), failed := s.failed || !Went(s, r),
       sent := if Went(s, r) then s.sent + Tried(s) else s.sent)
  }

  /** What the strip shows of a call that went through. */
  function Told(v: Visor, s: Save, r: Reply): Sheet {
    if Tried(s) == [] || !Went(s, r) then v.known
    else
      match s.stage
      case AtName => if v.statusKnown then v.known.(name := s.now.name) else v.known
      case AtHue => if v.statusKnown then v.known.(hue := s.now.hue) else v.known
      case AtUser => v.known.(user := if r.user.Ok? then r.user.value else v.known.user)
      case _ => v.known
  }

  function Committed(v: Visor, s: Save, news: Sheet): Visor {
    var latest := if s.app.None? then news.(app := map[]) else news;
    v.(edit := Committing(v.edit, s, latest), known := latest, statusKnown := true,
       statusGate := Bump(v.statusGate))
  }

  /** What waited on the save happens if the sheet is clean. */
  function Commit(v: Visor, s: Save, news: Sheet): Visor {
    var u := Committed(v, s, news);
    if s.after.Some? && Clean(u) then Apply(u, s.after.value) else u
  }

  function OnReads(v: Visor, s: Save, latest: Result<Sheet, string>): Visor {
    if s.failed || latest.Err? then v.(edit := v.edit.(save := None)) else Commit(v, s, latest.value)
  }

  /** One stage of the save ends. */
  function OnAnswer(v: Visor, r: Reply): Visor {
    if v.edit.save.None? then v
    else
      var s := v.edit.save.value;
      if s.stage == AtReads then OnReads(v, s, r.latest)
      else v.(known := Told(v, s, r), edit := v.edit.(save := Some(Progress(s, r))))
  }

  function OnRefreshBegins(v: Visor): Visor {
    if v.refresh.Some? then v
    else v.(refresh := Some(Refresh(v.statusGate, v.drawerGate, v.session)))
  }

  predicate StillCurrent(v: Visor) {
    v.refresh == Some(Refresh(v.statusGate, v.drawerGate, v.session))
  }

  /** A refresh overtaken by a write, a transition or a session is read again. */
  function OnRefreshLands(v: Visor, news: Result<Sheet, string>): Visor {
    if v.refresh.None? then v
    else if !StillCurrent(v) then v.(refresh := Some(Refresh(v.statusGate, v.drawerGate, v.session)))
    else if news.Err? then v.(refresh := None)
    else
      var said := if v.session.None? then news.value.(app := map[]) else news.value;
      v.(refresh := None, known := said, statusKnown := true,
         edit := Refreshing(v.edit, Normal(v.glyph, said)))
  }

  function OnSessionEnds(v: Visor): Visor {
    Apply(v.(session := None, known := v.known.(app := map[])), Close)
  }

  function OnBootLands(v: Visor, facts: Option<Facts>): Visor {
    if v.boot.None? then v
    else
      var u := v.(boot := None);
      if v.boot != Some(v.drawerGate) || facts.None? then u
      else u.(drawer := BootShows(facts.value), touched := true)
  }

  function Step(v: Visor, e: Event): Visor {
    match e
    case Type(f, value) => if Suits(f, value) then v.(edit := Typing(v.edit, f, value, AppOf(v.session))) else v
    case Request(action) => OnRequest(v, action)
    case Confirm(choice) => OnConfirm(v, choice)
    case SaveBar => SaveNow(v, None)
    case RevertBar => RevertNow(v, None)
    case Answer(reply) => OnAnswer(v, reply)
    case RefreshBegins => OnRefreshBegins(v)
    case RefreshLands(news) => OnRefreshLands(v, news)
    case SessionOpens(running) => v.(session := Some(running))
    case SessionEnds => OnSessionEnds(v)
    case Closes => Apply(v, Close)
    case ContactsLink => Apply(v, Show(Contacts))
    case SharePrompt => if v.pending.None? then Apply(v, Show(Sharing)) else v
    case Learns(known) => v.(known := known, statusKnown := true)
    case StatusWritten => v.(statusGate := Bump(v.statusGate))
    case BootLands(facts) => OnBootLands(v, facts)
  }

  function Run(glyph: string -> string, events: seq<Event>): Visor
    decreases |events|, glyph
  {
    if events == [] then Init(glyph) else Step(Run(glyph, events[..|events| - 1]), events[|events| - 1])
  }

  // ---- What the events say was typed -------------------------------------

  /** What a field shows of what is typed in it: an emptied label is no label. */
  function ShownAs(f: Field, v: Value): Option<Value> {
    if (f.User? || f.App?) && v == Text("") then None else Some(v)
  }

  predicate Types(e: Event, f: Field) {
    e.Type? && e.field == f && Suits(f, e.value)
  }

  /** The app that runs. */
  function RunningApp(events: seq<Event>): Option<string>
    decreases |events|
  {
    if events == [] then None
    else
      match events[|events| - 1]
      case SessionOpens(running) => Some(running.app)
      case SessionEnds => None
      case _ => RunningApp(events[..|events| - 1])
  }

  /** What was last typed in `f`, and the app that ran then. */
  function LastTyped(events: seq<Event>, f: Field): Option<Owned>
    decreases |events|
  {
    if events == [] then None
    else
      var front, e := events[..|events| - 1], events[|events| - 1];
      if Types(e, f) then Some(Owned(ShownAs(f, e.value), RunningApp(front))) else LastTyped(front, f)
  }

  /** Typing shows in its field what was typed, and changes no other. */
  lemma TypingShows(s: Sheet, f: Field, v: Value, g: Field)
    requires Suits(f, v)
    ensures Get(Put(s, f, v), g) == if g == f then ShownAs(f, v) else Get(s, g)
  {
    if g != f { PutField(s, f, v, g); }
  }

  lemma AnswerLeavesTyped(v: Visor, r: Reply)
    ensures OnAnswer(v, r).edit.typed == v.edit.typed && OnAnswer(v, r).session == v.session
  {
    if IsSaving(v) {
      if Commits(v, r) { AnswerCommits(v, r); } else { AnswerAdvances(v, r); }
    }
  }

  lemma StepTyped(v: Visor, e: Event, f: Field)
    ensures var u := Step(v, e);
            && (if Types(e, f) then
                  && f in u.edit.typed && u.edit.typed[f] == Owned(ShownAs(f, e.value), AppOf(v.session))
                  && Get(u.edit.draft, f) == ShownAs(f, e.value)
                else (f in u.edit.typed <==> f in v.edit.typed)
                     && (f in u.edit.typed ==> u.edit.typed[f] == v.edit.typed[f]))
            && u.session == if e.SessionOpens? then Some(e.running) else if e.SessionEnds? then None else v.session
  {
    match e
    case Type(g, value) => if Suits(g, value) { TypingShows(v.edit.draft, g, value, f); }
    case Answer(reply) => AnswerLeavesTyped(v, reply);
    case Request(action) => ApplyEdits(v, action);
    case Confirm(choice) => ConfirmLeavesTyped(v, choice);
    case SaveBar =>
    case RevertBar =>
    case RefreshBegins =>
    case RefreshLands(_) =>
    case SessionOpens(_) =>
    case SessionEnds => ApplyEdits(v.(session := None, known := v.known.(app := map[])), Close);
    case Closes => ApplyEdits(v, Close);
    case ContactsLink => ApplyEdits(v, Show(Contacts));
    case SharePrompt => ApplyEdits(v, Show(Sharing));
    case Learns(_) =>
    case StatusWritten =>
    case BootLands(_) =>
  }

  lemma ConfirmLeavesTyped(v: Visor, choice: Choice)
    ensures OnConfirm(v, choice).edit.typed == v.edit.typed && OnConfirm(v, choice).session == v.session
  {
    if v.pending.Some? { ApplyEdits(v.(pending := None, edit := v.edit.(draft := v.edit.seed)), v.pending.value); }
  }

  /** In every run: the app thought to run is the one that does, and what a field is thought
    * to have been typed is what was typed there last. */
  lemma {:induction false} TypedIsLast(glyph: string -> string, events: seq<Event>, f: Field)
    ensures var v := Run(glyph, events);
            && AppOf(v.session) == RunningApp(events)
            && LastTyped(events, f) == if f in v.edit.typed then Some(v.edit.typed[f]) else None
    decreases |events|
  {
    if events != [] {
      TypedIsLast(glyph, events[..|events| - 1], f);
      StepTyped(Run(glyph, events[..|events| - 1]), events[|events| - 1], f);
    }
  }

  // ---- What is unsaved is what the user typed ----------------------------

  /** A label, where that matters, is `app`'s if `was` ran when it was left. */
  predicate AtHome(f: Field, was: Option<string>, home: bool, app: Option<string>) {
    home && f.App? ==> was == app
  }

  ghost predicate TypedAtHome(e: Edit, f: Field, home: bool, app: Option<string>) {
    f in e.typed && AtHome(f, e.typed[f].app, home, app)
  }

  /** Field `f` shows what the user last typed, or the glyph a Save has made since of that
    * or of a glyph nobody touched; for a label, all while `app` ran. */
  ghost predicate Owns(glyph: string -> string, e: Edit, f: Field, home: bool, app: Option<string>) {
    if f in e.made then
      && IsGlyph(f) && Get(e.draft, f) == Glyphed(glyph, e.made[f].from) && AtHome(f, e.made[f].app, home, app)
      && (e.made[f].untouched || TypedAtHome(e, f, home, app))
    else TypedAtHome(e, f, home, app) && e.typed[f].value == Get(e.draft, f)
  }

  ghost predicate Unsaved(glyph: string -> string, e: Edit, than: Sheet, home: bool, app: Option<string>) {
    forall f: Field | Differs(e.draft, than, f) :: Owns(glyph, e, f, home, app)
  }

  /** Whatever differs from the seed, or from what a save under way took, is owned. */
  ghost predicate Typed(glyph: string -> string, e: Edit, home: bool, app: Option<string>) {
    && Unsaved(glyph, e, e.seed, home, app)
    && (e.save.Some? ==> e.seed == e.save.value.was && Unsaved(glyph, e, e.save.value.now, home, app))
  }

  lemma PutField(s: Sheet, f: Field, v: Value, g: Field)
    requires g != f
    ensures Get(Put(s, f, v), g) == Get(s, g)
  {
  }

  lemma TypingKeeps(glyph: string -> string, e: Edit, f: Field, v: Value, home: bool, app: Option<string>)
    requires Typed(glyph, e, home, app)
    ensures Typed(glyph, Typing(e, f, v, app), home, app)
  {
    var u := Typing(e, f, v, app);
    forall g: Field | Differs(u.draft, u.seed, g) || (u.save.Some? && Differs(u.draft, u.save.value.now, g))
      ensures Owns(glyph, u, g, home, app)
    {
      if g != f {
        PutField(e.draft, f, v, g);
        assert Owns(glyph, e, g, home, app);
      }
    }
  }

  /** Normalising changes glyphs alone, each to its first grapheme. */
  lemma NormalField(glyph: string -> string, s: Sheet, f: Field)
    ensures Differs(Normal(glyph, s), s, f) ==>
              IsGlyph(f) && Get(s, f).Some? && Get(Normal(glyph, s), f) == Glyphed(glyph, TextOf(Get(s, f)))
  {
  }

  lemma BeginningKeeps(glyph: string -> string, e: Edit, home: bool, app: Option<string>, after: Option<Action>)
    requires Typed(glyph, e, home, app) && e.save.None?
    ensures Typed(glyph, Beginning(e, Normal(glyph, e.draft), app, after), home, app)
  {
    var now := Normal(glyph, e.draft);
    var u := Beginning(e, now, app, after);
    forall f: Field | Differs(now, e.seed, f) ensures Owns(glyph, u, f, home, app) {
      NormalField(glyph, e.draft, f);
      if Differs(e.draft, e.seed, f) {
        assert Owns(glyph, e, f, home, app);
      }
    }
  }

  lemma CommittingKeeps(glyph: string -> string, e: Edit, latest: Sheet, home: bool, app: Option<string>)
    requires Typed(glyph, e, home, app) && e.save.Some?
    ensures Typed(glyph, Committing(e, e.save.value, latest), home, app)
  {
    forall f: Field | Differs(Rebased(latest, e.save.value.now, e.draft), latest, f)
      ensures Owns(glyph, Committing(e, e.save.value, latest), f, home, app)
    {
      RebasedField(latest, e.save.value.now, e.draft, f);
      assert Owns(glyph, e, f, home, app);
    }
  }

  lemma RefreshingKeeps(glyph: string -> string, e: Edit, news: Sheet, home: bool, app: Option<string>)
    requires Typed(glyph, e, home, app) && e.save.None?
    ensures Typed(glyph, Refreshing(e, news), home, app)
  {
    forall f: Field | Differs(Rebased(news, e.seed, e.draft), news, f)
      ensures Owns(glyph, Refreshing(e, news), f, home, app)
    {
      RebasedField(news, e.seed, e.draft, f);
      assert Owns(glyph, e, f, home, app);
    }
  }

  /** A refresh is applied while a save is out. */
  predicate RefreshInSave(v: Visor, e: Event) {
    e.RefreshLands? && IsSaving(v) && StillCurrent(v) && e.said.Ok?
  }

  /** The running app changes under a label that is not saved. */
  predicate LeavesLabels(v: Visor, e: Event) {
    && AppOf(Step(v, e).session) != AppOf(v.session)
    && (v.edit.draft.app != v.edit.seed.app || (IsSaving(v) && v.edit.draft.app != v.edit.save.value.now.app))
  }

  predicate Commits(v: Visor, r: Reply) {
    IsSaving(v) && v.edit.save.value.stage == AtReads && !v.edit.save.value.failed && r.latest.Ok?
  }

  /** Where no app runs there are no labels. */
  function Latest(s: Save, r: Reply): Sheet
    requires r.latest.Ok?
  {
    if s.app.None? then r.latest.value.(app := map[]) else r.latest.value
  }

  /** Short of its end, a save touches nothing of the sheet but its own progress, and
    * nothing of the drawer. */
  lemma AnswerAdvances(v: Visor, r: Reply)
    requires IsSaving(v) && !Commits(v, r)
    ensures var u := OnAnswer(v, r);
            && u.edit.draft == v.edit.draft && u.edit.seed == v.edit.seed
            && u.edit.typed == v.edit.typed && u.edit.made == v.edit.made && u.edit.discarded == v.edit.discarded
            && u.session == v.session && u.drawer == v.drawer && u.touched == v.touched
  {
  }

  lemma AnswerHolds(v: Visor, r: Reply)
    requires IsSaving(v) && OnAnswer(v, r).edit.save.Some?
    ensures var s, t := v.edit.save.value, OnAnswer(v, r).edit.save.value;
            t.was == s.was && t.now == s.now && t.app == s.app && t.after == s.after
  {
    if Commits(v, r) { AnswerCommits(v, r); }
  }

  /** A transition leaves the sheet alone, or seeds it anew from what is known. */
  lemma ApplyEdits(v: Visor, action: Action)
    ensures var u := Apply(v, action);
            && u.session == v.session && u.known == v.known && u.glyph == v.glyph
            && (u.edit == v.edit || u.edit == Seeding(v.edit, Normal(v.glyph, v.known)))
            && (action !in {Show(Settings), Show(AppInfo)} ==> u.edit == v.edit)
  {
  }

  /** At its end it commits; and a transition that waited on it happens if the sheet is
    * then clean, which may seed it again. */
  lemma AnswerCommits(v: Visor, r: Reply)
    requires Commits(v, r)
    ensures var s := v.edit.save.value; var u := OnAnswer(v, r); var c := Committing(v.edit, s, Latest(s, r));
            && u.session == v.session && u.known == Latest(s, r)
            && u.edit.typed == v.edit.typed && u.edit.made == v.edit.made && u.edit.save.None?
            && (u.edit == c || (s.after.Some? && c.draft == c.seed
                                && u.edit.draft == u.edit.seed == Normal(v.glyph, Latest(s, r))))
  {
    var s := v.edit.save.value;
    var u := Committed(v, s, r.latest.value);
    assert u.edit == Committing(v.edit, s, Latest(s, r));
    if s.after.Some? { ApplyEdits(u, s.after.value); }
  }

  lemma AnswerKeeps(v: Visor, r: Reply, home: bool)
    requires Typed(v.glyph, v.edit, home, AppOf(v.session)) && IsSaving(v)
    ensures Typed(v.glyph, OnAnswer(v, r).edit, home, AppOf(v.session)) && OnAnswer(v, r).session == v.session
  {
    if Commits(v, r) {
      AnswerCommits(v, r);
      CommittingKeeps(v.glyph, v.edit, Latest(v.edit.save.value, r), home, AppOf(v.session));
    } else {
      AnswerAdvances(v, r);
      if IsSaving(OnAnswer(v, r)) {
        AnswerHolds(v, r);
      }
    }
  }

  /** Labels left unsaved are the only thing a change of app can make another's. */
  lemma SessionChangeExactlyWhen(glyph: string -> string, e: Edit, app: Option<string>, other: Option<string>)
    requires Typed(glyph, e, true, app) && app != other
    ensures Typed(glyph, e, true, other)
       <==> e.draft.app == e.seed.app && (e.save.Some? ==> e.draft.app == e.save.value.now.app)
  {
    if Typed(glyph, e, true, other) {
      NoLabelUnsaved(glyph, e, e.seed, app, other);
      if e.save.Some? { NoLabelUnsaved(glyph, e, e.save.value.now, app, other); }
    } else {
      SessionChangeKeeps(glyph, e, false, app, other);
    }
  }

  /** And those are what another app's Save then takes of its predecessor's labels: just
    * the ones left unsaved. */
  lemma LabelMissentExactlyWhen(v: Visor, b: Running, key: string)
    requires Typed(v.glyph, v.edit, true, AppOf(v.session)) && !IsSaving(v)
    requires AppOf(v.session) != Some(b.app) && key != GLYPH
    ensures IsSaving(Step(Step(v, SessionOpens(b)), SaveBar))
    ensures var e := Step(Step(v, SessionOpens(b)), SaveBar).edit; var s := e.save.value;
            && s.app == Some(b.app)
            && (Changed(s.was.app, s.now.app, key) && App(key) in e.typed && e.typed[App(key)].app != Some(b.app) <==>
                  Differs(v.edit.draft, v.edit.seed, App(key)))
  {
    NormalField(v.glyph, v.edit.draft, App(key));
    if Differs(v.edit.draft, v.edit.seed, App(key)) {
      assert Owns(v.glyph, v.edit, App(key), true, AppOf(v.session));
    }
  }

  lemma NoLabelUnsaved(glyph: string -> string, e: Edit, than: Sheet, app: Option<string>, other: Option<string>)
    requires Unsaved(glyph, e, than, true, app) && Unsaved(glyph, e, than, true, other) && app != other
    ensures e.draft.app == than.app
  {
    forall key: string ensures Lookup(e.draft.app, key) == Lookup(than.app, key) {
      if Differs(e.draft, than, App(key)) {
        assert Owns(glyph, e, App(key), true, app);
        assert Owns(glyph, e, App(key), true, other);
      }
    }
    SameAnswers(e.draft.app, than.app);
  }

  lemma SessionChangeKeeps(glyph: string -> string, e: Edit, home: bool, app: Option<string>, other: Option<string>)
    requires Typed(glyph, e, home, app)
    requires home && app != other ==> e.draft.app == e.seed.app && (e.save.Some? ==> e.draft.app == e.save.value.now.app)
    ensures Typed(glyph, e, home, other)
  {
    forall f: Field | Differs(e.draft, e.seed, f) || (e.save.Some? && Differs(e.draft, e.save.value.now, f))
      ensures Owns(glyph, e, f, home, other)
    {
      assert Owns(glyph, e, f, home, app);
    }
  }

  lemma SavePressedKeeps(v: Visor, after: Option<Action>, home: bool)
    requires Typed(v.glyph, v.edit, home, AppOf(v.session))
    ensures Typed(v.glyph, SaveNow(v, after).edit, home, AppOf(v.session)) && SaveNow(v, after).session == v.session
  {
    if !IsSaving(v) { BeginningKeeps(v.glyph, v.edit, home, AppOf(v.session), after); }
  }

  lemma RevertKeeps(v: Visor, after: Option<Action>, home: bool)
    requires Typed(v.glyph, v.edit, home, AppOf(v.session))
    ensures Typed(v.glyph, RevertNow(v, after).edit, home, AppOf(v.session)) && RevertNow(v, after).session == v.session
  {
    if !IsSaving(v) && after.Some? { ApplyEdits(v.(edit := v.edit.(draft := v.edit.seed)), after.value); }
  }

  lemma RequestKeeps(v: Visor, action: Action, home: bool)
    requires Typed(v.glyph, v.edit, home, AppOf(v.session))
    ensures Typed(v.glyph, OnRequest(v, action).edit, home, AppOf(v.session)) && OnRequest(v, action).session == v.session
  {
    ApplyEdits(v, action);
  }

  lemma ConfirmKeeps(v: Visor, choice: Choice, home: bool)
    requires Typed(v.glyph, v.edit, home, AppOf(v.session))
    ensures Typed(v.glyph, OnConfirm(v, choice).edit, home, AppOf(v.session)) && OnConfirm(v, choice).session == v.session
  {
    SavePressedKeeps(v.(pending := None), v.pending, home);
    RevertKeeps(v.(pending := None), v.pending, home);
  }

  lemma ApplyKeeps(v: Visor, action: Action, home: bool)
    requires Typed(v.glyph, v.edit, home, AppOf(v.session)) && action !in {Show(Settings), Show(AppInfo)}
    ensures Typed(v.glyph, Apply(v, action).edit, home, AppOf(v.session)) && Apply(v, action).session == v.session
  {
    ApplyEdits(v, action);
  }

  lemma RefreshKeeps(v: Visor, said: Result<Sheet, string>, home: bool)
    requires Typed(v.glyph, v.edit, home, AppOf(v.session)) && !RefreshInSave(v, RefreshLands(said))
    ensures Typed(v.glyph, OnRefreshLands(v, said).edit, home, AppOf(v.session))
    ensures OnRefreshLands(v, said).session == v.session
  {
    if StillCurrent(v) && said.Ok? {
      var news := if v.session.None? then said.value.(app := map[]) else said.value;
      RefreshingKeeps(v.glyph, v.edit, Normal(v.glyph, news), home, AppOf(v.session));
    }
  }

  lemma StepKeepsTyped(v: Visor, e: Event, home: bool)
    requires Typed(v.glyph, v.edit, home, AppOf(v.session)) && !RefreshInSave(v, e) && (home ==> !LeavesLabels(v, e))
    ensures Typed(v.glyph, Step(v, e).edit, home, AppOf(Step(v, e).session))
  {
    var app := AppOf(v.session);
    match e
    case Type(f, value) => if Suits(f, value) { TypingKeeps(v.glyph, v.edit, f, value, home, app); }
    case Request(action) => RequestKeeps(v, action, home);
    case Confirm(choice) => ConfirmKeeps(v, choice, home);
    case SaveBar => SavePressedKeeps(v, None, home);
    case RevertBar => RevertKeeps(v, None, home);
    case Answer(reply) => if IsSaving(v) { AnswerKeeps(v, reply, home); }
    case RefreshLands(said) => RefreshKeeps(v, said, home);
    case SessionOpens(running) => SessionChangeKeeps(v.glyph, v.edit, home, app, Some(running.app));
    case SessionEnds =>
      SessionChangeKeeps(v.glyph, v.edit, home, app, None);
      ApplyKeeps(v.(session := None, known := v.known.(app := map[])), Close, home);
    case RefreshBegins =>
    case Closes => ApplyKeeps(v, Close, home);
    case ContactsLink => ApplyKeeps(v, Show(Contacts), home);
    case SharePrompt => ApplyKeeps(v, Show(Sharing), home);
    case Learns(_) =>
    case StatusWritten =>
    case BootLands(_) =>
  }

  lemma StepKeepsGlyph(v: Visor, e: Event)
    ensures Step(v, e).glyph == v.glyph
  {
  }

  ghost predicate NoRefreshInSaves(glyph: string -> string, events: seq<Event>) {
    forall i | 0 <= i < |events| :: !RefreshInSave(Run(glyph, events[..i]), events[i])
  }

  ghost predicate LabelsSavedInTime(glyph: string -> string, events: seq<Event>) {
    forall i | 0 <= i < |events| :: !LeavesLabels(Run(glyph, events[..i]), events[i])
  }

  lemma {:induction false} RunKeepsTyped(glyph: string -> string, events: seq<Event>, home: bool)
    requires NoRefreshInSaves(glyph, events) && (home ==> LabelsSavedInTime(glyph, events))
    ensures Run(glyph, events).glyph == glyph
    ensures Typed(glyph, Run(glyph, events).edit, home, AppOf(Run(glyph, events).session))
    decreases |events|
  {
    if events != [] {
      var front := events[..|events| - 1];
      assert forall i | 0 <= i < |front| :: front[..i] == events[..i];
      RunKeepsTyped(glyph, front, home);
      StepKeepsTyped(Run(glyph, front), events[|events| - 1], home);
      StepKeepsGlyph(Run(glyph, front), events[|events| - 1]);
    }
  }

  /** In every run of typing, refreshes, saves and transitions, with no refresh applied
    * inside a save: a field that reads as unsaved reads as the user last left it; or it is
    * a glyph that has not been typed in since a Save, and shows the first grapheme of what
    * it showed when Save was pressed, which the user had typed unless it read as saved. */
  lemma DirtyIsTyped(glyph: string -> string, events: seq<Event>, f: Field)
    requires NoRefreshInSaves(glyph, events)
    requires Differs(Run(glyph, events).edit.draft, Run(glyph, events).edit.seed, f)
    ensures var e := Run(glyph, events).edit; var last := LastTyped(events, f);
            || (f !in e.made && last.Some? && last.value.value == Get(e.draft, f))
            || (f in e.made && IsGlyph(f) && Get(e.draft, f) == Glyphed(glyph, e.made[f].from)
                && (e.made[f].untouched || last.Some?))
  {
    RunKeepsTyped(glyph, events, false);
    TypedIsLast(glyph, events, f);
    assert Owns(glyph, Run(glyph, events).edit, f, false, AppOf(Run(glyph, events).session));
  }

  /** Save was pressed at `k`, and the field has not been typed in since. */
  ghost predicate Pressed(glyph: string -> string, events: seq<Event>, k: nat, f: Field) {
    && k < |events| && Begins(Run(glyph, events[..k]), events[k])
    && forall i | k <= i < |events| :: !Types(events[i], f)
  }

  /** What a glyph is taken to have been made from is what it showed when Save was pressed,
    * not having been typed in since; and if it is taken for untouched it read as saved
    * when Save was pressed then or before, not having been typed in since either. */
  ghost predicate MadeAtSave(glyph: string -> string, events: seq<Event>, f: Field, made: Made) {
    && (exists k: nat :: Pressed(glyph, events, k, f)
                         && made.from == TextOf(Get(Run(glyph, events[..k]).edit.draft, f))
                         && made.app == RunningApp(events[..k]))
    && (made.untouched ==>
          exists k: nat :: Pressed(glyph, events, k, f)
                           && !Differs(Run(glyph, events[..k]).edit.draft, Run(glyph, events[..k]).edit.seed, f))
  }

  lemma StepMade(v: Visor, e: Event, f: Field)
    ensures var u := Step(v, e);
            && (f in u.edit.made && !Begins(v, e) ==>
                  f in v.edit.made && u.edit.made[f] == v.edit.made[f] && !Types(e, f))
            && (f in u.edit.made && Begins(v, e) ==>
                  || (f in v.edit.made && u.edit.made[f] == v.edit.made[f])
                  || (&& u.edit.made[f].from == TextOf(Get(v.edit.draft, f))
                      && u.edit.made[f].app == AppOf(v.session)
                      && (u.edit.made[f].untouched ==>
                            !Differs(v.edit.draft, v.edit.seed, f) || (f in v.edit.made && v.edit.made[f].untouched))))
  {
    match e
    case Answer(reply) => AnswerLeavesMade(v, reply);
    case Type(_, _) =>
    case Request(_) =>
    case Confirm(_) =>
    case SaveBar =>
    case RevertBar =>
    case RefreshBegins =>
    case RefreshLands(_) =>
    case SessionOpens(_) =>
    case SessionEnds =>
    case Closes =>
    case ContactsLink =>
    case SharePrompt =>
    case Learns(_) =>
    case StatusWritten =>
    case BootLands(_) =>
  }

  lemma AnswerLeavesMade(v: Visor, r: Reply)
    ensures OnAnswer(v, r).edit.made == v.edit.made
  {
    if IsSaving(v) {
      if Commits(v, r) { AnswerCommits(v, r); } else { AnswerAdvances(v, r); }
    }
  }

  lemma PressedStill(glyph: string -> string, front: seq<Event>, e: Event, k: nat, f: Field)
    requires Pressed(glyph, front, k, f) && !Types(e, f)
    ensures Pressed(glyph, front + [e], k, f) && (front + [e])[..k] == front[..k]
  {
    var events := front + [e];
    assert events[..k] == front[..k] && events[k] == front[k];
    forall i | k <= i < |events| ensures !Types(events[i], f) {
      if i < |front| { assert events[i] == front[i]; }
    }
  }

  lemma StillMade(glyph: string -> string, front: seq<Event>, e: Event, f: Field, made: Made)
    requires MadeAtSave(glyph, front, f, made) && !Types(e, f)
    ensures MadeAtSave(glyph, front + [e], f, made)
  {
    var k: nat :| && Pressed(glyph, front, k, f) && made.from == TextOf(Get(Run(glyph, front[..k]).edit.draft, f))
             && made.app == RunningApp(front[..k]);
    PressedStill(glyph, front, e, k, f);
    if made.untouched { StillUntouched(glyph, front, e, f); }
  }

  lemma StillUntouched(glyph: string -> string, front: seq<Event>, e: Event, f: Field)
    requires exists k: nat :: Pressed(glyph, front, k, f)
                              && !Differs(Run(glyph, front[..k]).edit.draft, Run(glyph, front[..k]).edit.seed, f)
    requires !Types(e, f)
    ensures var events := front + [e];
            exists k: nat :: Pressed(glyph, events, k, f)
                             && !Differs(Run(glyph, events[..k]).edit.draft, Run(glyph, events[..k]).edit.seed, f)
  {
    var k: nat :| && Pressed(glyph, front, k, f)
             && !Differs(Run(glyph, front[..k]).edit.draft, Run(glyph, front[..k]).edit.seed, f);
    PressedStill(glyph, front, e, k, f);
  }

  lemma MadeNow(glyph: string -> string, front: seq<Event>, e: Event, f: Field, made: Made)
    requires Begins(Run(glyph, front), e)
    requires made.from == TextOf(Get(Run(glyph, front).edit.draft, f)) && made.app == RunningApp(front)
    requires var d := Run(glyph, front).edit;
             made.untouched ==> !Differs(d.draft, d.seed, f) || (f in d.made && d.made[f].untouched)
    requires f in Run(glyph, front).edit.made ==> MadeAtSave(glyph, front, f, Run(glyph, front).edit.made[f])
    ensures MadeAtSave(glyph, front + [e], f, made)
  {
    var events := front + [e];
    assert events[..|front|] == front;
    assert Pressed(glyph, events, |front|, f);
    var d := Run(glyph, front).edit;
    if made.untouched && Differs(d.draft, d.seed, f) { StillUntouched(glyph, front, e, f); }
  }

  /** In every run, what is remembered of a glyph a Save made is so. */
  lemma {:induction false} MadeIsTrue(glyph: string -> string, events: seq<Event>, f: Field)
    requires f in Run(glyph, events).edit.made
    ensures MadeAtSave(glyph, events, f, Run(glyph, events).edit.made[f])
    decreases |events|
  {
    if events != [] {
      var front, e := events[..|events| - 1], events[|events| - 1];
      var v, u := Run(glyph, front), Run(glyph, events);
      assert events == front + [e];
      if f in v.edit.made { MadeIsTrue(glyph, front, f); }
      StepMade(v, e, f);
      if f in v.edit.made && u.edit.made[f] == v.edit.made[f] {
        StillMade(glyph, front, e, f, u.edit.made[f]);
      } else {
        TypedIsLast(glyph, front, f);
        MadeNow(glyph, front, e, f, u.edit.made[f]);
      }
    }
  }

  /** A Save takes a field that reads as saved for a change exactly when it is a glyph that
    * is not its own first grapheme. */
  lemma UntouchedSentExactlyWhen(v: Visor, after: Option<Action>, f: Field)
    requires !IsSaving(v) && !Differs(v.edit.draft, v.edit.seed, f)
    ensures IsSaving(SaveNow(v, after))
    ensures var s := SaveNow(v, after).edit.save.value; var raw := TextOf(Get(v.edit.seed, f));
            && (Differs(s.was, s.now, f) <==>
                  IsGlyph(f) && Get(v.edit.seed, f).Some? && (v.glyph(raw) != raw || raw == ""))
            && (f == User(GLYPH) ==> (GLYPH in ChangesOf(s.was.user, s.now.user) <==> Differs(s.was, s.now, f)))
            && (f == App(GLYPH) ==> (GLYPH in ChangesOf(s.was.app, s.now.app) <==> Differs(s.was, s.now, f)))
  {
    var s := SaveNow(v, after).edit.save.value;
    NormalField(v.glyph, v.edit.draft, f);
  }

  /** And it says so: the field is then one a Save made, untouched. */
  lemma UntouchedIsMade(v: Visor, after: Option<Action>, f: Field)
    requires !IsSaving(v) && !Differs(v.edit.draft, v.edit.seed, f)
    requires Differs(SaveNow(v, after).edit.draft, v.edit.seed, f)
    ensures var u := SaveNow(v, after).edit; f in u.made && u.made[f].untouched
  {
    NormalField(v.glyph, v.edit.draft, f);
  }

  // ---- A refresh inside a save -------------------------------------------

  /** What becomes of a field that read as saved: with a refresh applied inside a save it
    * reads as unsaved after it exactly when the refresh brought neither what the save had
    * taken nor what the kernel held at the end. */
  lemma StaleExactlyWhen(e: Edit, news: Sheet, latest: Sheet, f: Field)
    requires e.save.Some? && !Differs(e.draft, e.seed, f)
    ensures var u := Committing(Refreshing(e, news), e.save.value, latest);
            Differs(u.draft, u.seed, f) <==>
            Get(news, f) != Get(e.save.value.now, f) && Get(news, f) != Get(latest, f)
  {
    RebasedField(news, e.seed, e.draft, f);
    RebasedField(latest, e.save.value.now, Refreshing(e, news).draft, f);
  }

  function Continue(v: Visor, events: seq<Event>): Visor
    decreases |events|, v, events
  {
    if events == [] then v else Continue(Step(v, events[0]), events[1..])
  }

  /** Events that leave field `f` and the save under way as they are. */
  ghost predicate Leave(v: Visor, events: seq<Event>, f: Field)
    decreases |events|, v, events
  {
    events == [] || (
      && IsSaving(v) && !(events[0].Type? && events[0].field == f) && !RefreshInSave(v, events[0])
      && !(events[0].Answer? && v.edit.save.value.stage == AtReads)
      && Leave(Step(v, events[0]), events[1..], f))
  }

  lemma SavingLeaves(v: Visor, e: Event, f: Field)
    requires IsSaving(v) && !(e.Type? && e.field == f) && !RefreshInSave(v, e)
    requires !(e.Answer? && v.edit.save.value.stage == AtReads)
    ensures var u := Step(v, e);
            && IsSaving(u) && u.edit.save.value.now == v.edit.save.value.now
            && Get(u.edit.draft, f) == Get(v.edit.draft, f)
  {
    match e
    case Type(g, value) => PutField(v.edit.draft, g, value, f);
    case Answer(reply) =>
      AnswerAdvances(v, reply);
      AnswerHolds(v, reply);
    case Request(_) =>
    case Confirm(_) =>
    case SaveBar =>
    case RevertBar =>
    case RefreshBegins =>
    case RefreshLands(_) =>
    case SessionOpens(_) =>
    case SessionEnds =>
    case Closes =>
    case ContactsLink =>
    case SharePrompt =>
    case Learns(_) =>
    case StatusWritten =>
    case BootLands(_) =>
  }

  lemma {:induction false} LeftAlone(v: Visor, events: seq<Event>, f: Field)
    requires IsSaving(v) && Leave(v, events, f)
    ensures var u := Continue(v, events);
            && IsSaving(u) && u.edit.save.value.now == v.edit.save.value.now
            && Get(u.edit.draft, f) == Get(v.edit.draft, f)
    decreases |events|
  {
    if events != [] {
      SavingLeaves(v, events[0], f);
      LeftAlone(Step(v, events[0]), events[1..], f);
    }
  }

  /** The same over any run: a refresh lands inside a save, anything happens that neither
    * types in the field nor refreshes again, and the save commits. */
  lemma RefreshInSaveExactlyWhen(v: Visor, said: Result<Sheet, string>, between: seq<Event>, r: Reply, f: Field)
    requires RefreshInSave(v, RefreshLands(said)) && !Differs(v.edit.draft, v.edit.seed, f)
    requires Leave(OnRefreshLands(v, said), between, f)
    requires Commits(Continue(OnRefreshLands(v, said), between), r)
    ensures var w := Continue(OnRefreshLands(v, said), between);
            var u := OnAnswer(w, r).edit;
            var news := Normal(v.glyph, if v.session.None? then said.value.(app := map[]) else said.value);
            var latest := Latest(w.edit.save.value, r);
            Differs(u.draft, u.seed, f) <==>
            Get(news, f) != Get(v.edit.save.value.now, f) && Get(news, f) != Get(latest, f)
  {
    var news := Normal(v.glyph, if v.session.None? then said.value.(app := map[]) else said.value);
    var w0 := OnRefreshLands(v, said);
    var w := Continue(w0, between);
    RebasedField(news, v.edit.seed, v.edit.draft, f);
    LeftAlone(w0, between, f);
    AnswerCommits(w, r);
    RebasedField(Latest(w.edit.save.value, r), w.edit.save.value.now, w.edit.draft, f);
  }

  // ---- When a field changes ----------------------------------------------

  predicate Reverts(v: Visor, e: Event) {
    !IsSaving(v) && (e.RevertBar? || (e == Confirm(ToRevert) && v.pending.Some?))
  }

  predicate Begins(v: Visor, e: Event) {
    !IsSaving(v) && (e.SaveBar? || (e == Confirm(ToSave) && v.pending.Some?))
  }

  /** The save took the field's value, the kernel accepted it, and it has not been typed in
    * since; or what it shows is by chance what the kernel holds. */
  ghost predicate Settled(v: Visor, r: Reply, f: Field) {
    && Commits(v, r)
    && ((!Differs(v.edit.draft, v.edit.save.value.now, f) && Accepted(v.edit.save.value, f))
        || !Differs(v.edit.draft, Latest(v.edit.save.value, r), f))
  }

  /** The save took a label with no app to send it to, and ends as if it had sent it. */
  predicate Dropped(v: Visor, r: Reply, f: Field) {
    && Commits(v, r) && f.App? && v.edit.save.value.app.None?
    && !Differs(v.edit.draft, v.edit.save.value.now, f)
  }

  /** The field shows what the save found and left there, and goes over to what the kernel
    * holds instead. If it was unsaved all the same, a refresh came in between. */
  predicate Overlooked(v: Visor, r: Reply, f: Field) {
    && Commits(v, r) && !Differs(v.edit.save.value.was, v.edit.save.value.now, f)
    && !Differs(v.edit.draft, v.edit.save.value.now, f)
    && Differs(v.edit.draft, Latest(v.edit.save.value, r), f)
  }

  lemma AnswerKeepsUnsaved(v: Visor, r: Reply, f: Field)
    requires IsSaving(v)
    requires Commits(v, r) ==> Differs(v.edit.draft, v.edit.save.value.now, f)
                               && Differs(v.edit.draft, Latest(v.edit.save.value, r), f)
    ensures Get(OnAnswer(v, r).edit.draft, f) == Get(v.edit.draft, f)
  {
    if Commits(v, r) {
      AnswerCommits(v, r);
      RebasedField(Latest(v.edit.save.value, r), v.edit.save.value.now, v.edit.draft, f);
    } else {
      AnswerAdvances(v, r);
    }
  }

  lemma RefreshKeepsUnsaved(v: Visor, said: Result<Sheet, string>, f: Field)
    requires Differs(v.edit.draft, v.edit.seed, f)
    ensures Get(OnRefreshLands(v, said).edit.draft, f) == Get(v.edit.draft, f)
  {
    if StillCurrent(v) && said.Ok? {
      var news := if v.session.None? then said.value.(app := map[]) else said.value;
      RebasedField(Normal(v.glyph, news), v.edit.seed, v.edit.draft, f);
    }
  }

  lemma AskedKeepsUnsaved(v: Visor, e: Event, f: Field)
    requires Differs(v.edit.draft, v.edit.seed, f) && !Reverts(v, e)
    requires e.Request? || e.Confirm? || e.SaveBar? || e.RevertBar?
    ensures Get(Step(v, e).edit.draft, f) ==
            Get(if Begins(v, e) then Normal(v.glyph, v.edit.draft) else v.edit.draft, f)
  {
  }

  lemma AskedGlyphs(v: Visor, e: Event, f: Field)
    requires Differs(v.edit.draft, v.edit.seed, f) && !Reverts(v, e) && (e.Confirm? || e.SaveBar?)
    ensures || Get(Step(v, e).edit.draft, f) == Get(v.edit.draft, f)
            || (Begins(v, e) && IsGlyph(f)
                && Get(Step(v, e).edit.draft, f) == Glyphed(v.glyph, TextOf(Get(v.edit.draft, f))))
  {
    AskedKeepsUnsaved(v, e, f);
    NormalField(v.glyph, v.edit.draft, f);
  }

  /** In every run whatever, an unsaved field keeps its value until it is typed over,
    * reverted, or saved and accepted as it stands, or the kernel holds the same; but Save
    * may make a glyph of it, drops a label unsent where no app runs, and overlooks what
    * was typed while it was out if that is what it had found there. */
  lemma {:induction false} UnsavedKeepsUntil(glyph: string -> string, events: seq<Event>, e: Event, f: Field)
    requires Differs(Run(glyph, events).edit.draft, Run(glyph, events).edit.seed, f)
    ensures var v := Run(glyph, events); var u := Step(v, e);
            || Get(u.edit.draft, f) == Get(v.edit.draft, f)
            || (e.Type? && e.field == f)
            || Reverts(v, e)
            || (Begins(v, e) && IsGlyph(f) && Get(u.edit.draft, f) == Glyphed(glyph, TextOf(Get(v.edit.draft, f))))
            || (e.Answer? && Settled(v, e.reply, f))
            || (e.Answer? && Dropped(v, e.reply, f) && Get(u.edit.draft, f) == None)
            || (e.Answer? && Overlooked(v, e.reply, f))
  {
    var v := Run(glyph, events);
    RunGlyph(glyph, events);
    if e.Answer? {
      if IsSaving(v) { AnswerSettlesOrLoses(glyph, events, e.reply, f); }
    } else {
      OthersKeepUnsaved(v, e, f);
    }
  }

  lemma OthersKeepUnsaved(v: Visor, e: Event, f: Field)
    requires Differs(v.edit.draft, v.edit.seed, f) && !e.Answer?
    ensures || Get(Step(v, e).edit.draft, f) == Get(v.edit.draft, f)
            || (e.Type? && e.field == f)
            || Reverts(v, e)
            || (Begins(v, e) && IsGlyph(f)
                && Get(Step(v, e).edit.draft, f) == Glyphed(v.glyph, TextOf(Get(v.edit.draft, f))))
  {
    match e
    case Type(g, value) => if g != f { PutField(v.edit.draft, g, value, f); }
    case RefreshLands(said) => RefreshKeepsUnsaved(v, said, f);
    case Request(_) => AskedKeepsUnsaved(v, e, f);
    case Confirm(_) => if !Reverts(v, e) { AskedGlyphs(v, e, f); }
    case SaveBar => AskedGlyphs(v, e, f);
    case RevertBar =>
    case RefreshBegins =>
    case SessionOpens(_) =>
    case SessionEnds =>
    case Closes =>
    case ContactsLink =>
    case SharePrompt =>
    case Learns(_) =>
    case StatusWritten =>
    case BootLands(_) =>
  }

  lemma {:induction false} AnswerSettlesOrLoses(glyph: string -> string, events: seq<Event>, r: Reply, f: Field)
    requires IsSaving(Run(glyph, events))
    ensures var v := Run(glyph, events); var u := OnAnswer(v, r);
            || Get(u.edit.draft, f) == Get(v.edit.draft, f)
            || Settled(v, r, f)
            || (Dropped(v, r, f) && Get(u.edit.draft, f) == None)
            || Overlooked(v, r, f)
  {
    var v := Run(glyph, events);
    if Commits(v, r) && !Differs(v.edit.draft, v.edit.save.value.now, f) {
      TakenExactlyWhen(glyph, events, r, f);
    } else if !Settled(v, r, f) {
      AnswerKeepsUnsaved(v, r, f);
    }
  }

  /** With no refresh applied inside a save, nothing unsaved is overlooked. */
  lemma OverlookedOnlyByRefresh(glyph: string -> string, events: seq<Event>, r: Reply, f: Field)
    requires NoRefreshInSaves(glyph, events)
    requires Differs(Run(glyph, events).edit.draft, Run(glyph, events).edit.seed, f)
    ensures !Overlooked(Run(glyph, events), r, f)
  {
    RunKeepsTyped(glyph, events, false);
  }

  /** A field the save under way found as it left it, and that is unsaved all the same,
    * shows what the user last typed in it. */
  ghost predicate TypedSince(e: Edit, f: Field) {
    e.save.Some? && !Differs(e.save.value.was, e.save.value.now, f) && Differs(e.draft, e.seed, f) ==>
      f in e.typed && e.typed[f].value == Get(e.draft, f)
  }

  lemma StepKeepsTypedSince(v: Visor, e: Event, f: Field)
    requires TypedSince(v.edit, f)
    ensures TypedSince(Step(v, e).edit, f)
  {
    match e
    case Type(g, value) => if g != f { PutField(v.edit.draft, g, value, f); }
    case RefreshLands(said) => RefreshKeepsTypedSince(v, said, f);
    case Answer(reply) => if IsSaving(v) { AnswerKeepsTypedSince(v, reply, f); }
    case Request(_) => AskedKeepsTypedSince(v, e, f);
    case Confirm(_) => AskedKeepsTypedSince(v, e, f);
    case SaveBar => AskedKeepsTypedSince(v, e, f);
    case RevertBar => AskedKeepsTypedSince(v, e, f);
    case RefreshBegins =>
    case SessionOpens(_) =>
    case SessionEnds => ApplyEdits(v.(session := None, known := v.known.(app := map[])), Close);
    case Closes => ApplyEdits(v, Close);
    case ContactsLink => ApplyEdits(v, Show(Contacts));
    case SharePrompt => ApplyEdits(v, Show(Sharing));
    case Learns(_) =>
    case StatusWritten =>
    case BootLands(_) =>
  }

  lemma RefreshKeepsTypedSince(v: Visor, said: Result<Sheet, string>, f: Field)
    requires TypedSince(v.edit, f)
    ensures TypedSince(OnRefreshLands(v, said).edit, f)
  {
    if StillCurrent(v) && said.Ok? {
      var news := if v.session.None? then said.value.(app := map[]) else said.value;
      RebasedField(Normal(v.glyph, news), v.edit.seed, v.edit.draft, f);
    }
  }

  /** A save that begins has the seed and the draft for what it found and what it left. */
  lemma AskedKeepsTypedSince(v: Visor, e: Event, f: Field)
    requires TypedSince(v.edit, f) && (e.Request? || e.Confirm? || e.SaveBar? || e.RevertBar?)
    ensures TypedSince(Step(v, e).edit, f)
  {
  }

  lemma AnswerKeepsTypedSince(v: Visor, r: Reply, f: Field)
    requires TypedSince(v.edit, f) && IsSaving(v)
    ensures TypedSince(OnAnswer(v, r).edit, f)
  {
    if Commits(v, r) {
      AnswerCommits(v, r);
    } else {
      AnswerAdvances(v, r);
      if IsSaving(OnAnswer(v, r)) { AnswerHolds(v, r); }
    }
  }

  /** In every run whatever, what is overlooked of an unsaved field the user had typed. */
  lemma {:induction false} OverlookedIsTyped(glyph: string -> string, events: seq<Event>, r: Reply, f: Field)
    requires Overlooked(Run(glyph, events), r, f)
    requires Differs(Run(glyph, events).edit.draft, Run(glyph, events).edit.seed, f)
    ensures var last := LastTyped(events, f); last.Some? && last.value.value == Get(Run(glyph, events).edit.draft, f)
  {
    RunKeepsTypedSince(glyph, events, f);
    TypedIsLast(glyph, events, f);
  }

  lemma {:induction false} RunKeepsTypedSince(glyph: string -> string, events: seq<Event>, f: Field)
    ensures TypedSince(Run(glyph, events).edit, f)
    decreases |events|
  {
    if events != [] {
      RunKeepsTypedSince(glyph, events[..|events| - 1], f);
      StepKeepsTypedSince(Run(glyph, events[..|events| - 1]), events[|events| - 1], f);
    }
  }

  /** At every commit, a field reads as saved after it exactly when it shows what the save
    * left there, or what the kernel holds; and the kernel has accepted the field exactly
    * if the save took a change of it, but a label's only if an app ran. A taken change it
    * has not accepted, and that reads as saved, is gone from the sheet. */
  lemma {:induction false} TakenExactlyWhen(glyph: string -> string, events: seq<Event>, r: Reply, f: Field)
    requires Commits(Run(glyph, events), r)
    ensures var v := Run(glyph, events); var s := v.edit.save.value; var u := OnAnswer(v, r).edit;
            && (!Differs(u.draft, u.seed, f) <==>
                  !Differs(v.edit.draft, s.now, f) || !Differs(v.edit.draft, Latest(s, r), f))
            && (Accepted(s, f) <==> Differs(s.was, s.now, f) && !(f.App? && s.app.None?))
            && (!Differs(u.draft, u.seed, f) && Differs(s.was, s.now, f) && !Accepted(s, f) ==> Get(u.draft, f) == None)
  {
    var v := Run(glyph, events);
    var s := v.edit.save.value;
    RunSends(glyph, events);
    AcceptedExactlyWhen(s, f);
    AnswerCommits(v, r);
    RebasedField(Latest(s, r), s.now, v.edit.draft, f);
  }

  /** Over any run whatever, a commit takes an unsaved field's value away, which the kernel
    * has not accepted, exactly when it shows what the save left there, the kernel now
    * holds something else, and the save had either found it so or taken a label with no
    * app to send it to. */
  lemma {:induction false} LostExactlyWhen(glyph: string -> string, events: seq<Event>, r: Reply, f: Field)
    requires var v := Run(glyph, events); Commits(v, r) && Differs(v.edit.draft, v.edit.seed, f)
    ensures var v := Run(glyph, events); var s := v.edit.save.value; var c := Committing(v.edit, s, Latest(s, r));
            Get(c.draft, f) != Get(v.edit.draft, f) && !Accepted(s, f) <==>
            && !Differs(v.edit.draft, s.now, f) && Differs(v.edit.draft, Latest(s, r), f)
            && (!Differs(s.was, s.now, f) || (f.App? && s.app.None?))
  {
    var v := Run(glyph, events);
    var s := v.edit.save.value;
    TakenExactlyWhen(glyph, events, r, f);
    RebasedField(Latest(s, r), s.now, v.edit.draft, f);
  }

  /** A field that differs from what the save left there when the save ends outlives it,
    * over whatever the kernel then holds. Every other follows the kernel and reads as
    * saved, even one typed while the save was out, if it was typed back to what the save
    * left: such a value is kept exactly if the kernel holds it. Only where no field
    * differs, or none but from what the kernel holds, can a waiting transition seed the
    * sheet anew. */
  lemma TypedDuringSaveSurvives(v: Visor, r: Reply, f: Field)
    requires Commits(v, r)
    ensures var s := v.edit.save.value; var u := OnAnswer(v, r); var latest := Latest(s, r);
            var c := Committing(v.edit, s, latest);
            && u.known == latest
            && (s.after.None? || c.draft != c.seed ==>
                  && Get(u.edit.seed, f) == Get(latest, f)
                  && Get(u.edit.draft, f) ==
                     (if Differs(s.now, v.edit.draft, f) then Get(v.edit.draft, f) else Get(latest, f))
                  && (Get(u.edit.draft, f) == Get(v.edit.draft, f) <==>
                        Differs(s.now, v.edit.draft, f) || !Differs(v.edit.draft, latest, f)))
            && (s.after.Some? && c.draft == c.seed ==>
                  && u.edit.draft == u.edit.seed
                  && (Differs(s.now, v.edit.draft, f) ==> Get(v.edit.draft, f) == Get(latest, f)))
  {
    AnswerCommits(v, r);
    RebasedField(Latest(v.edit.save.value, r), v.edit.save.value.now, v.edit.draft, f);
  }

  /** A refresh that is applied gives every saved field the kernel's value and leaves
    * every unsaved one; one overtaken by a write, a transition or a session gives none, and
    * begins again; and one that fails gives none and is over. */
  lemma RefreshFollows(v: Visor, said: Result<Sheet, string>, f: Field)
    requires v.refresh.Some?
    ensures var u := OnRefreshLands(v, said);
            if StillCurrent(v) && said.Ok? then
              var news := Normal(v.glyph, if v.session.None? then said.value.(app := map[]) else said.value);
              && Get(u.edit.seed, f) == Get(news, f) && Normal(v.glyph, u.known) == news
              && Get(u.edit.draft, f) ==
                 (if Differs(v.edit.draft, v.edit.seed, f) then Get(v.edit.draft, f) else Get(news, f))
            else u == v.(refresh := if StillCurrent(v) then None
                                    else Some(Refresh(v.statusGate, v.drawerGate, v.session)))
  {
    if StillCurrent(v) && said.Ok? {
      var news := if v.session.None? then said.value.(app := map[]) else said.value;
      RebasedField(Normal(v.glyph, news), v.edit.seed, v.edit.draft, f);
    }
  }

  // ---- Nothing is lost quietly -------------------------------------------

  ghost predicate Nav(v: Visor) {
    !v.edit.discarded && (v.touched && v.session.None? ==> v.drawer != Closed)
  }

  lemma AnswerNav(v: Visor, r: Reply)
    requires Nav(v) && IsSaving(v)
    ensures Nav(OnAnswer(v, r))
  {
    if !Commits(v, r) {
      AnswerAdvances(v, r);
    }
  }

  lemma StepNav(v: Visor, e: Event)
    requires Nav(v)
    ensures Nav(Step(v, e))
  {
    match e
    case Answer(reply) => if IsSaving(v) { AnswerNav(v, reply); }
    case Type(_, _) =>
    case Request(_) =>
    case Confirm(_) =>
    case SaveBar =>
    case RevertBar =>
    case RefreshBegins =>
    case RefreshLands(_) =>
    case SessionOpens(_) =>
    case SessionEnds =>
    case Closes =>
    case ContactsLink =>
    case SharePrompt =>
    case Learns(_) =>
    case StatusWritten =>
    case BootLands(_) =>
  }

  /** In every run: seeding a sheet never meets an unsaved edit; and once anything has moved
    * the drawer, it is never closed with nothing running. */
  lemma {:induction false} SeedingDiscardsNothing(glyph: string -> string, events: seq<Event>)
    ensures var v := Run(glyph, events);
            !v.edit.discarded && (v.touched && v.session.None? ==> v.drawer != Closed)
    decreases |events|
  {
    if events != [] {
      SeedingDiscardsNothing(glyph, events[..|events| - 1]);
      StepNav(Run(glyph, events[..|events| - 1]), events[|events| - 1]);
    }
  }

  // ---- What moves the sheet ----------------------------------------------

  /** The sheet and what it started from change only when something is typed, a save begins
    * or ends well, it is reverted, a refresh is applied, or a sheet is opened. */
  lemma SheetMovesOnlyBy(v: Visor, e: Event)
    requires !(e.Type? && Suits(e.field, e.value)) && !Begins(v, e) && !Reverts(v, e)
    requires !(e.RefreshLands? && StillCurrent(v) && e.said.Ok?) && !(e.Answer? && Commits(v, e.reply))
    requires var u := Step(v, e); !(IsSheet(u.drawer) && u.drawer != v.drawer)
    ensures Step(v, e).edit.draft == v.edit.draft && Step(v, e).edit.seed == v.edit.seed
  {
    match e
    case Answer(reply) => if IsSaving(v) { AnswerAdvances(v, reply); }
    case Request(action) => ApplyShows(v, action, Name);
    case Confirm(_) =>
    case SessionEnds =>
    case Closes =>
    case ContactsLink =>
    case SharePrompt =>
    case BootLands(_) =>
    case Type(_, _) =>
    case SaveBar =>
    case RevertBar =>
    case RefreshBegins =>
    case RefreshLands(_) =>
    case SessionOpens(_) =>
    case Learns(_) =>
    case StatusWritten =>
  }

  // ---- What an opened sheet shows ----------------------------------------

  /** What the sheet shows of what is known of a field. */
  function ShownOf(glyph: string -> string, known: Sheet, f: Field): Option<Value> {
    if IsGlyph(f) && Get(known, f).Some? then Glyphed(glyph, TextOf(Get(known, f))) else Get(known, f)
  }

  lemma NormalShows(glyph: string -> string, s: Sheet, f: Field)
    ensures Get(Normal(glyph, s), f) == ShownOf(glyph, s, f)
  {
    NormalField(glyph, s, f);
  }

  predicate IsSheet(d: Drawer) {
    d == Open(Settings) || d == Open(AppInfo)
  }

  lemma ApplyShows(v: Visor, action: Action, f: Field)
    ensures var u := Apply(v, action);
            && (IsSheet(u.drawer) && u.drawer != v.drawer ==>
                  u.edit.draft == u.edit.seed && Get(u.edit.draft, f) == ShownOf(v.glyph, u.known, f))
            && (!(IsSheet(u.drawer) && u.drawer != v.drawer) ==> u.edit == v.edit)
  {
    NormalShows(v.glyph, v.known, f);
  }

  /** The waiting transition happens at the end of a save. */
  lemma AnswerApplies(v: Visor, r: Reply)
    ensures var u := OnAnswer(v, r);
            if IsSaving(v) && Commits(v, r) && v.edit.save.value.after.Some?
               && Clean(Committed(v, v.edit.save.value, r.latest.value))
            then u == Apply(Committed(v, v.edit.save.value, r.latest.value), v.edit.save.value.after.value)
            else u.drawer == v.drawer
  {
  }

  /** However the drawer comes to a sheet, the sheet is clean and shows what is known, with
    * its glyphs cut to one grapheme. */
  lemma OpenedSheetShows(v: Visor, e: Event, f: Field)
    requires var u := Step(v, e); IsSheet(u.drawer) && u.drawer != v.drawer
    ensures var u := Step(v, e); u.edit.draft == u.edit.seed && Get(u.edit.draft, f) == ShownOf(v.glyph, u.known, f)
  {
    match e
    case Answer(reply) => AnswerShows(v, reply, f);
    case Request(action) => ApplyShows(v, action, f);
    case Confirm(choice) => ConfirmShows(v, choice, f);
    case SessionEnds =>
    case Closes =>
    case ContactsLink =>
    case SharePrompt =>
    case BootLands(_) =>
    case Type(_, _) =>
    case SaveBar =>
    case RevertBar =>
    case RefreshBegins =>
    case RefreshLands(_) =>
    case SessionOpens(_) =>
    case Learns(_) =>
    case StatusWritten =>
  }

  lemma AnswerShows(v: Visor, r: Reply, f: Field)
    requires var u := OnAnswer(v, r); IsSheet(u.drawer) && u.drawer != v.drawer
    ensures var u := OnAnswer(v, r); u.edit.draft == u.edit.seed && Get(u.edit.draft, f) == ShownOf(v.glyph, u.known, f)
  {
    AnswerApplies(v, r);
    if Commits(v, r) && v.edit.save.value.after.Some? {
      ApplyShows(Committed(v, v.edit.save.value, r.latest.value), v.edit.save.value.after.value, f);
    }
  }

  lemma ConfirmShows(v: Visor, choice: Choice, f: Field)
    requires var u := OnConfirm(v, choice); IsSheet(u.drawer) && u.drawer != v.drawer
    ensures var u := OnConfirm(v, choice);
            u.edit.draft == u.edit.seed && Get(u.edit.draft, f) == ShownOf(v.glyph, u.known, f)
  {
    ApplyShows(v.(pending := None, edit := v.edit.(draft := v.edit.seed)), v.pending.value, f);
  }

  // ---- Where the drawer goes ---------------------------------------------

  /** Where a transition leads: closing rests on the app list when nothing runs. */
  function Goal(v: Visor, action: Action): Drawer {
    match action
    case Show(tenant) => Open(tenant)
    case Close => if v.session.None? then Open(Apps) else Closed
  }

  /** The transition that takes place, if one does: what is asked for with nothing unsaved
    * and nothing going on, what the dialog was about once reverted, what waited on a save
    * that leaves the sheet clean, and what the page itself brings about. */
  function Takes(v: Visor, e: Event): Option<Action> {
    match e
    case Request(action) =>
      if v.pending.None? && !IsSaving(v) && v.edit.draft == v.edit.seed then Some(action) else None
    case Confirm(choice) => if choice == ToRevert && !IsSaving(v) then v.pending else None
    case Answer(reply) =>
      if Commits(v, reply) && SettlesAll(v, reply) then v.edit.save.value.after else None
    case SessionEnds => Some(Close)
    case Closes => Some(Close)
    case ContactsLink => Some(Show(Contacts))
    case SharePrompt => if v.pending.None? then Some(Show(Sharing)) else None
    case _ => None
  }

  /** The sheet is clean once the save has ended. */
  predicate SettlesAll(v: Visor, r: Reply)
    requires Commits(v, r)
  {
    var s := v.edit.save.value;
    Rebased(Latest(s, r), s.now, v.edit.draft) == Latest(s, r)
  }

  /** The drawer goes just where the transition leads that takes place; but for the boot's
    * own choice, it otherwise stays. */
  lemma DrawerGoes(v: Visor, e: Event)
    requires !e.BootLands?
    ensures Step(v, e).drawer ==
            if Takes(v, e).None? then v.drawer
            else Goal(if e.SessionEnds? then v.(session := None) else v, Takes(v, e).value)
  {
    match e
    case Answer(reply) => AnswerGoes(v, reply);
    case Request(_) =>
    case Confirm(_) =>
    case SessionEnds =>
    case Closes =>
    case ContactsLink =>
    case SharePrompt =>
    case Type(_, _) =>
    case SaveBar =>
    case RevertBar =>
    case RefreshBegins =>
    case RefreshLands(_) =>
    case SessionOpens(_) =>
    case Learns(_) =>
    case StatusWritten =>
  }

  lemma AnswerGoes(v: Visor, r: Reply)
    ensures OnAnswer(v, r).drawer ==
            if Takes(v, Answer(r)).None? then v.drawer else Goal(v, Takes(v, Answer(r)).value)
  {
    AnswerApplies(v, r);
  }

  /** A request over unsaved edits is parked and moves nothing; one under the dialog or a
    * save is not heard; and a reverted sheet is clean. */
  lemma RequestGoes(v: Visor, action: Action)
    ensures var u := Step(v, Request(action));
            && (v.pending.Some? || IsSaving(v) ==> u == v)
            && (v.pending.None? && !IsSaving(v) && v.edit.draft != v.edit.seed ==> u == v.(pending := Some(action)))
            && (v.pending.None? && !IsSaving(v) && v.edit.draft == v.edit.seed ==>
                  u.pending.None? && u.drawer == Goal(v, action))
    ensures var u := Step(v, RevertBar);
            if IsSaving(v) then u == v else u.edit.draft == u.edit.seed == v.edit.seed && u.drawer == v.drawer
  {
  }

  // ---- What is known -----------------------------------------------------

  /** The field whose call a stage makes, where there is one, as the kernel then has it:
    * the strip shows it at once, but a label only with the closing reads. */
  function Accepting(v: Visor, s: Save, r: Reply, f: Field): Option<Value> {
    match s.stage
    case AtName => if f == Name && v.statusKnown then Get(s.now, f) else Get(v.known, f)
    case AtHue => if f == Hue && v.statusKnown then Get(s.now, f) else Get(v.known, f)
    case AtUser => if f.User? && r.user.Ok? then Get(EMPTY.(user := r.user.value), f) else Get(v.known, f)
    case _ => Get(v.known, f)
  }

  /** What a step makes known of a field. */
  lemma KnownBecomes(v: Visor, e: Event, f: Field)
    ensures Get(Step(v, e).known, f) ==
            match e {
              case Learns(known) => Get(known, f)
              case SessionEnds => if f.App? then None else Get(v.known, f)
              case RefreshLands(said) =>
                if !StillCurrent(v) || said.Err? then Get(v.known, f)
                else if f.App? && v.session.None? then None
                else Get(said.value, f)
              case Answer(reply) =>
                if Commits(v, reply) then Get(Latest(v.edit.save.value, reply), f)
                else if IsSaving(v) && Tried(v.edit.save.value) != [] && Went(v.edit.save.value, reply) then
                  Accepting(v, v.edit.save.value, reply, f)
                else Get(v.known, f)
              case _ => Get(v.known, f)
            }
  {
    match e
    case Answer(reply) => AnswerKnows(v, reply, f);
    case RefreshLands(_) =>
    case Request(action) => ApplyEdits(v, action);
    case Confirm(_) =>
    case SessionEnds =>
    case Closes =>
    case ContactsLink =>
    case SharePrompt =>
    case BootLands(_) =>
    case Type(_, _) =>
    case SaveBar =>
    case RevertBar =>
    case RefreshBegins =>
    case SessionOpens(_) =>
    case Learns(_) =>
    case StatusWritten =>
  }

  /** The status is known from the first news of it on. */
  lemma StatusKnownFrom(v: Visor, e: Event)
    ensures Step(v, e).statusKnown <==>
            || v.statusKnown || e.Learns? || (e.Answer? && Commits(v, e.reply))
            || (e.RefreshLands? && StillCurrent(v) && e.said.Ok?)
  {
    match e
    case Answer(reply) =>
    case Request(_) =>
    case Confirm(_) =>
    case SessionEnds =>
    case Closes =>
    case ContactsLink =>
    case SharePrompt =>
    case RefreshLands(_) =>
    case BootLands(_) =>
    case Type(_, _) =>
    case SaveBar =>
    case RevertBar =>
    case RefreshBegins =>
    case SessionOpens(_) =>
    case Learns(_) =>
    case StatusWritten =>
  }

  lemma AnswerKnows(v: Visor, r: Reply, f: Field)
    ensures Get(OnAnswer(v, r).known, f) ==
            if Commits(v, r) then Get(Latest(v.edit.save.value, r), f)
            else if IsSaving(v) && Tried(v.edit.save.value) != [] && Went(v.edit.save.value, r) then
              Accepting(v, v.edit.save.value, r, f)
            else Get(v.known, f)
  {
    if Commits(v, r) { AnswerCommits(v, r); }
  }

  // ---- Saved means sent --------------------------------------------------

  /** A save takes what the sheet shows, with its glyphs cut to one grapheme, over what the
    * sheet started from, for the app that runs; the bar's own has nothing waiting on it,
    * and the dialog's what the dialog was about. */
  lemma SaveTakes(v: Visor, e: Event, f: Field)
    requires Begins(v, e)
    ensures IsSaving(Step(v, e))
    ensures var u := Step(v, e); var s := u.edit.save.value;
            && s.was == v.edit.seed == u.edit.seed && s.now == u.edit.draft
            && Get(s.now, f) == ShownOf(v.glyph, v.edit.draft, f)
            && s.app == AppOf(v.session) && s.after == (if e.SaveBar? then None else v.pending)
            && s.stage == AtName && !s.failed && s.sent == []
  {
    NormalShows(v.glyph, v.edit.draft, f);
  }

  function SentBefore(s: Save): seq<Call> {
    match s.stage
    case AtName => []
    case AtHue => NameCalls(s.was, s.now)
    case AtUser => NameCalls(s.was, s.now) + HueCalls(s.was, s.now)
    case AtApp => NameCalls(s.was, s.now) + HueCalls(s.was, s.now) + UserCalls(s.was, s.now)
    case AtReads =>
      NameCalls(s.was, s.now) + HueCalls(s.was, s.now) + UserCalls(s.was, s.now) + AppCalls(s.was, s.now, s.app)
  }

  ghost predicate Sends(o: Option<Save>) {
    o.Some? && !o.value.failed ==> o.value.sent == SentBefore(o.value)
  }

  lemma ProgressSends(s: Save, r: Reply)
    requires Sends(Some(s)) && s.stage != AtReads
    ensures Sends(Some(Progress(s, r)))
  {
    if s.stage == AtName {
      assert [] + NameCalls(s.was, s.now) == NameCalls(s.was, s.now);
    }
  }

  lemma AnswerSends(v: Visor, r: Reply)
    requires IsSaving(v) && Sends(v.edit.save)
    ensures Sends(OnAnswer(v, r).edit.save)
  {
    var s := v.edit.save.value;
    if s.stage != AtReads {
      ProgressSends(s, r);
    } else if Commits(v, r) {
      AnswerCommits(v, r);
    }
  }

  lemma StepSends(v: Visor, e: Event)
    requires Sends(v.edit.save)
    ensures Sends(Step(v, e).edit.save)
  {
    match e
    case Answer(reply) => if IsSaving(v) { AnswerSends(v, reply); }
    case Type(_, _) =>
    case Request(_) =>
    case Confirm(_) =>
    case SaveBar =>
    case RevertBar =>
    case RefreshBegins =>
    case RefreshLands(_) =>
    case SessionOpens(_) =>
    case SessionEnds =>
    case Closes =>
    case ContactsLink =>
    case SharePrompt =>
    case Learns(_) =>
    case StatusWritten =>
    case BootLands(_) =>
  }

  lemma {:induction false} RunSends(glyph: string -> string, events: seq<Event>)
    ensures Sends(Run(glyph, events).edit.save)
    decreases |events|
  {
    if events != [] {
      RunSends(glyph, events[..|events| - 1]);
      StepSends(Run(glyph, events[..|events| - 1]), events[|events| - 1]);
    }
  }

  /** The call a stage makes, if the field it is about was changed. */
  function Due(s: Save): seq<Call> {
    match s.stage
    case AtName => if s.now.name == s.was.name then [] else [SetName(s.now.name)]
    case AtHue => if s.now.hue == s.was.hue then [] else [SetHue(s.now.hue)]
    case AtUser => if s.now.user == s.was.user then [] else [PatchUser(ChangesOf(s.was.user, s.now.user))]
    case AtApp =>
      if s.now.app == s.was.app || s.app.None? then [] else [PatchApp(s.app.value, ChangesOf(s.was.app, s.now.app))]
    case AtReads => []
  }

  /** Each stage's call counts as sent exactly if the kernel took it, and fails the save
    * exactly if it did not; the user's counts once its map has been read back. */
  lemma SentExactlyWhen(v: Visor, r: Reply)
    requires IsSaving(v) && v.edit.save.value.stage != AtReads
    ensures IsSaving(OnAnswer(v, r))
    ensures var s, u := v.edit.save.value, OnAnswer(v, r).edit.save.value;
            var taken := r.ok && (s.stage == AtUser ==> r.user.Ok?);
            && u.sent == s.sent + (if taken then Due(s) else [])
            && (u.failed <==> s.failed || (Due(s) != [] && !taken))
            && u.was == s.was && u.now == s.now && u.app == s.app && u.after == s.after
  {
  }

  /** A save that fails, at whichever call or read, leaves the sheet as it was, unsaved: its
    * values are still there to be saved again. */
  lemma FailedSaveKeepsSheet(v: Visor, r: Reply)
    requires IsSaving(v) && v.edit.save.value.stage == AtReads && (v.edit.save.value.failed || r.latest.Err?)
    ensures var u := OnAnswer(v, r);
            && u.edit.draft == v.edit.draft && u.edit.seed == v.edit.seed && !IsSaving(u)
            && u.drawer == v.drawer && u.known == v.known
  {
  }

  /** Nothing mends a save that has failed. */
  lemma FailedStays(v: Visor, e: Event)
    requires IsSaving(v) && v.edit.save.value.failed
    ensures var u := Step(v, e);
            && (IsSaving(u) ==> u.edit.save.value.failed && u.edit.save.value.now == v.edit.save.value.now)
            && (!IsSaving(u) ==> e.Answer? && u.edit.seed == v.edit.seed && u.edit.draft == v.edit.draft)
  {
    match e
    case Answer(reply) => AnswerAdvances(v, reply);
    case Type(_, _) =>
    case Request(_) =>
    case Confirm(_) =>
    case SaveBar =>
    case RevertBar =>
    case RefreshBegins =>
    case RefreshLands(_) =>
    case SessionOpens(_) =>
    case SessionEnds =>
    case Closes =>
    case ContactsLink =>
    case SharePrompt =>
    case Learns(_) =>
    case StatusWritten =>
    case BootLands(_) =>
  }

  lemma SentIsAll(s: Save)
    requires s.stage == AtReads && !s.failed && Sends(Some(s))
    ensures s.sent == AllCalls(s.was, s.now, s.app)
  {
  }

  /** A save that ends well has had every change it took accepted: performed on whatever
    * the kernel held, its calls are the draft's changes over that, except labels where no
    * app ran, which were never sent. */
  lemma SavedMeansSent(glyph: string -> string, events: seq<Event>, r: Reply, k: Kernel)
    requires Commits(Run(glyph, events), r)
    ensures var s := Run(glyph, events).edit.save.value;
            && s.sent == AllCalls(s.was, s.now, s.app)
            && View(PerformAll(k, s.sent), s.app) ==
               Rebased(View(k, s.app), s.was, if s.app.Some? then s.now else s.now.(app := s.was.app))
  {
    RunSends(glyph, events);
    var s := Run(glyph, events).edit.save.value;
    SentIsAll(s);
    SaveIsRebase(k, s.was, s.now, s.app);
  }

  /** The kernel has accepted the save's value of `f`. */
  ghost predicate Accepted(s: Save, f: Field) {
    match f
    case Name => SetName(s.now.name) in s.sent
    case Hue => SetHue(s.now.hue) in s.sent
    case User(key) => exists i :: 0 <= i < |s.sent| && CarriesUser(s.sent[i], key, Lookup(s.now.user, key))
    case App(key) => exists i :: 0 <= i < |s.sent| && CarriesLabel(s.sent[i], s.app, key, Lookup(s.now.app, key))
  }

  predicate CarriesUser(call: Call, key: string, value: Option<string>) {
    call.PatchUser? && key in call.changes && call.changes[key] == value
  }

  predicate CarriesLabel(call: Call, app: Option<string>, key: string, value: Option<string>) {
    call.PatchApp? && Some(call.app) == app && key in call.changes && call.changes[key] == value
  }

  lemma AmongAll(was: Sheet, now: Sheet, app: Option<string>, call: Call)
    ensures call in AllCalls(was, now, app) <==>
            call in NameCalls(was, now) || call in HueCalls(was, now)
            || call in UserCalls(was, now) || call in AppCalls(was, now, app)
  {
  }

  /** When all of a save's calls are accepted, so is each field it took a change of, and no
    * other; but not a label where there was no app to send it to. */
  lemma AcceptedExactlyWhen(s: Save, f: Field)
    requires s.stage == AtReads && !s.failed && Sends(Some(s))
    ensures Accepted(s, f) <==> Differs(s.was, s.now, f) && !(f.App? && s.app.None?)
  {
    if Differs(s.was, s.now, f) { TakenIsAccepted(s, f); } else { UntakenIsNot(s, f); }
  }

  lemma UntakenIsNot(s: Save, f: Field)
    requires s.stage == AtReads && !s.failed && Sends(Some(s)) && !Differs(s.was, s.now, f)
    ensures !Accepted(s, f)
  {
    SentIsAll(s);
    match f
    case Name => AmongAll(s.was, s.now, s.app, SetName(s.now.name));
    case Hue => AmongAll(s.was, s.now, s.app, SetHue(s.now.hue));
    case User(key) =>
      forall i | 0 <= i < |s.sent| ensures !CarriesUser(s.sent[i], key, Lookup(s.now.user, key)) {
        AmongAll(s.was, s.now, s.app, s.sent[i]);
      }
    case App(key) =>
      forall i | 0 <= i < |s.sent| ensures !CarriesLabel(s.sent[i], s.app, key, Lookup(s.now.app, key)) {
        AmongAll(s.was, s.now, s.app, s.sent[i]);
      }
  }

  lemma TakenIsAccepted(s: Save, f: Field)
    requires s.stage == AtReads && !s.failed && Sends(Some(s)) && Differs(s.was, s.now, f)
    ensures Accepted(s, f) <==> !(f.App? && s.app.None?)
  {
    SentIsAll(s);
    match f
    case Name => AmongAll(s.was, s.now, s.app, SetName(s.now.name));
    case Hue => AmongAll(s.was, s.now, s.app, SetHue(s.now.hue));
    case User(key) =>
      var call := PatchUser(ChangesOf(s.was.user, s.now.user));
      assert Changed(s.was.user, s.now.user, key);
      AmongAll(s.was, s.now, s.app, call);
      var i :| 0 <= i < |s.sent| && s.sent[i] == call;
      assert CarriesUser(s.sent[i], key, Lookup(s.now.user, key));
    case App(key) =>
      assert Changed(s.was.app, s.now.app, key);
      if s.app.Some? {
        var call := PatchApp(s.app.value, ChangesOf(s.was.app, s.now.app));
        AmongAll(s.was, s.now, s.app, call);
        var i :| 0 <= i < |s.sent| && s.sent[i] == call;
        assert CarriesLabel(s.sent[i], s.app, key, Lookup(s.now.app, key));
      }
  }

  // ---- Labels and the app they are for -----------------------------------

  lemma BeginningSaves(v: Visor, e: Event)
    requires Begins(v, e)
    ensures var u := Step(v, e);
            && u.session == v.session && u.edit.save.Some? && u.edit.save.value.app == AppOf(v.session)
            && u.edit.seed == v.edit.seed == u.edit.save.value.was && u.edit.draft == u.edit.save.value.now
            && !LeavesLabels(v, e) && !RefreshInSave(v, e)
  {
  }

  /** If no app comes or goes under an unsaved label, every label a save takes was left
    * by the user while the app it is sent to was running, or is the glyph Save makes of
    * what they left then; but for a glyph nobody touched, which Save makes by itself. */
  lemma LabelsGoHome(glyph: string -> string, events: seq<Event>, e: Event, key: string)
    requires NoRefreshInSaves(glyph, events) && LabelsSavedInTime(glyph, events)
    requires Begins(Run(glyph, events), e)
    ensures IsSaving(Step(Run(glyph, events), e))
    ensures var u := Step(Run(glyph, events), e).edit; var s := u.save.value; var f := App(key);
            && s.app == RunningApp(events)
            && (Changed(s.was.app, s.now.app, key) ==>
                  if f in u.made then
                    && key == GLYPH && Get(s.now, f) == Glyphed(glyph, u.made[f].from) && u.made[f].app == s.app
                    && (u.made[f].untouched || (LastTyped(events, f).Some? && LastTyped(events, f).value.app == s.app))
                  else LastTyped(events, f) == Some(Owned(Get(s.now, f), s.app)))
  {
    TypedIsLast(glyph, events, App(key));
    StepTyped(Run(glyph, events), e, App(key));
    var v := Run(glyph, events);
    RunKeepsTyped(glyph, events, true);
    BeginningSaves(v, e);
    var u := Step(v, e);
    StepKeepsTyped(v, e, true);
    if Changed(u.edit.save.value.was.app, u.edit.save.value.now.app, key) {
      assert Differs(u.edit.draft, u.edit.seed, App(key));
      assert Owns(glyph, u.edit, App(key), true, AppOf(u.session));
    }
  }

  // ---- The dialog --------------------------------------------------------

  /** The parked transition stays the one the dialog asks about until it is answered. */
  lemma ParkedStands(v: Visor, e: Event)
    requires v.pending.Some?
    ensures Step(v, e).pending == if e.Confirm? then None else v.pending
  {
  }

  /** Answered, it is what happens; but a Save or Revert pressed while another save is out
    * only dismisses the dialog, and the transition is dropped. */
  lemma ParkedIsAnswered(v: Visor, choice: Choice)
    requires v.pending.Some?
    ensures var u := OnConfirm(v, choice); var action := v.pending.value;
            && (choice == ToCancel || IsSaving(v) ==> u == v.(pending := None))
            && (choice == ToRevert && !IsSaving(v) ==> Clean(u) && u.drawer == Reduce(v.drawer, action, v.session.None?))
            && (choice == ToSave && !IsSaving(v) ==> IsSaving(u) && u.edit.save.value.after == Some(action)
                                                      && u.drawer == v.drawer)
  {
  }

  /** Such an answer can be given: the bar's own Save, pressed as the dialog comes up. */
  lemma AnsweredWhileSaving(glyph: string -> string, name: string, action: Action, choice: Choice)
    requires name != ""
    ensures var events := [Type(Name, Text(name))] + [Request(action)] + [SaveBar];
            var v := Run(glyph, events); var u := Run(glyph, events + [Confirm(choice)]);
            && v.pending == Some(action) && IsSaving(v) && v.edit.save.value.after.None?
            && u == v.(pending := None)
  {
    var e1 := [Type(Name, Text(name))];
    var e2 := e1 + [Request(action)];
    assert [] + e1 == e1;
    Extend(glyph, [], Type(Name, Text(name)));
    assert Run(glyph, e1).edit.draft.name != Run(glyph, e1).edit.seed.name;
    Extend(glyph, e1, Request(action));
    Extend(glyph, e2, SaveBar);
    Extend(glyph, e2 + [SaveBar], Confirm(choice));
  }

  /** What waits on a save happens only if it ended well and nothing was typed since that
    * the kernel does not hold. */
  lemma AfterSaveOnlyWhen(v: Visor, r: Reply)
    requires IsSaving(v) && v.edit.save.value.after.Some? && v.edit.save.value.stage == AtReads
    ensures OnAnswer(v, r).drawerGate != v.drawerGate <==>
            && Commits(v, r)
            && forall f: Field | Differs(v.edit.save.value.now, v.edit.draft, f) ::
                 Get(v.edit.draft, f) == Get(Latest(v.edit.save.value, r), f)
  {
    if Commits(v, r) {
      var s := v.edit.save.value;
      var latest := Latest(s, r);
      forall f: Field ensures Get(Rebased(latest, s.now, v.edit.draft), f) ==
                              if Differs(s.now, v.edit.draft, f) then Get(v.edit.draft, f) else Get(latest, f)
      {
        RebasedField(latest, s.now, v.edit.draft, f);
      }
      SameFields(Rebased(latest, s.now, v.edit.draft), latest);
    }
  }

  // ---- The gates ---------------------------------------------------------

  /** Short of 2^64 steps the gates count: a token is never ahead of its gate. */
  ghost predicate Counted(v: Visor, steps: nat) {
    && v.drawerGate <= steps && v.statusGate <= steps
    && (v.refresh.Some? ==> v.refresh.value.status <= v.statusGate && v.refresh.value.drawer <= v.drawerGate)
    && (v.boot.Some? ==> v.boot == Some(0))
    && (v.boot.Some? ==> (v.touched <==> v.drawerGate > 0))
  }

  /** A transition is counted: by its gate alone. */
  lemma ApplyCounts(v: Visor, action: Action)
    requires v.drawerGate < U64 - 1
    ensures var u := Apply(v, action);
            && u.drawerGate == v.drawerGate + 1 && u.statusGate == v.statusGate
            && u.refresh == v.refresh && u.boot == v.boot
  {
  }

  lemma CommitCounts(v: Visor, s: Save, news: Sheet)
    requires v.drawerGate < U64 - 1 && v.statusGate < U64 - 1
    ensures var u := Commit(v, s, news);
            && v.drawerGate <= u.drawerGate <= v.drawerGate + 1 && u.statusGate == v.statusGate + 1
            && u.refresh == v.refresh && u.boot == v.boot && (u.touched ==> v.touched || u.drawerGate > 0)
  {
    var u := Committed(v, s, news);
    if s.after.Some? { ApplyCounts(u, s.after.value); }
  }

  lemma AnswerCounts(v: Visor, r: Reply, steps: nat)
    requires Counted(v, steps) && steps < U64 - 1
    ensures Counted(OnAnswer(v, r), steps + 1)
  {
    if Commits(v, r) { CommitCounts(v, v.edit.save.value, r.latest.value); }
  }

  lemma RevertCounts(v: Visor, after: Option<Action>, steps: nat)
    requires Counted(v, steps) && steps < U64 - 1
    ensures Counted(RevertNow(v, after), steps + 1)
  {
    if after.Some? { ApplyCounts(v.(edit := v.edit.(draft := v.edit.seed)), after.value); }
  }

  lemma SaveCounts(v: Visor, after: Option<Action>, steps: nat)
    requires Counted(v, steps) && steps < U64 - 1
    ensures Counted(SaveNow(v, after), steps + 1)
  {
  }

  lemma ApplyCounted(v: Visor, action: Action, steps: nat)
    requires Counted(v, steps) && steps < U64 - 1
    ensures Counted(Apply(v, action), steps + 1)
  {
    ApplyCounts(v, action);
  }

  lemma RequestCounts(v: Visor, action: Action, steps: nat)
    requires Counted(v, steps) && steps < U64 - 1
    ensures Counted(OnRequest(v, action), steps + 1)
  {
    ApplyCounted(v, action, steps);
  }

  lemma ConfirmCounts(v: Visor, choice: Choice, steps: nat)
    requires Counted(v, steps) && steps < U64 - 1
    ensures Counted(OnConfirm(v, choice), steps + 1)
  {
    SaveCounts(v.(pending := None), v.pending, steps);
    RevertCounts(v.(pending := None), v.pending, steps);
  }

  lemma StepCounts(v: Visor, e: Event, steps: nat)
    requires Counted(v, steps) && steps < U64 - 1
    ensures Counted(Step(v, e), steps + 1)
  {
    match e
    case Answer(reply) => AnswerCounts(v, reply, steps);
    case Request(action) => RequestCounts(v, action, steps);
    case Confirm(choice) => ConfirmCounts(v, choice, steps);
    case SaveBar => SaveCounts(v, None, steps);
    case RevertBar => RevertCounts(v, None, steps);
    case SessionEnds => ApplyCounted(v.(session := None, known := v.known.(app := map[])), Close, steps);
    case Closes => ApplyCounted(v, Close, steps);
    case ContactsLink => ApplyCounted(v, Show(Contacts), steps);
    case SharePrompt => ApplyCounted(v, Show(Sharing), steps);
    case Type(_, _) =>
    case RefreshBegins =>
    case RefreshLands(_) =>
    case SessionOpens(_) =>
    case Learns(_) =>
    case StatusWritten =>
    case BootLands(_) =>
  }

  lemma {:induction false} RunCounts(glyph: string -> string, events: seq<Event>)
    requires |events| < U64
    ensures Counted(Run(glyph, events), |events|)
    decreases |events|
  {
    if events != [] {
      RunCounts(glyph, events[..|events| - 1]);
      StepCounts(Run(glyph, events[..|events| - 1]), events[|events| - 1], |events| - 1);
    }
  }

  /** Once anything has moved the drawer, the boot's own choice for it is dropped; and only
    * then: an untouched drawer gets it. */
  lemma {:induction false} BootYields(glyph: string -> string, events: seq<Event>, facts: Facts)
    requires |events| < U64 && Run(glyph, events).boot.Some?
    ensures var v := Run(glyph, events);
            && OnBootLands(v, Some(facts)).drawer == (if v.touched then v.drawer else BootShows(facts))
            && OnBootLands(v, None).drawer == v.drawer && OnBootLands(v, Some(facts)).boot.None?
    ensures Run(glyph, events).touched <==> EverMoves(glyph, events)
  {
    RunCounts(glyph, events);
    BootChooses(Run(glyph, events), facts, |events|);
    TouchedExactlyWhen(glyph, events);
  }

  lemma BootChooses(v: Visor, facts: Facts, steps: nat)
    requires Counted(v, steps) && v.boot.Some?
    ensures OnBootLands(v, Some(facts)).drawer == (if v.touched then v.drawer else BootShows(facts))
    ensures OnBootLands(v, None).drawer == v.drawer && OnBootLands(v, Some(facts)).boot.None?
  {
  }

  /** A transition takes place, or the boot's choice does. */
  predicate Moves(v: Visor, e: Event) {
    Takes(v, e).Some? || (e.BootLands? && e.facts.Some? && v.boot == Some(v.drawerGate))
  }

  ghost predicate EverMoves(glyph: string -> string, events: seq<Event>)
    decreases |events|
  {
    events != [] && (EverMoves(glyph, events[..|events| - 1])
                     || Moves(Run(glyph, events[..|events| - 1]), events[|events| - 1]))
  }

  lemma {:induction false} TouchedExactlyWhen(glyph: string -> string, events: seq<Event>)
    ensures Run(glyph, events).touched <==> EverMoves(glyph, events)
    decreases |events|
  {
    if events != [] {
      TouchedExactlyWhen(glyph, events[..|events| - 1]);
      StepTouches(Run(glyph, events[..|events| - 1]), events[|events| - 1]);
    }
  }

  lemma StepTouches(v: Visor, e: Event)
    ensures Step(v, e).touched <==> v.touched || Moves(v, e)
  {
    match e
    case Answer(reply) => AnswerTouches(v, reply);
    case Request(_) =>
    case Confirm(_) =>
    case SessionEnds =>
    case Closes =>
    case ContactsLink =>
    case SharePrompt =>
    case BootLands(_) =>
    case Type(_, _) =>
    case SaveBar =>
    case RevertBar =>
    case RefreshBegins =>
    case RefreshLands(_) =>
    case SessionOpens(_) =>
    case Learns(_) =>
    case StatusWritten =>
  }

  lemma AnswerTouches(v: Visor, r: Reply)
    ensures OnAnswer(v, r).touched <==> v.touched || Takes(v, Answer(r)).Some?
  {
    if IsSaving(v) && !Commits(v, r) { AnswerAdvances(v, r); }
  }

  /** What a refresh under way must not be applied across: a save's beginning or end, any
    * other write to the device, a transition. */
  predicate Overtakes(v: Visor, e: Event) {
    || Begins(v, e) || (e.Answer? && Commits(v, e.reply)) || e.StatusWritten?
    || e.SessionEnds? || e.Closes? || e.ContactsLink? || (e.SharePrompt? && v.pending.None?)
    || (e.Request? && v.pending.None? && !IsSaving(v) && Clean(v))
    || (e == Confirm(ToRevert) && v.pending.Some? && !IsSaving(v))
  }

  predicate Overtaken(v: Visor) {
    v.refresh.Some? && (v.refresh.value.status < v.statusGate || v.refresh.value.drawer < v.drawerGate)
  }

  lemma OvertakenNow(v: Visor, e: Event, steps: nat)
    requires Counted(v, steps) && steps < U64 - 1 && v.refresh.Some? && Overtakes(v, e)
    ensures Overtaken(Step(v, e))
  {
    match e
    case Answer(reply) => CommitCounts(v, v.edit.save.value, reply.latest.value);
    case SessionEnds => ApplyCounts(v.(session := None, known := v.known.(app := map[])), Close);
    case Confirm(ToRevert) => ApplyCounts(v.(pending := None, edit := v.edit.(draft := v.edit.seed)), v.pending.value);
    case _ =>
  }

  /** No step puts a gate back or replaces the token of a refresh under way but its landing. */
  lemma GatesOnlyRise(v: Visor, e: Event, steps: nat)
    requires Counted(v, steps) && steps < U64 - 1 && v.refresh.Some? && !e.RefreshLands?
    ensures var u := Step(v, e);
            u.refresh == v.refresh && v.statusGate <= u.statusGate && v.drawerGate <= u.drawerGate
  {
    match e
    case Answer(reply) => if Commits(v, reply) { CommitCounts(v, v.edit.save.value, reply.latest.value); }
    case Request(action) => ApplyCounts(v, action);
    case Confirm(choice) => ConfirmRises(v, choice);
    case SessionEnds => ApplyCounts(v.(session := None, known := v.known.(app := map[])), Close);
    case Closes => ApplyCounts(v, Close);
    case ContactsLink => ApplyCounts(v, Show(Contacts));
    case SharePrompt => ApplyCounts(v, Show(Sharing));
    case SaveBar =>
    case RevertBar =>
    case Type(_, _) =>
    case RefreshBegins =>
    case SessionOpens(_) =>
    case Learns(_) =>
    case StatusWritten =>
    case BootLands(_) =>
  }

  lemma ConfirmRises(v: Visor, choice: Choice)
    requires v.drawerGate < U64 - 1 && v.statusGate < U64 - 1
    ensures var u := OnConfirm(v, choice);
            u.refresh == v.refresh && v.statusGate <= u.statusGate && v.drawerGate <= u.drawerGate
  {
    if v.pending.Some? {
      ApplyCounts(v.(pending := None, edit := v.edit.(draft := v.edit.seed)), v.pending.value);
    }
  }

  lemma OvertakenStays(v: Visor, e: Event, steps: nat)
    requires Counted(v, steps) && steps < U64 - 1 && Overtaken(v) && !e.RefreshLands?
    ensures Overtaken(Step(v, e))
  {
    GatesOnlyRise(v, e, steps);
  }

  lemma OvertakenFirst(glyph: string -> string, before: seq<Event>, e: Event)
    requires |before| + 1 < U64 && Run(glyph, before).refresh.Some? && Overtakes(Run(glyph, before), e)
    ensures Overtaken(Run(glyph, before + [e]))
  {
    Extend(glyph, before, e);
    RunCounts(glyph, before);
    OvertakenNow(Run(glyph, before), e, |before|);
  }

  lemma OvertakenIsIgnored(v: Visor, said: Result<Sheet, string>)
    requires Overtaken(v)
    ensures OnRefreshLands(v, said).edit == v.edit
  {
  }

  /** A refresh under way when a save begins or ends, or the drawer moves, is not applied
    * when it lands, whatever happens in between. */
  lemma {:induction false} RefreshNotAcross(glyph: string -> string, before: seq<Event>, e: Event, after: seq<Event>)
    requires |before| + 1 + |after| < U64
    requires Run(glyph, before).refresh.Some? && Overtakes(Run(glyph, before), e)
    requires forall i | 0 <= i < |after| :: !after[i].RefreshLands?
    ensures Overtaken(Run(glyph, before + [e] + after))
    ensures var v := Run(glyph, before + [e] + after); forall said :: OnRefreshLands(v, said).edit == v.edit
    decreases |after|
  {
    var events := before + [e] + after;
    if after == [] {
      assert events == before + [e];
      OvertakenFirst(glyph, before, e);
    } else {
      var front := after[..|after| - 1];
      var most := before + [e] + front;
      RefreshNotAcross(glyph, before, e, front);
      assert events == most + [after[|after| - 1]];
      Extend(glyph, most, after[|after| - 1]);
      RunCounts(glyph, most);
      OvertakenStays(Run(glyph, most), after[|after| - 1], |most|);
    }
    forall said ensures OnRefreshLands(Run(glyph, events), said).edit == Run(glyph, events).edit {
      OvertakenIsIgnored(Run(glyph, events), said);
    }
  }

  /** The gates stand still exactly while nothing overtakes. */
  lemma GatesMoveExactlyWhen(v: Visor, e: Event, steps: nat)
    requires Counted(v, steps) && steps < U64 - 1
    ensures Overtakes(v, e) <==> Step(v, e).statusGate != v.statusGate || Step(v, e).drawerGate != v.drawerGate
  {
    match e
    case Answer(reply) => if Commits(v, reply) { CommitCounts(v, v.edit.save.value, reply.latest.value); }
    case Request(action) => ApplyCounts(v, action);
    case Confirm(choice) => ConfirmMoves(v, choice);
    case SessionEnds => ApplyCounts(v.(session := None, known := v.known.(app := map[])), Close);
    case Closes => ApplyCounts(v, Close);
    case ContactsLink => ApplyCounts(v, Show(Contacts));
    case SharePrompt => ApplyCounts(v, Show(Sharing));
    case SaveBar =>
    case RevertBar =>
    case Type(_, _) =>
    case RefreshBegins =>
    case RefreshLands(_) =>
    case SessionOpens(_) =>
    case Learns(_) =>
    case StatusWritten =>
    case BootLands(_) =>
  }

  lemma ConfirmMoves(v: Visor, choice: Choice)
    requires v.drawerGate < U64 - 1 && v.statusGate < U64 - 1
    ensures var u := OnConfirm(v, choice);
            Overtakes(v, Confirm(choice)) <==> u.statusGate != v.statusGate || u.drawerGate != v.drawerGate
  {
    if v.pending.Some? {
      ApplyCounts(v.(pending := None, edit := v.edit.(draft := v.edit.seed)), v.pending.value);
    }
  }

  /** No event of `between` overtakes the refresh that began before it. */
  ghost predicate NoneOvertakes(glyph: string -> string, before: seq<Event>, between: seq<Event>)
    decreases |between|
  {
    between == [] || (
      var front := between[..|between| - 1];
      NoneOvertakes(glyph, before, front) && !Overtakes(Run(glyph, before + front), between[|between| - 1]))
  }

  /** The refresh under way began with these. */
  ghost predicate Since(v: Visor, began: Visor) {
    && v.refresh == Some(Refresh(began.statusGate, began.drawerGate, began.session))
    && began.statusGate <= v.statusGate && began.drawerGate <= v.drawerGate
  }

  lemma SinceStep(v: Visor, e: Event, began: Visor, steps: nat)
    requires Counted(v, steps) && steps < U64 - 1 && Since(v, began) && !e.RefreshLands?
    ensures var u := Step(v, e);
            && Since(u, began)
            && (u.statusGate == began.statusGate && u.drawerGate == began.drawerGate <==>
                  v.statusGate == began.statusGate && v.drawerGate == began.drawerGate && !Overtakes(v, e))
  {
    GatesOnlyRise(v, e, steps);
    GatesMoveExactlyWhen(v, e, steps);
  }

  lemma {:induction false} SinceNext(glyph: string -> string, events: seq<Event>, e: Event, began: Visor)
    requires |events| < U64 - 1 && Since(Run(glyph, events), began) && !e.RefreshLands?
    ensures var v, u := Run(glyph, events), Run(glyph, events + [e]);
            && Since(u, began)
            && (u.statusGate == began.statusGate && u.drawerGate == began.drawerGate <==>
                  v.statusGate == began.statusGate && v.drawerGate == began.drawerGate && !Overtakes(v, e))
  {
    RunCounts(glyph, events);
    Extend(glyph, events, e);
    SinceStep(Run(glyph, events), e, began, |events|);
  }

  lemma {:induction false} SinceRun(glyph: string -> string, before: seq<Event>, between: seq<Event>, began: Visor)
    requires |before| + |between| < U64 - 1 && (forall i | 0 <= i < |between| :: !between[i].RefreshLands?)
    requires Since(Run(glyph, before), began)
    requires Run(glyph, before).statusGate == began.statusGate && Run(glyph, before).drawerGate == began.drawerGate
    ensures var u := Run(glyph, before + between);
            && Since(u, began)
            && (u.statusGate == began.statusGate && u.drawerGate == began.drawerGate <==>
                  NoneOvertakes(glyph, before, between))
    decreases |between|
  {
    if between == [] {
      assert before + between == before;
    } else {
      var front, e := between[..|between| - 1], between[|between| - 1];
      SinceRun(glyph, before, front, began);
      SinceNext(glyph, before + front, e, began);
      assert before + between == before + front + [e];
    }
  }

  /** A refresh is applied when it lands exactly if nothing overtook it since it began and
    * the session is the one that ran then; otherwise it begins again. */
  lemma {:induction false} RefreshAppliesExactlyWhen(glyph: string -> string, before: seq<Event>,
                                                     between: seq<Event>, news: Sheet)
    requires |before| + |between| < U64 - 2 && Run(glyph, before).refresh.None?
    requires forall i | 0 <= i < |between| :: !between[i].RefreshLands?
    ensures var began := before + [RefreshBegins];
            var v := Run(glyph, began + between); var u := OnRefreshLands(v, Ok(news));
            if NoneOvertakes(glyph, began, between) && v.session == Run(glyph, before).session then
              u.refresh.None? && u.statusKnown && u.known == if v.session.None? then news.(app := map[]) else news
            else u == v.(refresh := Some(Refresh(v.statusGate, v.drawerGate, v.session)))
  {
    var began := before + [RefreshBegins];
    RefreshTaken(glyph, before);
    SinceRun(glyph, began, between, Run(glyph, before));
    AppliesIfStill(Run(glyph, began + between), Run(glyph, before), news);
  }

  lemma RefreshTaken(glyph: string -> string, before: seq<Event>)
    requires Run(glyph, before).refresh.None?
    ensures var v, u := Run(glyph, before), Run(glyph, before + [RefreshBegins]);
            Since(u, v) && u.statusGate == v.statusGate && u.drawerGate == v.drawerGate
  {
    Extend(glyph, before, RefreshBegins);
  }

  lemma AppliesIfStill(v: Visor, began: Visor, news: Sheet)
    requires Since(v, began)
    ensures var u := OnRefreshLands(v, Ok(news));
            if v.statusGate == began.statusGate && v.drawerGate == began.drawerGate && v.session == began.session then
              u.refresh.None? && u.statusKnown && u.known == if v.session.None? then news.(app := map[]) else news
            else u == v.(refresh := Some(Refresh(v.statusGate, v.drawerGate, v.session)))
  {
  }

  // ---- Where it goes wrong -----------------------------------------------

  lemma Extend(glyph: string -> string, events: seq<Event>, e: Event)
    ensures Run(glyph, events + [e]) == Step(Run(glyph, events), e)
  {
    assert (events + [e])[..|events|] == events;
  }

  function Accepts(latest: Sheet): Event {
    Answer(Reply(true, Ok(map[]), Ok(latest)))
  }

  /** The save `e` has under way has gone well so far. */
  ghost predicate GoesWell(glyph: string -> string, events: seq<Event>, e: Edit, stage: Stage) {
    var u := Run(glyph, events).edit;
    && u.save.Some? && e.save.Some? && u.draft == e.draft && u.seed == e.seed && u.typed == e.typed
    && u.save.value.stage == stage && !u.save.value.failed && u.save.value.was == e.save.value.was
    && u.save.value.now == e.save.value.now && u.save.value.app == e.save.value.app
    && u.save.value.after == e.save.value.after
  }

  lemma StagePasses(glyph: string -> string, events: seq<Event>, e: Edit, stage: Stage, latest: Sheet)
    requires GoesWell(glyph, events, e, stage) && stage != AtReads
    ensures GoesWell(glyph, events + [Accepts(latest)], e, NextStage(stage))
  {
    Extend(glyph, events, Accepts(latest));
    AnswerHolds(Run(glyph, events), Accepts(latest).reply);
  }

  function FourAccepted(latest: Sheet): seq<Event> {
    var a := Accepts(latest);
    [a] + [a] + [a] + [a]
  }

  lemma StagesPass(glyph: string -> string, events: seq<Event>, e: Edit, latest: Sheet)
    requires GoesWell(glyph, events, e, AtName)
    ensures GoesWell(glyph, events + FourAccepted(latest), e, AtReads)
  {
    var a := Accepts(latest);
    var e1 := events + [a];
    var e2 := e1 + [a];
    var e3 := e2 + [a];
    StagePasses(glyph, events, e, AtName, latest);
    StagePasses(glyph, e1, e, AtHue, latest);
    StagePasses(glyph, e2, e, AtUser, latest);
    StagePasses(glyph, e3, e, AtApp, latest);
    assert events + FourAccepted(latest) == e3 + [a];
  }

  lemma SaveEnds(glyph: string -> string, events: seq<Event>, e: Edit, latest: Sheet)
    requires GoesWell(glyph, events, e, AtName) && e.save.value.after.None? && e.save.value.app.Some?
    ensures var u := Run(glyph, events + FourAccepted(latest) + [Accepts(latest)]).edit;
            && u.draft == Rebased(latest, e.save.value.now, e.draft) && u.seed == latest
            && u.save.None? && u.typed == e.typed
  {
    var most := events + FourAccepted(latest);
    StagesPass(glyph, events, e, latest);
    Extend(glyph, most, Accepts(latest));
    AnswerCommits(Run(glyph, most), Accepts(latest).reply);
  }

  /** A name typed while an app runs, and a save of it begun. */
  function NameSaving(app: Running, name: string): seq<Event> {
    [SessionOpens(app)] + [Type(Name, Text(name))] + [SaveBar]
  }

  lemma NameIsSaving(glyph: string -> string, app: Running, name: string)
    requires name != ""
    ensures var v := Run(glyph, NameSaving(app, name)); var now := EMPTY.(name := name);
            && v.edit.draft == now && v.edit.seed == EMPTY && v.edit.typed.Keys == {Name}
            && v.edit.save == Some(Save(EMPTY, now, Some(app.app), None, AtName, false, []))
            && v.refresh == None && v.session == Some(app) && v.glyph == glyph
  {
    var e1 := [SessionOpens(app)];
    var e2 := e1 + [Type(Name, Text(name))];
    assert [] + [SessionOpens(app)] == e1;
    Extend(glyph, [], SessionOpens(app));
    Extend(glyph, e1, Type(Name, Text(name)));
    Extend(glyph, e2, SaveBar);
  }

  lemma StaleHueArrives(v: Visor, name: string, hue: nat)
    requires v.edit.draft == EMPTY.(name := name) && v.edit.seed == EMPTY && v.refresh == None && v.session.Some?
    ensures var u := Step(Step(v, RefreshBegins), RefreshLands(Ok(EMPTY.(hue := hue))));
            && u.edit.draft == EMPTY.(name := name, hue := hue) && u.edit.typed == v.edit.typed
            && u.edit.save == v.edit.save && u.edit.seed == EMPTY.(hue := hue)
  {
    var said := EMPTY.(hue := hue);
    RebaseOfSame(map[], map[]);
    assert Normal(v.glyph, said) == said;
  }

  /** A refresh applied inside a save leaves a hue nobody typed reading as unsaved, at a
    * value the kernel no longer holds. */
  lemma RefreshInSaveLeavesAStaleField(glyph: string -> string, app: Running, name: string, hue: nat, later: nat)
    requires name != "" && hue != 0 && later != hue
    ensures var latest := EMPTY.(name := name, hue := later);
            var events := NameSaving(app, name) + [RefreshBegins] + [RefreshLands(Ok(EMPTY.(hue := hue)))]
                          + FourAccepted(latest) + [Accepts(latest)];
            var e := Run(glyph, events).edit;
            e.seed == latest && e.draft.hue == hue && Differs(e.draft, e.seed, Hue) && Hue !in e.typed
  {
    var latest := EMPTY.(name := name, hue := later);
    var said := EMPTY.(hue := hue);
    var e3 := NameSaving(app, name);
    var e4 := e3 + [RefreshBegins];
    var e5 := e4 + [RefreshLands(Ok(said))];
    NameIsSaving(glyph, app, name);
    Extend(glyph, e3, RefreshBegins);
    Extend(glyph, e4, RefreshLands(Ok(said)));
    StaleHueArrives(Run(glyph, e3), name, hue);
    SaveEnds(glyph, e5, Run(glyph, e5).edit, latest);
  }

  /** A name's save under way, a refresh that brings another hue, and the old one typed back. */
  function HueTypedBack(app: Running, name: string, hue: nat): seq<Event> {
    NameSaving(app, name) + [RefreshBegins] + [RefreshLands(Ok(EMPTY.(hue := hue)))] + [Type(Hue, Angle(0))]
  }

  lemma HueIsTypedBack(glyph: string -> string, app: Running, name: string, hue: nat)
    requires name != "" && hue != 0
    ensures var e := Run(glyph, HueTypedBack(app, name, hue)).edit; var now := EMPTY.(name := name);
            && e.draft == now && e.seed == EMPTY.(hue := hue)
            && e.save == Some(Save(EMPTY, now, Some(app.app), None, AtName, false, []))
            && Hue in e.typed && e.typed[Hue].value == Some(Angle(0))
  {
    var e3 := NameSaving(app, name);
    var e4 := e3 + [RefreshBegins];
    var e5 := e4 + [RefreshLands(Ok(EMPTY.(hue := hue)))];
    NameIsSaving(glyph, app, name);
    Extend(glyph, e3, RefreshBegins);
    Extend(glyph, e4, RefreshLands(Ok(EMPTY.(hue := hue))));
    StaleHueArrives(Run(glyph, e3), name, hue);
    Extend(glyph, e5, Type(Hue, Angle(0)));
  }

  /** A hue the user typed while a save was out, over what a refresh brought, is taken for
    * untouched if it is what the save had found: it reads as unsaved until the save ends,
    * and then the sheet is clean and shows the kernel's. Nothing was reverted. */
  lemma TypedBackIsOverlooked(glyph: string -> string, app: Running, name: string, hue: nat, latest: Sheet)
    requires name != "" && hue != 0 && latest.hue != 0
    ensures var events := HueTypedBack(app, name, hue) + FourAccepted(latest);
            var v := Run(glyph, events); var e := Run(glyph, events + [Accepts(latest)]).edit;
            && Differs(v.edit.draft, v.edit.seed, Hue) && v.edit.draft.hue == 0
            && Hue in v.edit.typed && v.edit.typed[Hue].value == Some(Angle(0))
            && Overlooked(v, Accepts(latest).reply, Hue)
            && e.draft == e.seed == latest && !e.discarded
  {
    var events := HueTypedBack(app, name, hue);
    var was := Run(glyph, events).edit;
    HueIsTypedBack(glyph, app, name, hue);
    StagesPass(glyph, events, was, latest);
    SaveEnds(glyph, events, was, latest);
    SeedingDiscardsNothing(glyph, events + FourAccepted(latest) + [Accepts(latest)]);
    RebaseOfSame(latest.user, was.draft.user);
    RebaseOfSame(latest.app, was.draft.app);
  }

  const PETNAME: string := "petname"

  ghost predicate PetnameLeft(v: Visor, app: string, petname: string) {
    && v.edit.draft == EMPTY.(app := map[PETNAME := petname]) && v.edit.seed == EMPTY
    && v.edit.save.None? && v.pending.None? && v.edit.made == map[] && v.drawer != Open(Settings)
    && App(PETNAME) in v.edit.typed && v.edit.typed[App(PETNAME)].app == Some(app)
  }

  function PetnameTyped(a: Running, petname: string): seq<Event> {
    [SessionOpens(a)] + [Closes] + [Request(Show(AppInfo))] + [Type(App(PETNAME), Text(petname))]
  }

  lemma PetnameIsLeft(glyph: string -> string, a: Running, petname: string)
    requires petname != ""
    ensures PetnameLeft(Run(glyph, PetnameTyped(a, petname)), a.app, petname)
  {
    var e1 := [SessionOpens(a)];
    var e2 := e1 + [Closes];
    var e3 := e2 + [Request(Show(AppInfo))];
    assert [] + [SessionOpens(a)] == e1;
    Extend(glyph, [], SessionOpens(a));
    Extend(glyph, e1, Closes);
    Extend(glyph, e2, Request(Show(AppInfo)));
    Extend(glyph, e3, Type(App(PETNAME), Text(petname)));
  }

  lemma PetnameStays(v: Visor, e: Event, app: string, petname: string)
    requires PetnameLeft(v, app, petname) && (e.SessionEnds? || e.SessionOpens? || e.Closes?)
    ensures PetnameLeft(Step(v, e), app, petname)
  {
  }

  /** The user asks for Settings, and Save is what the dialog is answered. */
  lemma PetnameSent(v: Visor, app: string, petname: string)
    requires PetnameLeft(v, app, petname) && petname != ""
    ensures var e := Step(Step(v, Request(Show(Settings))), Confirm(ToSave)).edit;
            && e.save == Some(Save(EMPTY, v.edit.draft, AppOf(v.session), Some(Show(Settings)), AtName, false, []))
            && e.draft == v.edit.draft && e.seed == EMPTY && e.typed == v.edit.typed
            && ChangesOf(EMPTY.app, v.edit.draft.app) == map[PETNAME := Some(petname)]
  {
    var u := Step(v, Request(Show(Settings)));
    assert PETNAME in v.edit.draft.app && PETNAME !in v.edit.seed.app;
    assert u == v.(pending := Some(Show(Settings)));
    assert Normal(v.glyph, v.edit.draft) == v.edit.draft;
  }

  /** A label typed for one app, left unsaved when it ended, is sent to the app that runs
    * when the dialog's Save is pressed: nothing reseeds the labels when the app changes. */
  lemma LabelSentToAnotherApp(glyph: string -> string, a: Running, b: Running, petname: string)
    requires a.app != b.app && petname != ""
    ensures var events := PetnameCarried(a, b, petname) + [Request(Show(Settings))] + [Confirm(ToSave)];
            var e := Run(glyph, events).edit;
            && e.save.Some? && e.save.value.app == Some(b.app)
            && ChangesOf(e.save.value.was.app, e.save.value.now.app) == map[PETNAME := Some(petname)]
            && App(PETNAME) in e.typed && e.typed[App(PETNAME)].app == Some(a.app)
  {
    var e7 := PetnameCarried(a, b, petname);
    PetnameIsCarried(glyph, a, b, petname);
    Extend(glyph, e7, Request(Show(Settings)));
    Extend(glyph, e7 + [Request(Show(Settings))], Confirm(ToSave));
    PetnameSent(Run(glyph, e7), a.app, petname);
  }

  function PetnameCarried(a: Running, b: Running, petname: string): seq<Event> {
    PetnameTyped(a, petname) + [SessionEnds] + [SessionOpens(b)] + [Closes]
  }

  lemma PetnameIsCarried(glyph: string -> string, a: Running, b: Running, petname: string)
    requires petname != ""
    ensures var v := Run(glyph, PetnameCarried(a, b, petname)); PetnameLeft(v, a.app, petname) && v.session == Some(b)
  {
    var e4 := PetnameTyped(a, petname);
    var e5 := e4 + [SessionEnds];
    var e6 := e5 + [SessionOpens(b)];
    PetnameIsLeft(glyph, a, petname);
    Extend(glyph, e4, SessionEnds);
    PetnameStays(Run(glyph, e4), SessionEnds, a.app, petname);
    Extend(glyph, e5, SessionOpens(b));
    PetnameStays(Run(glyph, e5), SessionOpens(b), a.app, petname);
    Extend(glyph, e6, Closes);
    PetnameStays(Run(glyph, e6), Closes, a.app, petname);
  }

  function PetnameStranded(a: Running, petname: string): seq<Event> {
    PetnameTyped(a, petname) + [SessionEnds] + [Request(Show(Settings))] + [Confirm(ToSave)]
  }

  lemma StrandedIsSaving(glyph: string -> string, a: Running, petname: string)
    requires petname != ""
    ensures var e := Run(glyph, PetnameStranded(a, petname)).edit; var now := EMPTY.(app := map[PETNAME := petname]);
            e.save == Some(Save(EMPTY, now, None, Some(Show(Settings)), AtName, false, [])) && e.draft == now
  {
    var e4 := PetnameTyped(a, petname);
    var e5 := e4 + [SessionEnds];
    var e6 := e5 + [Request(Show(Settings))];
    PetnameIsLeft(glyph, a, petname);
    Extend(glyph, e4, SessionEnds);
    PetnameStays(Run(glyph, e4), SessionEnds, a.app, petname);
    Extend(glyph, e5, Request(Show(Settings)));
    Extend(glyph, e6, Confirm(ToSave));
    PetnameSent(Run(glyph, e5), a.app, petname);
  }

  /** The same label, with no app running when Save is pressed: the save makes no call at
    * all, ends well, and leaves the sheet clean and the label gone. Nothing was reverted. */
  lemma LabelDroppedUnsent(glyph: string -> string, a: Running, petname: string, latest: Sheet)
    requires petname != ""
    ensures var events := PetnameStranded(a, petname) + FourAccepted(latest);
            var v := Run(glyph, events); var e := Run(glyph, events + [Accepts(latest)]).edit;
            && Commits(v, Accepts(latest).reply) && v.edit.save.value.sent == []
            && v.edit.draft.app == map[PETNAME := petname]
            && e.draft == e.seed && e.draft.app == map[] && !e.discarded
  {
    var events := PetnameStranded(a, petname);
    StrandedIsSaving(glyph, a, petname);
    StagesPass(glyph, events, Run(glyph, events).edit, latest);
    DroppedAtTheEnd(glyph, events + FourAccepted(latest), petname, latest);
  }

  lemma DroppedAtTheEnd(glyph: string -> string, events: seq<Event>, petname: string, latest: Sheet)
    requires var v := Run(glyph, events);
             && v.edit.save.Some? && v.edit.draft == EMPTY.(app := map[PETNAME := petname])
             && v.edit.save.value.was == EMPTY && v.edit.save.value.now == v.edit.draft
             && v.edit.save.value.app == None && v.edit.save.value.after == Some(Show(Settings))
             && v.edit.save.value.stage == AtReads && !v.edit.save.value.failed
    ensures Run(glyph, events).edit.save.value.sent == []
    ensures var e := Run(glyph, events + [Accepts(latest)]).edit;
            e.draft == e.seed && e.draft.app == map[] && !e.discarded
  {
    var v := Run(glyph, events);
    var s, r := v.edit.save.value, Accepts(latest).reply;
    RunSends(glyph, events);
    Extend(glyph, events, Accepts(latest));
    SeedingDiscardsNothing(glyph, events + [Accepts(latest)]);
    AnswerCommits(v, r);
    RebaseOfSame(latest.user, v.edit.draft.user);
    RebaseOfSame(map[], v.edit.draft.app);
    assert Rebased(Latest(s, r), s.now, v.edit.draft) == Latest(s, r);
  }

  /** A glyph the kernel holds that is not its own first grapheme, as a save leaves it. */
  lemma RawGlyphArrives(glyph: string -> string, a: Running, name: string, raw: string)
    requires name != ""
    ensures var latest := EMPTY.(name := name, user := map[GLYPH := raw]);
            var v := Run(glyph, NameSaving(a, name) + FourAccepted(latest) + [Accepts(latest)]);
            v.edit.draft == v.edit.seed == latest && v.edit.save.None? && v.edit.typed.Keys == {Name}
  {
    var latest := EMPTY.(name := name, user := map[GLYPH := raw]);
    var e3 := NameSaving(a, name);
    NameIsSaving(glyph, a, name);
    SaveEnds(glyph, e3, Run(glyph, e3).edit, latest);
    RebaseOfSame(latest.user, Run(glyph, e3).edit.draft.user);
    RebaseOfSame(latest.app, Run(glyph, e3).edit.draft.app);
  }

  /** A save seeds the sheet with the kernel's values as they are, so the next one sends a
    * glyph the user never touched, exactly when the kernel's was not a single grapheme. */
  lemma UntouchedGlyphSent(glyph: string -> string, a: Running, first: string, second: string, raw: string)
    requires first != "" && first != second && raw != ""
    ensures var latest := EMPTY.(name := first, user := map[GLYPH := raw]);
            var events := NameSaving(a, first) + FourAccepted(latest) + [Accepts(latest)] + [Type(Name, Text(second))];
            var e := Run(glyph, events + [SaveBar]).edit;
            && User(GLYPH) !in e.typed && e.save.Some?
            && (GLYPH in ChangesOf(e.save.value.was.user, e.save.value.now.user) <==> glyph(raw) != raw)
  {
    var latest := EMPTY.(name := first, user := map[GLYPH := raw]);
    var e5 := NameSaving(a, first) + FourAccepted(latest) + [Accepts(latest)];
    var e6 := e5 + [Type(Name, Text(second))];
    RawGlyphArrives(glyph, a, first, raw);
    Extend(glyph, e5, Type(Name, Text(second)));
    Extend(glyph, e6, SaveBar);
    RunGlyph(glyph, e6);
    UntouchedSentExactlyWhen(Run(glyph, e6), None, User(GLYPH));
  }

  lemma {:induction false} RunGlyph(glyph: string -> string, events: seq<Event>)
    ensures Run(glyph, events).glyph == glyph
    decreases |events|
  {
    if events != [] {
      RunGlyph(glyph, events[..|events| - 1]);
      StepKeepsGlyph(Run(glyph, events[..|events| - 1]), events[|events| - 1]);
    }
  }

  // ---- The code ----------------------------------------------------------

  class Chrome {
    const glyph: string -> string
    var draft: Sheet
    var seed: Sheet
    var save: Option<Save>
    var known: Sheet
    var statusKnown: bool
    var session: Option<Running>
    var drawer: Drawer
    var pending: Option<Action>
    var statusGate: Gate
    var drawerGate: Gate
    var refresh: Option<Refresh>
    var boot: Option<Gate>
    ghost var typed: map<Field, Owned>
    ghost var made: map<Field, Made>
    ghost var discarded: bool
    ghost var touched: bool

    ghost function State(): Visor
      reads this
    {
      Visor(glyph, Edit(draft, seed, save, typed, made, discarded), known, statusKnown, session, drawer, pending,
            statusGate, drawerGate, refresh, boot, touched)
    }

    constructor (firstGrapheme: string -> string)
      ensures State() == Init(firstGrapheme)
    {
      glyph := firstGrapheme;
      draft, seed, save, known, statusKnown := EMPTY, EMPTY, None, EMPTY, false;
      session, drawer, pending, statusGate, drawerGate := None, Closed, None, 0, 0;
      refresh, boot := None, Some(0);
      typed, made, discarded, touched := map[], map[], false, false;
    }

    method TypeIn(field: Field, value: Value)
      requires Suits(field, value)
      modifies this
      ensures State() == Step(old(State()), Type(field, value))
    {
      match field {
        case Name => draft := draft.(name := value.text);
        case Hue => draft := draft.(hue := value.hue);
        case User(key) => draft := draft.(user := SetField(draft.user, key, value.text));
        case App(key) => draft := draft.(app := SetField(draft.app, key, value.text));
      }
      typed := typed[field := Owned(Get(draft, field), AppOf(session))];
      made := made - {field};
    }

    method BeginRefresh()
      modifies this
      ensures State() == OnRefreshBegins(old(State()))
    {
      if refresh.None? {
        refresh := Some(Refresh(statusGate, drawerGate, session));
      }
    }

    method Reseed()
      modifies this
      ensures State() == SeedDraft(old(State()))
    {
      var next := Normal(glyph, known);
      discarded := discarded || draft != seed;
      seed := next;
      draft := next;
    }

    method Transition(action: Action)
      modifies this
      ensures State() == Apply(old(State()), action)
    {
      drawerGate := Bump(drawerGate);
      touched := true;
      var from := drawer;
      drawer := Reduce(drawer, action, session.None?);
      if drawer == from {
        return;
      }
      if drawer == Open(Settings) || drawer == Open(AppInfo) {
        Reseed();
      }
    }

    method Ask(action: Action)
      modifies this
      ensures State() == OnRequest(old(State()), action)
    {
      if pending.Some? || save.Some? {
        return;
      }
      if draft != seed {
        pending := Some(action);
      } else {
        Transition(action);
      }
    }

    method StartSave(after: Option<Action>)
      modifies this
      ensures State() == SaveNow(old(State()), after)
    {
      if save.Some? {
        return;
      }
      var app := if session.Some? then Some(session.value.app) else None;
      var was := seed;
      var now := draft.(user := NormalMeta(glyph, draft.user), app := NormalMeta(glyph, draft.app));
      made := made + NewlyMade(State().edit, now, app);
      draft := now;
      statusGate := Bump(statusGate);
      save := Some(Save(was, now, app, after, AtName, false, []));
    }

    method Revert(after: Option<Action>)
      modifies this
      ensures State() == RevertNow(old(State()), after)
    {
      if save.Some? {
        return;
      }
      draft := seed;
      if after.Some? {
        Transition(after.value);
      }
    }

    method AnswerDialog(choice: Choice)
      modifies this
      ensures State() == OnConfirm(old(State()), choice)
    {
      if pending.None? {
        return;
      }
      var action := pending;
      pending := None;
      match choice
      case ToSave => StartSave(action);
      case ToRevert => Revert(action);
      case ToCancel =>
    }

    /** The kernel's answer to the call a stage made, if it made one. */
    method HearCall(r: Reply)
      requires save.Some? && save.value.stage != AtReads
      modifies this
      ensures State() == OnAnswer(old(State()), r)
    {
      var s := save.value;
      if Went(s, r) && Tried(s) != [] {
        match s.stage
        case AtName => if statusKnown { known := known.(name := s.now.name); }
        case AtHue => if statusKnown { known := known.(hue := s.now.hue); }
        case AtUser => known := known.(user := r.user.value);
        case _ =>
      }
      save := Some(Progress(s, r));
    }

    /** The three reads a save ends with. */
    method ShowSaved(s: Save, news: Sheet)
      modifies this
      ensures State() == Committed(old(State()), s, news)
    {
      var latest := news;
      if s.app.None? {
        latest := latest.(app := map[]);
      }
      var rebased := RebaseDraft(latest, s.now, draft);
      known := latest;
      statusKnown := true;
      seed := latest;
      draft := rebased;
      statusGate := Bump(statusGate);
      save := None;
    }

    method FinishSave(r: Reply)
      requires save.Some? && save.value.stage == AtReads
      modifies this
      ensures State() == OnAnswer(old(State()), r)
    {
      var s := save.value;
      if s.failed || r.latest.Err? {
        save := None;
        return;
      }
      ShowSaved(s, r.latest.value);
      if s.after.Some? && draft == seed {
        Transition(s.after.value);
      }
    }

    method LandRefresh(said: Result<Sheet, string>)
      requires refresh.Some?
      modifies this
      ensures State() == OnRefreshLands(old(State()), said)
    {
      var r := refresh.value;
      if statusGate != r.status || drawerGate != r.drawer || session != r.session {
        refresh := Some(Refresh(statusGate, drawerGate, session));
        return;
      }
      refresh := None;
      if said.Err? {
        return;
      }
      var news := said.value;
      if session.None? {
        news := news.(app := map[]);
      }
      ShowFresh(news);
    }

    method ShowFresh(news: Sheet)
      modifies `known, `statusKnown, `seed, `draft
      ensures known == news && statusKnown && seed == Normal(glyph, news)
      ensures draft == Rebased(Normal(glyph, news), old(seed), old(draft))
    {
      var normal := Normal(glyph, news);
      var rebased := RebaseDraft(normal, seed, draft);
      known := news;
      statusKnown := true;
      seed := normal;
      draft := rebased;
    }

    method EndSession()
      modifies this
      ensures State() == OnSessionEnds(old(State()))
    {
      session := None;
      known := known.(app := map[]);
      Transition(Close);
    }

    method LandBoot(facts: Option<Facts>)
      requires boot.Some?
      modifies this
      ensures State() == OnBootLands(old(State()), facts)
    {
      var token := boot.value;
      boot := None;
      if drawerGate != token {
        return;
      }
      if facts.Some? {
        drawer := BootShows(facts.value);
        touched := true;
      }
    }
  }
}
