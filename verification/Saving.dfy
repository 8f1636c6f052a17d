/** The kernel calls of one Save (`save_draft`, visor/src/ui.rs), and what they make of
  * the kernel's own values. */
module Saving {
  import opened Wrappers
  import opened Draft

  type Changes = map<string, Option<string>>

  /** What a patch says, whatever its order. */
  function ChangesOf(before: Meta, after: Meta): Changes {
    map key | key in before.Keys + after.Keys && Changed(before, after, key) :: Lookup(after, key)
  }

  function Carry(meta: Meta, changes: Changes): (r: Meta)
    ensures forall key: string :: Lookup(r, key) == if key in changes then changes[key] else Lookup(meta, key)
  {
    (meta - changes.Keys) + map key | key in changes && changes[key].Some? :: changes[key].value
  }

  lemma CarryIsRebase(latest: Meta, before: Meta, after: Meta)
    ensures Carry(latest, ChangesOf(before, after)) == Rebase(latest, before, after)
  {
    forall key: string
      ensures Lookup(Carry(latest, ChangesOf(before, after)), key) == Lookup(Rebase(latest, before, after), key)
    {
      assert key in ChangesOf(before, after) <==> Changed(before, after, key);
    }
    SameAnswers(Carry(latest, ChangesOf(before, after)), Rebase(latest, before, after));
  }

  /** A patch list and the changes it lists do the same to any map. */
  lemma PatchCarries(meta: Meta, before: Meta, after: Meta, patch: Patch)
    requires IsPatch(before, after, patch)
    ensures ApplyPatch(meta, patch) == Carry(meta, ChangesOf(before, after))
  {
    PatchIsRebase(meta, before, after, patch);
    CarryIsRebase(meta, before, after);
  }

  // ---- The kernel's values -----------------------------------------------

  datatype Kernel = Kernel(name: string, hue: nat, user: Meta, apps: map<string, Meta>)

  datatype Call =
    | SetName(name: string)
    | SetHue(hue: nat)
    | PatchUser(changes: Changes)
    | PatchApp(app: string, changes: Changes)

  function Labels(k: Kernel, app: string): Meta {
    if app in k.apps then k.apps[app] else map[]
  }

  function View(k: Kernel, app: Option<string>): Sheet {
    Sheet(k.name, k.hue, k.user, if app.Some? then Labels(k, app.value) else map[])
  }

  function Perform(k: Kernel, call: Call): Kernel {
    match call
    case SetName(name) => k.(name := name)
    case SetHue(hue) => k.(hue := hue)
    case PatchUser(changes) => k.(user := Carry(k.user, changes))
    case PatchApp(app, changes) => k.(apps := k.apps[app := Carry(Labels(k, app), changes)])
  }

  function PerformAll(k: Kernel, calls: seq<Call>): Kernel
    decreases |calls|, k, calls
  {
    if calls == [] then k else PerformAll(Perform(k, calls[0]), calls[1..])
  }

  lemma {:induction false} PerformInTurn(k: Kernel, first: seq<Call>, second: seq<Call>)
    ensures PerformAll(k, first + second) == PerformAll(PerformAll(k, first), second)
    decreases |first|
  {
    if first == [] {
      assert first + second == second;
    } else {
      assert (first + second)[1..] == first[1..] + second;
      PerformInTurn(Perform(k, first[0]), first[1..], second);
    }
  }

  // ---- One save's calls --------------------------------------------------

  function NameCalls(was: Sheet, now: Sheet): seq<Call> {
    if now.name != was.name then [SetName(now.name)] else []
  }

  function HueCalls(was: Sheet, now: Sheet): seq<Call> {
    if now.hue != was.hue then [SetHue(now.hue)] else []
  }

  function UserCalls(was: Sheet, now: Sheet): seq<Call> {
    if now.user != was.user then [PatchUser(ChangesOf(was.user, now.user))] else []
  }

  function AppCalls(was: Sheet, now: Sheet, app: Option<string>): seq<Call> {
    if now.app != was.app && app.Some? then [PatchApp(app.value, ChangesOf(was.app, now.app))] else []
  }

  function AllCalls(was: Sheet, now: Sheet, app: Option<string>): seq<Call> {
    NameCalls(was, now) + (HueCalls(was, now) + (UserCalls(was, now) + AppCalls(was, now, app)))
  }

  lemma RebaseOfSame(latest: Meta, baseline: Meta)
    ensures Rebase(latest, baseline, baseline) == latest
  {
    SameAnswers(Rebase(latest, baseline, baseline), latest);
  }

  lemma OneCall(k: Kernel, call: Call)
    ensures PerformAll(k, [call]) == Perform(k, call)
  {
    assert [call][1..] == [];
  }

  lemma NamePerforms(k: Kernel, was: Sheet, now: Sheet)
    ensures PerformAll(k, NameCalls(was, now)) == k.(name := if now.name != was.name then now.name else k.name)
  {
    OneCall(k, SetName(now.name));
  }

  lemma HuePerforms(k: Kernel, was: Sheet, now: Sheet)
    ensures PerformAll(k, HueCalls(was, now)) == k.(hue := if now.hue != was.hue then now.hue else k.hue)
  {
    OneCall(k, SetHue(now.hue));
  }

  lemma UserPerforms(k: Kernel, was: Sheet, now: Sheet)
    ensures PerformAll(k, UserCalls(was, now)) == k.(user := Rebase(k.user, was.user, now.user))
  {
    OneCall(k, PatchUser(ChangesOf(was.user, now.user)));
    CarryIsRebase(k.user, was.user, now.user);
    RebaseOfSame(k.user, was.user);
  }

  lemma AppPerforms(k: Kernel, was: Sheet, now: Sheet, app: string)
    ensures var after := PerformAll(k, AppCalls(was, now, Some(app)));
            && after.name == k.name && after.hue == k.hue && after.user == k.user
            && Labels(after, app) == Rebase(Labels(k, app), was.app, now.app)
            && forall other | other != app :: Labels(after, other) == Labels(k, other)
  {
    OneCall(k, PatchApp(app, ChangesOf(was.app, now.app)));
    CarryIsRebase(Labels(k, app), was.app, now.app);
    RebaseOfSame(Labels(k, app), was.app);
  }

  /** Whatever the kernel holds when a save's calls reach it, they do there what a refresh
    * does to the draft: the user's changes over the kernel's values. Labels go unsent
    * when no app runs, and no other app's labels change. */
  lemma SaveIsRebase(k: Kernel, was: Sheet, now: Sheet, app: Option<string>)
    ensures var after := PerformAll(k, AllCalls(was, now, app));
            && View(after, app) == Rebased(View(k, app), was, if app.Some? then now else now.(app := was.app))
            && forall other | Some(other) != app :: Labels(after, other) == Labels(k, other)
  {
    var k1 := PerformAll(k, NameCalls(was, now));
    var k2 := PerformAll(k1, HueCalls(was, now));
    var k3 := PerformAll(k2, UserCalls(was, now));
    PerformInTurn(k, NameCalls(was, now), HueCalls(was, now) + (UserCalls(was, now) + AppCalls(was, now, app)));
    PerformInTurn(k1, HueCalls(was, now), UserCalls(was, now) + AppCalls(was, now, app));
    PerformInTurn(k2, UserCalls(was, now), AppCalls(was, now, app));
    NamePerforms(k, was, now);
    HuePerforms(k1, was, now);
    UserPerforms(k2, was, now);
    if app.Some? {
      AppPerforms(k3, was, now, app.value);
    } else {
      RebaseOfSame(map[], was.app);
    }
  }
}
