/** What a personalization sheet holds and how it is carried over newer values: `rebase_map`
  * of visor/src/draft.rs, and `set_field`, `rebase_draft` and `meta_patch` of visor/src/ui.rs. */
module Draft {
  import opened Wrappers

  type Meta = map<string, string>

  function Lookup(m: Meta, key: string): Option<string> {
    if key in m then Some(m[key]) else None
  }

  /** Two maps with the same answer for every key are the same map. */
  lemma SameAnswers(m: Meta, n: Meta)
    requires forall key: string :: Lookup(m, key) == Lookup(n, key)
    ensures m == n
  {
    forall key: string ensures key in m <==> key in n {
      assert Lookup(m, key) == Lookup(n, key);
    }
    forall key | key in m ensures m[key] == n[key] {
      assert Lookup(m, key) == Lookup(n, key);
    }
  }

  /** An emptied field has no key: clearing and never having set are the same draft. */
  function SetField(meta: Meta, key: string, value: string): (r: Meta)
    ensures Lookup(r, key) == if value == "" then None else Some(value)
    ensures forall other | other != key :: Lookup(r, other) == Lookup(meta, other)
  {
    if value == "" then meta - {key} else meta[key := value]
  }

  // ---- Three-way merge ---------------------------------------------------

  predicate Changed(baseline: Meta, current: Meta, key: string) {
    Lookup(baseline, key) != Lookup(current, key)
  }

  /** Every key the user changed keeps the user's answer, every other the latest. */
  function Rebase(latest: Meta, baseline: Meta, current: Meta): (r: Meta)
    ensures forall key: string :: Lookup(r, key) ==
              if Changed(baseline, current, key) then Lookup(current, key) else Lookup(latest, key)
  {
    map key | key in latest.Keys + current.Keys && key in (if Changed(baseline, current, key) then current else latest)
      :: if Changed(baseline, current, key) then current[key] else latest[key]
  }

  method RebaseMap(latest: Meta, baseline: Meta, current: Meta) returns (rebased: Meta)
    ensures rebased == Rebase(latest, baseline, current)
  {
    rebased := latest;
    var keys := baseline.Keys + current.Keys;
    while keys != {}
      invariant keys <= baseline.Keys + current.Keys
      invariant forall key: string :: Lookup(rebased, key) ==
                  if Changed(baseline, current, key) && key !in keys then Lookup(current, key) else Lookup(latest, key)
      decreases keys
    {
      var key :| key in keys;
      keys := keys - {key};
      if Changed(baseline, current, key) {
        if key in current {
          rebased := rebased[key := current[key]];
        } else {
          rebased := rebased - {key};
        }
      }
    }
    SameAnswers(rebased, Rebase(latest, baseline, current));
  }

  /** Two refreshes in a row carry a draft as the later one alone would, exactly when no
    * edit was met by the first remote value and left by the second. */
  lemma TwoRefreshes(first: Meta, second: Meta, baseline: Meta, current: Meta)
    ensures Rebase(second, first, Rebase(first, baseline, current)) == Rebase(second, baseline, current)
       <==> forall key: string | Changed(baseline, current, key) && Lookup(first, key) == Lookup(current, key) ::
              Lookup(second, key) == Lookup(current, key)
  {
    var once := Rebase(second, baseline, current);
    var twice := Rebase(second, first, Rebase(first, baseline, current));
    if forall key: string | Changed(baseline, current, key) && Lookup(first, key) == Lookup(current, key) ::
         Lookup(second, key) == Lookup(current, key)
    {
      forall key: string ensures Lookup(twice, key) == Lookup(once, key) {
      }
      SameAnswers(twice, once);
    } else {
      var key: string :| Changed(baseline, current, key) && Lookup(first, key) == Lookup(current, key)
                         && Lookup(second, key) != Lookup(current, key);
      assert Lookup(twice, key) != Lookup(once, key);
    }
  }

  // ---- Patches -----------------------------------------------------------

  type Patch = seq<(string, Option<string>)>

  /** What the kernel makes of a patch. */
  function ApplyPatch(meta: Meta, patch: Patch): (r: Meta)
    decreases |patch|
  {
    if patch == [] then meta
    else
      var (key, value) := patch[|patch| - 1];
      var before := ApplyPatch(meta, patch[..|patch| - 1]);
      if value.Some? then before[key := value.value] else before - {key}
  }

  /** Each changed key once, with its new answer, in any order. */
  ghost predicate IsPatch(before: Meta, after: Meta, patch: Patch) {
    && (forall i, j | 0 <= i < j < |patch| :: patch[i].0 != patch[j].0)
    && (forall i | 0 <= i < |patch| :: Changed(before, after, patch[i].0) && patch[i].1 == Lookup(after, patch[i].0))
    && (forall key | Changed(before, after, key) :: exists i :: 0 <= i < |patch| && patch[i].0 == key)
  }

  method MetaPatch(before: Meta, after: Meta) returns (patch: Patch)
    ensures IsPatch(before, after, patch)
  {
    patch := [];
    var keys := before.Keys + after.Keys;
    while keys != {}
      invariant keys <= before.Keys + after.Keys
      invariant forall i, j | 0 <= i < j < |patch| :: patch[i].0 != patch[j].0
      invariant forall i | 0 <= i < |patch| ::
                  patch[i].0 !in keys && Changed(before, after, patch[i].0) && patch[i].1 == Lookup(after, patch[i].0)
      invariant forall key | Changed(before, after, key) && key !in keys ::
                  exists i :: 0 <= i < |patch| && patch[i].0 == key
      decreases keys
    {
      var key :| key in keys;
      keys := keys - {key};
      if Changed(before, after, key) {
        ghost var had := patch;
        patch := patch + [(key, Lookup(after, key))];
        assert patch[|had|].0 == key;
        assert forall i | 0 <= i < |had| :: patch[i] == had[i];
      }
    }
  }

  lemma {:induction false} PatchAnswers(meta: Meta, patch: Patch, key: string)
    requires forall i, j | 0 <= i < j < |patch| :: patch[i].0 != patch[j].0
    ensures forall i | 0 <= i < |patch| && patch[i].0 == key :: Lookup(ApplyPatch(meta, patch), key) == patch[i].1
    ensures (forall i | 0 <= i < |patch| :: patch[i].0 != key) ==>
              Lookup(ApplyPatch(meta, patch), key) == Lookup(meta, key)
    decreases |patch|
  {
    if patch != [] {
      var front := patch[..|patch| - 1];
      PatchAnswers(meta, front, key);
    }
  }

  /** Patching the latest map with the user's changes is rebasing the draft over it: what
    * Save sends and what a refresh shows agree. */
  lemma PatchIsRebase(latest: Meta, baseline: Meta, current: Meta, patch: Patch)
    requires IsPatch(baseline, current, patch)
    ensures ApplyPatch(latest, patch) == Rebase(latest, baseline, current)
  {
    forall key: string ensures Lookup(ApplyPatch(latest, patch), key) == Lookup(Rebase(latest, baseline, current), key) {
      PatchAnswers(latest, patch, key);
    }
    SameAnswers(ApplyPatch(latest, patch), Rebase(latest, baseline, current));
  }

  // ---- The whole draft ---------------------------------------------------

  datatype Sheet = Sheet(name: string, hue: nat, user: Meta, app: Meta)

  const EMPTY: Sheet := Sheet("", 0, map[], map[])

  datatype Field = Name | Hue | User(key: string) | App(key: string)

  datatype Value = Text(text: string) | Angle(hue: nat)

  function Get(s: Sheet, f: Field): Option<Value> {
    match f
    case Name => Some(Text(s.name))
    case Hue => Some(Angle(s.hue))
    case User(key) => if key in s.user then Some(Text(s.user[key])) else None
    case App(key) => if key in s.app then Some(Text(s.app[key])) else None
  }

  predicate Differs(a: Sheet, b: Sheet, f: Field) {
    Get(a, f) != Get(b, f)
  }

  lemma SameFields(a: Sheet, b: Sheet)
    ensures a == b <==> forall f: Field :: Get(a, f) == Get(b, f)
  {
    if forall f: Field :: Get(a, f) == Get(b, f) {
      assert Get(a, Name) == Get(b, Name) && Get(a, Hue) == Get(b, Hue);
      forall key: string ensures Lookup(a.user, key) == Lookup(b.user, key) && Lookup(a.app, key) == Lookup(b.app, key) {
        assert Get(a, User(key)) == Get(b, User(key)) && Get(a, App(key)) == Get(b, App(key));
      }
      SameAnswers(a.user, b.user);
      SameAnswers(a.app, b.app);
    }
  }

  function Rebased(latest: Sheet, baseline: Sheet, current: Sheet): Sheet {
    Sheet(if current.name != baseline.name then current.name else latest.name,
          if current.hue != baseline.hue then current.hue else latest.hue,
          Rebase(latest.user, baseline.user, current.user),
          Rebase(latest.app, baseline.app, current.app))
  }

  method RebaseDraft(latest: Sheet, baseline: Sheet, current: Sheet) returns (rebased: Sheet)
    ensures rebased == Rebased(latest, baseline, current)
  {
    rebased := latest;
    if current.name != baseline.name {
      rebased := rebased.(name := current.name);
    }
    if current.hue != baseline.hue {
      rebased := rebased.(hue := current.hue);
    }
    var user := RebaseMap(rebased.user, baseline.user, current.user);
    var app := RebaseMap(rebased.app, baseline.app, current.app);
    rebased := rebased.(user := user, app := app);
  }

  /** Field by field: what the user changed is kept, the rest follows the latest. */
  lemma RebasedField(latest: Sheet, baseline: Sheet, current: Sheet, f: Field)
    ensures Get(Rebased(latest, baseline, current), f) ==
            if Differs(baseline, current, f) then Get(current, f) else Get(latest, f)
  {
    match f
    case Name =>
    case Hue =>
    case User(key) =>
      var r := Rebase(latest.user, baseline.user, current.user);
      assert Lookup(r, key) ==
             if Changed(baseline.user, current.user, key) then Lookup(current.user, key) else Lookup(latest.user, key);
    case App(key) =>
      var r := Rebase(latest.app, baseline.app, current.app);
      assert Lookup(r, key) ==
             if Changed(baseline.app, current.app, key) then Lookup(current.app, key) else Lookup(latest.app, key);
  }
}
