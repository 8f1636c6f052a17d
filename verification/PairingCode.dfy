/** How a pairing code is shown and read back: `grouped` and `claim_code` of
  * visor/src/state.rs. */
module PairingCode {
  import opened Wrappers

  /** Unicode's `White_Space` characters. */
  predicate IsSpace(c: char) {
    var u := c as int;
    || 0x9 <= u <= 0xD || u == 0x20 || u == 0x85 || u == 0xA0 || u == 0x1680 || 0x2000 <= u <= 0x200A
    || u == 0x2028 || u == 0x2029 || u == 0x202F || u == 0x205F || u == 0x3000
  }

  /** The 25 of them, in order (PropList.txt of Unicode 16). */
  const SPACES: seq<int> :=
    [0x9, 0xA, 0xB, 0xC, 0xD, 0x20, 0x85, 0xA0, 0x1680, 0x2000, 0x2001, 0x2002, 0x2003, 0x2004, 0x2005, 0x2006,
     0x2007, 0x2008, 0x2009, 0x200A, 0x2028, 0x2029, 0x202F, 0x205F, 0x3000]

  lemma SpacesAre(c: char)
    ensures IsSpace(c) <==> c as int in SPACES
  {
  }

  function Squeeze(s: string): (r: string)
    ensures forall c | c in r :: !IsSpace(c)
  {
    if s == "" then ""
    else Squeeze(s[..|s| - 1]) + if IsSpace(s[|s| - 1]) then "" else [s[|s| - 1]]
  }

  lemma {:induction false} SqueezeLeaves(s: string)
    ensures Squeeze(s) == s <==> forall c | c in s :: !IsSpace(c)
  {
    if s != "" {
      var front, last := s[..|s| - 1], s[|s| - 1];
      SqueezeLeaves(front);
      assert s == front + [last];
      if !IsSpace(last) {
        assert Squeeze(s) == Squeeze(front) + [last];
        assert Squeeze(s) == s ==> Squeeze(s)[..|s| - 1] == front;
      } else {
        assert last in s && forall c | c in Squeeze(s) :: !IsSpace(c);
      }
    }
  }

  /** White space goes and the rest stays, piece by piece. */
  lemma {:induction false} SqueezeAppends(s: string, t: string)
    ensures Squeeze(s + t) == Squeeze(s) + Squeeze(t)
    ensures |s| == 1 ==> Squeeze(s) == if s[0] as int in SPACES then "" else s
    decreases |t|
  {
    if |s| == 1 {
      SpacesAre(s[0]);
      assert s[..0] == "" && [s[0]] == s;
    }
    if t == "" {
      assert s + t == s;
    } else {
      var front := t[..|t| - 1];
      SqueezeAppends(s, front);
      assert (s + t)[..|s + t| - 1] == s + front && (s + t)[|s + t| - 1] == t[|t| - 1];
    }
  }

  function Spaced(code: string): string {
    if code == "" then ""
    else
      var i := |code| - 1;
      Spaced(code[..i]) + (if i > 0 && i % 4 == 0 then " " else "") + [code[i]]
  }

  lemma Regroup(first: string, rest: string, gap: string, last: string)
    ensures first + (" " + rest) + gap + last == first + (" " + (rest + gap + last))
  {
  }

  lemma {:induction false} SpacedAfterFour(code: string, i: nat)
    requires 4 < i == |code| - 1
    ensures Spaced(code[4..]) == Spaced(code[..i][4..]) + (if i % 4 == 0 then " " else "") + [code[i]]
  {
    var rest := code[4..];
    assert rest[..i - 4] == code[..i][4..] && rest[i - 4] == code[i];
  }

  /** Groups of four, one space between them. */
  lemma {:induction false} SpacedInFours(code: string)
    ensures Spaced(code) == if |code| <= 4 then code else code[..4] + (" " + Spaced(code[4..]))
    decreases |code|
  {
    if code != "" {
      var i := |code| - 1;
      var front := code[..i];
      SpacedInFours(front);
      if i == 4 {
        assert front == code[..4];
        assert code[4..] == [code[i]] && code[4..][..0] == "";
      } else if i > 4 {
        SpacedAfterFour(code, i);
        assert front[..4] == code[..4] && front[4..] == code[..i][4..];
        assert Spaced(code) == Spaced(front) + (if i % 4 == 0 then " " else "") + [code[i]];
        Regroup(code[..4], Spaced(front[4..]), if i % 4 == 0 then " " else "", [code[i]]);
      }
    }
  }

  lemma {:induction false} SpacesSqueezeOut(code: string)
    ensures Squeeze(Spaced(code)) == Squeeze(code)
    decreases |code|
  {
    if code != "" {
      var i := |code| - 1;
      SpacesSqueezeOut(code[..i]);
      var front := Spaced(code[..i]);
      var gap := if i > 0 && i % 4 == 0 then " " else "";
      assert (front + gap + [code[i]])[..|front + gap|] == front + gap;
      assert Squeeze(front + gap) == Squeeze(front) by {
        assert gap == " " ==> (front + gap)[..|front|] == front;
        assert gap == "" ==> front + gap == front;
      }
    }
  }

  method Grouped(code: string) returns (out: string)
    ensures out == Spaced(code)
  {
    out := "";
    for i := 0 to |code|
      invariant out == Spaced(code[..i])
    {
      assert code[..i + 1][..i] == code[..i];
      if i > 0 && i % 4 == 0 {
        out := out + " ";
      }
      out := out + [code[i]];
    }
    assert code[..|code|] == code;
  }

  method ClaimCode(typed: string) returns (claim: Option<string>)
    ensures claim == if Squeeze(typed) == "" then None else Some(Squeeze(typed))
  {
    var code := "";
    for i := 0 to |typed|
      invariant code == Squeeze(typed[..i])
    {
      assert typed[..i + 1][..i] == typed[..i];
      if !IsSpace(typed[i]) {
        code := code + [typed[i]];
      }
    }
    assert typed[..|typed|] == typed;
    claim := if code == "" then None else Some(code);
  }

  /** Squeezing a code as it was shown gives the code back, exactly when it has no white
    * space of its own; and what is claimed is always what the bare code would claim. */
  lemma ShownAndClaimed(code: string)
    ensures Squeeze(Spaced(code)) == code <==> forall c | c in code :: !IsSpace(c)
  {
    SpacesSqueezeOut(code);
    SqueezeLeaves(code);
  }
}
