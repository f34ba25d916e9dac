/** Minimal set of test targets: targets that another target already contains are dropped. */
module Targets {

  function Slashes(path: string): nat {
    if path == "" then 0 else Slashes(path[..|path| - 1]) + if path[|path| - 1] == '/' then 1 else 0
  }

  /** The directory `parent` properly contains `target`. */
  predicate Ancestor(parent: string, target: string) { parent + "/" <= target }

  /** The test the loop makes of one selected parent. */
  predicate Under(target: string, parent: string) { target == parent || Ancestor(parent, target) }

  /** Code-point order of strings. */
  predicate TextBefore(a: string, b: string) {
    b != "" && (a == "" || a[0] < b[0] || (a[0] == b[0] && TextBefore(a[1..], b[1..])))
  }

  /** The order of the sort key: fewer slashes first, then by text. */
  predicate Before(a: string, b: string) {
    Slashes(a) < Slashes(b) || (Slashes(a) == Slashes(b) && TextBefore(a, b))
  }

  predicate HasAncestor(targets: set<string>, t: string) {
    exists p :: p in targets && Ancestor(p, t)
  }

  /** The targets that no other target contains. */
  predicate Top(targets: set<string>, t: string) { t in targets && !HasAncestor(targets, t) }

  // ---- Order ------------------------------------------------------------------------------------

  lemma {:induction false} TextTotal(a: string, b: string)
    ensures a == b || TextBefore(a, b) || TextBefore(b, a)
  {
    if a != "" && b != "" && a[0] == b[0] {
      TextTotal(a[1..], b[1..]);
      if a[1..] == b[1..] {
        assert a == [a[0]] + a[1..] && b == [b[0]] + b[1..];
      }
    }
  }

  lemma {:induction false} TextTransitive(a: string, b: string, c: string)
    requires TextBefore(a, b) && TextBefore(b, c)
    ensures TextBefore(a, c)
  {
    if a != "" && b != "" && a[0] == b[0] == c[0] {
      TextTransitive(a[1..], b[1..], c[1..]);
    }
  }

  lemma {:induction false} TextIrreflexive(a: string)
    ensures !TextBefore(a, a)
  {
    if a != "" {
      TextIrreflexive(a[1..]);
    }
  }

  lemma BeforeTransitive(a: string, b: string, c: string)
    requires Before(a, b) && Before(b, c)
    ensures Before(a, c)
  {
    if Slashes(a) == Slashes(b) == Slashes(c) {
      TextTransitive(a, b, c);
    }
  }

  lemma BeforeAsymmetric(a: string, b: string)
    requires Before(a, b)
    ensures !Before(b, a) && a != b
  {
    if Before(b, a) || a == b {
      if a == b {
        TextIrreflexive(a);
      } else {
        BeforeTransitive(a, b, a);
        TextIrreflexive(a);
      }
    }
  }

  lemma {:induction false} SlashesConcat(a: string, b: string)
    ensures Slashes(a + b) == Slashes(a) + Slashes(b)
  {
    if b == "" {
      assert a + b == a;
    } else {
      assert (a + b)[..|a + b| - 1] == a + b[..|b| - 1];
      SlashesConcat(a, b[..|b| - 1]);
    }
  }

  /** A directory has fewer slashes than anything in it, so the sort visits it first. */
  lemma AncestorBefore(p: string, t: string)
    requires Ancestor(p, t)
    ensures Slashes(p) < Slashes(t) && Before(p, t) && p != t
  {
    var rest := t[|p| + 1..];
    assert t == (p + "/") + rest;
    SlashesConcat(p + "/", rest);
    SlashesConcat(p, "/");
    assert "/"[..0] == "";
    assert Slashes("/") == 1;
  }

  lemma AncestorTransitive(q: string, p: string, t: string)
    requires Ancestor(q, p) && Ancestor(p, t)
    ensures Ancestor(q, t)
  {
    assert p + "/" == t[..|p| + 1];
    assert p == t[..|p|];
    assert q + "/" == p[..|q| + 1];
  }

  /** Every target is contained in a target that no target contains. */
  lemma {:induction false} TopAbove(targets: set<string>, t: string) returns (top: string)
    requires t in targets
    ensures Top(targets, top) && Under(t, top)
    decreases Slashes(t)
  {
    if p :| p in targets && Ancestor(p, t) {
      AncestorBefore(p, t);
      top := TopAbove(targets, p);
      if top != p {
        AncestorTransitive(top, p, t);
      }
    } else {
      top := t;
    }
  }

  // ---- The minimal cover ------------------------------------------------------------------------

  predicate Antichain(chosen: set<string>) {
    forall a, b :: a in chosen && b in chosen ==> !Ancestor(a, b)
  }

  predicate CoversAll(chosen: set<string>, targets: set<string>) {
    forall t :: t in targets ==> exists p :: p in chosen && Under(t, p)
  }

  function Tops(targets: set<string>): set<string> { set t | t in targets && !HasAncestor(targets, t) }

  lemma TopsCover(targets: set<string>)
    ensures Tops(targets) <= targets && Antichain(Tops(targets)) && CoversAll(Tops(targets), targets)
  {
    forall t | t in targets ensures exists p :: p in Tops(targets) && Under(t, p) {
      var top := TopAbove(targets, t);
    }
  }

  lemma TopIsChosen(chosen: set<string>, targets: set<string>, t: string)
    requires chosen <= targets && CoversAll(chosen, targets) && Top(targets, t)
    ensures t in chosen
  {
    var p :| p in chosen && Under(t, p);
    assert p in targets && !Ancestor(p, t);
  }

  lemma ChosenIsTop(chosen: set<string>, targets: set<string>, t: string, q: string)
    requires Antichain(chosen) && CoversAll(chosen, targets) && t in chosen && q in targets
    ensures !Ancestor(q, t)
  {
    var r :| r in chosen && Under(q, r);
    assert !Ancestor(r, t);
    if Ancestor(q, t) && r != q {
      AncestorTransitive(r, q, t);
    }
  }

  /** There is only one way to cover all targets by targets none of which contains another. */
  lemma CoverUnique(chosen: set<string>, targets: set<string>)
    requires chosen <= targets && Antichain(chosen) && CoversAll(chosen, targets)
    ensures chosen == Tops(targets)
  {
    hide Antichain, CoversAll, Ancestor;
    forall t | t in targets ensures t in chosen <==> !HasAncestor(targets, t) {
      if !HasAncestor(targets, t) {
        TopIsChosen(chosen, targets, t);
      } else if t in chosen {
        var q :| q in targets && Ancestor(q, t);
        ChosenIsTop(chosen, targets, t, q);
      }
    }
  }

  // ---- The loop ---------------------------------------------------------------------------------

  predicate Sorted(s: seq<string>) {
    forall i, k :: 0 <= i < k < |s| ==> Before(s[i], s[k])
  }

  predicate Least(rest: set<string>, t: string) {
    t in rest && forall u :: u in rest && u != t ==> Before(t, u)
  }

  lemma {:induction false} LeastExists(rest: set<string>) returns (t: string)
    requires rest != {}
    ensures Least(rest, t)
    decreases rest
  {
    var x :| x in rest;
    if rest == {x} {
      t := x;
    } else {
      assert exists y :: y in rest && y != x;
      var y := LeastExists(rest - {x});
      TextTotal(x, y);
      if Before(y, x) {
        t := y;
      } else {
        t := x;
        forall u | u in rest && u != x ensures Before(x, u) {
          if u != y {
            BeforeTransitive(x, y, u);
          }
        }
      }
    }
  }

  /** sorted(targets, key=(slashes, text)). */
  method SortTargets(targets: set<string>) returns (ordered: seq<string>)
    ensures Sorted(ordered)
    ensures forall t :: t in ordered <==> t in targets
  {
    ordered := [];
    var rest := targets;
    while rest != {}
      invariant rest <= targets
      invariant forall t :: t in ordered <==> t in targets && t !in rest
      invariant forall i, u :: 0 <= i < |ordered| && u in rest ==> Before(ordered[i], u)
      invariant Sorted(ordered)
      decreases rest
    {
      ghost var least := LeastExists(rest);
      var t :| t in rest && forall u :: u in rest && u != t ==> Before(t, u);
      ordered := ordered + [t];
      rest := rest - {t};
    }
  }

  /** _minimize_targets: keeps, in sorted order, exactly the targets that no other target contains. */
  method MinimizeTargets(targets: set<string>) returns (selected: seq<string>)
    ensures forall t :: t in selected <==> Top(targets, t)
    ensures Sorted(selected)
  {
    var ordered := SortTargets(targets);
    selected := [];
    var n := 0;
    while n < |ordered|
      invariant 0 <= n <= |ordered|
      invariant forall t :: t in selected <==> t in ordered[..n] && Top(targets, t)
      invariant Sorted(selected)
    {
      var target := ordered[n];
      assert ordered[..n + 1] == ordered[..n] + [target];
      assert target in targets;
      var covered := exists k :: 0 <= k < |selected| && Under(target, selected[k]);
      if covered {
        ghost var k :| 0 <= k < |selected| && Under(target, selected[k]);
        assert selected[k] in selected;
        NotTwice(ordered, n, selected[k]);
        assert HasAncestor(targets, target);
      } else {
        if !Top(targets, target) {
          ContainedIsCovered(targets, ordered, n, selected);
        }
        SortedMore(ordered, n, selected);
        selected := selected + [target];
      }
      n := n + 1;
    }
    assert ordered[..|ordered|] == ordered;
  }

  lemma NotTwice(ordered: seq<string>, n: nat, t: string)
    requires Sorted(ordered) && n < |ordered| && t in ordered[..n]
    ensures t != ordered[n] && Before(t, ordered[n])
  {
    var i :| 0 <= i < n && ordered[..n][i] == t;
    BeforeAsymmetric(ordered[i], ordered[n]);
  }

  /** A target that another one contains is under a selected one: its topmost container came earlier. */
  lemma ContainedIsCovered(targets: set<string>, ordered: seq<string>, n: nat, selected: seq<string>)
    requires Sorted(ordered) && n < |ordered| && forall t :: t in ordered <==> t in targets
    requires forall t :: t in selected <==> t in ordered[..n] && Top(targets, t)
    requires !Top(targets, ordered[n])
    ensures exists k :: 0 <= k < |selected| && Under(ordered[n], selected[k])
  {
    assert ordered[n] in targets;
    var top := TopAbove(targets, ordered[n]);
    AncestorBefore(top, ordered[n]);
    assert top in ordered;
    var i :| 0 <= i < |ordered| && ordered[i] == top;
    BeforeAsymmetric(top, ordered[n]);
    assert i < n && ordered[..n][i] == top;
    assert top in selected;
    var k :| 0 <= k < |selected| && selected[k] == top;
  }

  lemma SortedMore(ordered: seq<string>, n: nat, selected: seq<string>)
    requires Sorted(ordered) && n < |ordered| && Sorted(selected) && forall t :: t in selected ==> t in ordered[..n]
    ensures Sorted(selected + [ordered[n]])
  {
    forall i | 0 <= i < |selected| ensures Before(selected[i], ordered[n]) {
      NotTwice(ordered, n, selected[i]);
    }
  }
}
