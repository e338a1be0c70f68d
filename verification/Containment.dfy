/** The check that no class contains itself by value, on the graph of class-typed members. */
module Containment {

  /** A member variable of a built-in type, or of a class, which it contains by value. */
  datatype Member = BuiltIn | OfClass(c: nat)

  /** The member variables of each class, in the order they are declared. */
  type Classes = cs: seq<seq<Member>> | WellFormed(cs) witness []

  predicate WellFormed(cs: seq<seq<Member>>) {
    forall c, i | 0 <= c < |cs| && 0 <= i < |cs[c]| && cs[c][i].OfClass? :: cs[c][i].c < |cs|
  }

  predicate Contains(cs: Classes, c: nat, m: nat) {
    c < |cs| && OfClass(m) in cs[c]
  }

  predicate NoRepeat(p: seq<nat>) {
    forall i, j | 0 <= i < j < |p| :: p[i] != p[j]
  }

  /** Each class of the list contains the next one. */
  predicate Walk(cs: Classes, p: seq<nat>) {
    p != [] && p[0] < |cs| && forall i | 0 <= i < |p| - 1 :: Contains(cs, p[i], p[i + 1])
  }

  /** The parents of a nested check. */
  predicate Parents(cs: Classes, ps: seq<nat>) {
    NoRepeat(ps) && forall p <- ps :: p < |cs|
  }

  function Elements(p: seq<nat>): set<nat> { set x | x in p }

  lemma {:induction false} NoRepeatSize(p: seq<nat>)
    requires NoRepeat(p)
    ensures |Elements(p)| == |p|
    decreases p
  {
    if p != [] {
      NoRepeatSize(p[1..]);
      assert forall i | 1 <= i < |p| :: p[i] == p[1..][i - 1];
      assert Elements(p) == {p[0]} + Elements(p[1..]);
    }
  }

  function Numbers(n: nat): (s: set<nat>)
    ensures |s| == n && forall x: nat :: x in s <==> x < n
    decreases n
  {
    if n == 0 then {} else Numbers(n - 1) + {n - 1}
  }

  lemma Cardinality(a: set<nat>, b: set<nat>)
    requires a <= b
    ensures |a| <= |b| && (a < b ==> |a| < |b|)
  {
    assert b == a + (b - a);
  }

  /** The list of parents is bounded by the number of classes: this is why the check ends. */
  lemma ParentsBounded(cs: Classes, ps: seq<nat>)
    requires Parents(cs, ps)
    ensures |ps| <= |cs|
  {
    NoRepeatSize(ps);
    Cardinality(Elements(ps), Numbers(|cs|));
  }

  /** Result of the check of class `c` below `ps`: no member is one of the parents, nor is any member of a member. */
  ghost predicate MemberLoop(cs: Classes, c: nat, ps: seq<nat>)
    requires c < |cs| && Parents(cs, ps)
    decreases |cs| - |ps|
  {
    ParentsBounded(cs, ps);
    forall m: nat | Contains(cs, c, m) :: m !in ps && (ParentsBounded(cs, ps + [m]); MemberLoop(cs, m, ps + [m]))
  }

  /** Walk `q` is fine below `ps`: behind its first class it neither repeats a class nor meets a parent. */
  predicate Fine(q: seq<nat>, ps: seq<nat>) {
    q != [] && NoRepeat(q[1..]) && forall x <- q[1..] :: x !in ps
  }

  lemma {:induction false} LoopFreeWalks(cs: Classes, c: nat, ps: seq<nat>, q: seq<nat>)
    requires c < |cs| && Parents(cs, ps) && MemberLoop(cs, c, ps) && Walk(cs, q) && q[0] == c
    ensures Fine(q, ps)
    decreases |q|
  {
    if |q| > 1 {
      var r := q[1..];
      assert Contains(cs, q[0], q[1]);
      ParentsBounded(cs, ps + [q[1]]);
      assert Walk(cs, r) by {
        assert forall i | 0 <= i < |r| - 1 :: Contains(cs, q[i + 1], q[i + 2]) ==> Contains(cs, r[i], r[i + 1]);
      }
      LoopFreeWalks(cs, q[1], ps + [q[1]], r);
      forall i, j | 0 <= i < j < |r|
        ensures r[i] != r[j] && r[j] !in ps
      {
        assert r[1..][j - 1] == r[j] && r[j] in r[1..];
        assert i > 0 ==> r[1..][i - 1] == r[i];
      }
    }
  }

  lemma {:induction false} LoopHasWalk(cs: Classes, c: nat, ps: seq<nat>) returns (q: seq<nat>)
    requires c < |cs| && Parents(cs, ps) && !MemberLoop(cs, c, ps)
    ensures Walk(cs, q) && q[0] == c && !Fine(q, ps)
    decreases |cs| - |ps|
  {
    ParentsBounded(cs, ps);
    var m: nat :| Contains(cs, c, m) && (m in ps || (m !in ps && !MemberLoop(cs, m, ps + [m])));
    if m in ps {
      q := [c, m];
      assert q[1..][0] == m;
    } else {
      ParentsBounded(cs, ps + [m]);
      var r := LoopHasWalk(cs, m, ps + [m]);
      q := [c] + r;
      assert q[1..] == r && forall i | 1 <= i < |r| :: r[1..][i - 1] == r[i];
    }
  }

  /** A class from which a class that contains itself can be reached. */
  ghost predicate ReachesCycle(cs: Classes, c: nat) {
    exists q :: Walk(cs, q) && q[0] == c && !NoRepeat(q)
  }

  /** A walk that comes back to its start goes around once more. */
  lemma AroundAgain(cs: Classes, q: seq<nat>) returns (r: seq<nat>)
    requires Walk(cs, q) && !NoRepeat(q)
    ensures Walk(cs, r) && r[0] == q[0] && !NoRepeat(r[1..])
  {
    var i, j :| 0 <= i < j < |q| && q[i] == q[j];
    if i > 0 {
      r := q;
      assert r[1..][i - 1] == r[1..][j - 1];
    } else {
      r := q[..j + 1] + [q[1]];
      assert forall k | 0 <= k <= j :: r[k] == q[k];
      assert r[1..][0] == r[1..][j] == q[1];
    }
  }

  /** The check of a class succeeds exactly when no cycle can be reached from it. */
  lemma CheckIsExact(cs: Classes, c: nat)
    requires c < |cs|
    ensures MemberLoop(cs, c, []) <==> !ReachesCycle(cs, c)
  {
    if MemberLoop(cs, c, []) {
      if ReachesCycle(cs, c) {
        var q :| Walk(cs, q) && q[0] == c && !NoRepeat(q);
        var r := AroundAgain(cs, q);
        LoopFreeWalks(cs, c, [], r);
      }
    } else {
      var q := LoopHasWalk(cs, c, []);
      var i, j :| 0 <= i < j < |q[1..]| && q[1..][i] == q[1..][j];
      assert q[i + 1] == q[j + 1];
    }
  }

  /** Sizes are well-founded: there is a rank that every member is below. */
  ghost predicate Ranks(cs: Classes, rank: seq<nat>) {
    |rank| == |cs| && forall c: nat, m: nat | Contains(cs, c, m) :: rank[m] < rank[c]
  }

  lemma {:induction false} RankFalls(cs: Classes, rank: seq<nat>, q: seq<nat>, i: nat, j: nat)
    requires Ranks(cs, rank) && Walk(cs, q) && i < j < |q|
    ensures q[i] < |cs| && q[j] < |cs| && rank[q[j]] < rank[q[i]]
    decreases j
  {
    assert Contains(cs, q[j - 1], q[j]);
    if j > i + 1 {
      RankFalls(cs, rank, q, i, j - 1);
    }
  }

  /** The classes a class contains, directly or not. */
  ghost function Inside(cs: Classes, c: nat): set<nat> {
    set d: nat | d < |cs| && IsInside(cs, c, d)
  }

  ghost predicate IsInside(cs: Classes, c: nat, d: nat) {
    exists q :: Walk(cs, q) && |q| > 1 && q[0] == c && q[|q|-1] == d
  }

  lemma InsideItself(cs: Classes, m: nat)
    requires IsInside(cs, m, m)
    ensures ReachesCycle(cs, m)
  {
    var q :| Walk(cs, q) && |q| > 1 && q[0] == m && q[|q|-1] == m;
    assert !NoRepeat(q);
  }

  lemma InsideShrinks(cs: Classes, c: nat, m: nat)
    requires Contains(cs, c, m) && !ReachesCycle(cs, m)
    ensures Inside(cs, m) < Inside(cs, c)
  {
    forall d | d in Inside(cs, m)
      ensures d in Inside(cs, c)
    {
      var q :| Walk(cs, q) && |q| > 1 && q[0] == m && q[|q|-1] == d;
      var r := [c] + q;
      assert forall i | 0 <= i < |q| :: r[i + 1] == q[i];
      assert Walk(cs, r);
    }
    assert Walk(cs, [c, m]);
    assert m in Inside(cs, c);
    if IsInside(cs, m, m) {
      InsideItself(cs, m);
    }
  }

  ghost predicate AllPass(cs: Classes) {
    forall c: nat | c < |cs| :: MemberLoop(cs, c, [])
  }

  /** All classes pass if and only if the sizes of structs are well-founded. */
  lemma AllPassExactlyWhenRanked(cs: Classes)
    ensures AllPass(cs) <==> exists rank :: Ranks(cs, rank)
  {
    if AllPass(cs) {
      var rank := seq(|cs|, c requires 0 <= c < |cs| => |Inside(cs, c)|);
      forall c: nat, m: nat | Contains(cs, c, m)
        ensures rank[m] < rank[c]
      {
        assert MemberLoop(cs, m, []);
        CheckIsExact(cs, m);
        InsideShrinks(cs, c, m);
        Cardinality(Inside(cs, m), Inside(cs, c));
      }
      assert Ranks(cs, rank);
    }
    if exists rank :: Ranks(cs, rank) {
      var rank :| Ranks(cs, rank);
      forall c: nat | c < |cs|
        ensures MemberLoop(cs, c, [])
      {
        RankedPasses(cs, rank, c);
      }
    }
  }

  lemma RankedPasses(cs: Classes, rank: seq<nat>, c: nat)
    requires Ranks(cs, rank) && c < |cs|
    ensures MemberLoop(cs, c, [])
  {
    CheckIsExact(cs, c);
    if ReachesCycle(cs, c) {
      var q :| Walk(cs, q) && q[0] == c && !NoRepeat(q);
      var i, j :| 0 <= i < j < |q| && q[i] == q[j];
      RankFalls(cs, rank, q, i, j);
    }
  }

  /** Check class `c`; a member that is one of its parents ends the check at once. */
  method CheckClassDeclMemberLoop(cs: Classes, c: nat, parents: seq<nat>) returns (ok: bool)
    requires c < |cs| && Parents(cs, parents)
    ensures ok == MemberLoop(cs, c, parents)
    decreases |cs| - |parents|
  {
    ParentsBounded(cs, parents);
    ok := true;
    for i := 0 to |cs[c]|
      invariant ok ==> forall m: nat | OfClass(m) in cs[c][..i] :: m !in parents && MemberLoop(cs, m, parents + [m])
      invariant !ok ==> !MemberLoop(cs, c, parents)
    {
      if cs[c][i].OfClass? {
        var m := cs[c][i].c;
        assert Contains(cs, c, m);
        if m in parents {
          return false;
        }
        ParentsBounded(cs, parents + [m]);
        var memberOk := CheckClassDeclMemberLoop(cs, m, parents + [m]);
        ok := ok && memberOk;
      }
    }
    assert cs[c][..|cs[c]|] == cs[c];
  }
}
