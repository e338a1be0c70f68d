/** What a whole run shows: the same results, faults and extern calls in the source and in every
    lowering of it, and divergence exactly where the source diverges.
 */
module Preservation {
  import opened Lang
  import opened Source
  import opened Machine
  import opened Lowering
  import opened Simulation

  /** Function `f` of the program called with `args`. */
  function RunSource(p: Program, h: Host, f: nat, args: seq<Value>, w: World, fuel: nat): Res<Value> {
    Invoke(p, h, f, args, w, fuel + 1)
  }

  /** The source run ends, as the machine would report it: where a function ends without a return, the machine
      falls off a block. */
  function Observed(r: Res<Value>): Option<Config> {
    match r
    case Ok(v, w) => Some(Halted(v, w))
    case Fault(w) => Some(Faulted(w))
    case FellOff => Some(Wrong)
    case _ => None
  }

  ghost predicate SourceEnds(p: Program, h: Host, f: nat, args: seq<Value>, w: World, r: Config) {
    exists fuel: nat :: Observed(RunSource(p, h, f, args, w, fuel)) == Some(r)
  }

  ghost predicate MachineEnds(m: Module, h: Host, f: nat, args: seq<Value>, w: World, r: Config) {
    !r.Running? && exists n: nat :: Run(m, h, Start(f, args, w), n) == r
  }

  /** No amount of fuel makes the source run stuck; type soundness provides this. */
  ghost predicate Safe(p: Program, h: Host, f: nat, args: seq<Value>, w: World) {
    forall fuel: nat :: RunSource(p, h, f, args, w, fuel) != Stuck
  }

  ghost predicate Callable(p: Program, f: nat, args: seq<Value>) {
    f < |p.funs| && !p.funs[f].isExtern && |args| == |p.funs[f].params|
  }

  /** Forward: each source run is matched, and a source run out of fuel by an equally long machine run. */
  lemma Matches(x: Context, f: nat, args: seq<Value>, w: World, fuel: nat) returns (n: nat)
    requires Ready(x) && Callable(x.p, f, args)
    ensures
      var r, c := RunSource(x.p, x.h, f, args, w, fuel), Run(x.m, x.h, Start(f, args, w), n);
      (Observed(r).Some? ==> c == Observed(r).value) && (r.OutOfFuel? ==> n >= fuel && c.Running?)
  {
    n := SimBody(x, f, args, Empty, w, fuel);
  }

  /** Backward: a machine run that stops after `n` steps stops the way the source does. */
  lemma Reflects(x: Context, f: nat, args: seq<Value>, w: World, n: nat)
    requires Ready(x) && Callable(x.p, f, args) && !Run(x.m, x.h, Start(f, args, w), n).Running?
    ensures var r := RunSource(x.p, x.h, f, args, w, n + 1);
      r == Stuck || Observed(r) == Some(Run(x.m, x.h, Start(f, args, w), n))
  {
    var k := Matches(x, f, args, w, n + 1);
    var r := RunSource(x.p, x.h, f, args, w, n + 1);
    if r.OutOfFuel? {
      RunAdd(x.m, x.h, Start(f, args, w), n, k - n);
      StoppedStays(x.m, x.h, Run(x.m, x.h, Start(f, args, w), n), k - n);
    } else if r != Stuck {
      StopsOnce(x.m, x.h, Start(f, args, w), n, k);
    }
  }

  /** A lowering ends a run exactly as the source does, so it also diverges exactly when the source does. */
  lemma LoweringPreserves(x: Context, f: nat, args: seq<Value>, w: World, r: Config)
    requires Ready(x) && Callable(x.p, f, args) && Safe(x.p, x.h, f, args, w)
    ensures MachineEnds(x.m, x.h, f, args, w, r) <==> SourceEnds(x.p, x.h, f, args, w, r)
  {
    if SourceEnds(x.p, x.h, f, args, w, r) {
      var fuel: nat :| Observed(RunSource(x.p, x.h, f, args, w, fuel)) == Some(r);
      var n := Matches(x, f, args, w, fuel);
    }
    if MachineEnds(x.m, x.h, f, args, w, r) {
      var n: nat :| Run(x.m, x.h, Start(f, args, w), n) == r;
      Reflects(x, f, args, w, n);
      assert RunSource(x.p, x.h, f, args, w, n + 1) != Stuck;
    }
  }

  /** The source lets a function end without a return. */
  ghost predicate FallsOff(p: Program, h: Host, f: nat, args: seq<Value>, w: World) {
    exists fuel: nat :: RunSource(p, h, f, args, w, fuel) == FellOff
  }

  lemma WrongIsFallingOff(p: Program, h: Host, f: nat, args: seq<Value>, w: World)
    ensures SourceEnds(p, h, f, args, w, Wrong) <==> FallsOff(p, h, f, args, w)
  {
    assert forall fuel: nat ::
      Observed(RunSource(p, h, f, args, w, fuel)) == Some(Wrong) <==> RunSource(p, h, f, args, w, fuel) == FellOff;
  }

  /** A run reads an undefined register or cell, takes an unpatched jump or falls off a block if and only if the
      source lets a function end without a return. */
  lemma WrongExactly(x: Context, f: nat, args: seq<Value>, w: World)
    requires Ready(x) && Callable(x.p, f, args) && Safe(x.p, x.h, f, args, w)
    ensures MachineEnds(x.m, x.h, f, args, w, Wrong) <==> FallsOff(x.p, x.h, f, args, w)
  {
    LoweringPreserves(x, f, args, w, Wrong);
    WrongIsFallingOff(x.p, x.h, f, args, w);
  }
}
