/** The compiled script and the source script agree on everything a script can do. */
module Correctness {
  import opened Values
  import opened Source
  import opened Opcodes
  import opened Codegen
  import opened ExprSim
  import opened StmtSim
  import opened Simulation

  /** The halted machine that corresponds to an ending. */
  function Halted(e: Ending): Run
    requires !e.NoAnswer?
  {
    match e
    case Finished(v, st) => Run.Done(v, st)
    case FatalError(st) => Fatal(st)
  }

  /** With any fuel, the machine reaches the script's ending, or is still running after at least that many rounds. */
  lemma ScriptLands(lib: Lib, ss: seq<Stmt>, st: Store, fuel: nat) returns (n: nat)
    ensures var r := Steps(lib, GenScript(ss), Boot(GenScript(ss), st), n);
      var e := RunScript(lib, ss, st, fuel);
      if e.NoAnswer? then r.Running? && n >= fuel else r == Halted(e)
  {
    hide Step, Steps, GenSeq, ExecSeq;
    var x := Ctx(0, 0, 0, -1, []);
    var p := GenScript(ss);
    var c := GenSeq(ss, x);
    var m := Boot(p, st);
    assert p.ops[..|c.ops|] == c.ops && p.loops[..|c.loops|] == c.loops;
    var i := SimSeq(lib, p, ss, x, [], m, fuel);
    n := i;
    var o := ExecSeq(lib, ss, st, fuel);
    if o.Normal? {
      var m1 := LandedAt(lib, p, m, o, |c.ops|, 0, [], i, fuel);
      ReturnStep(lib, p, m1, Const(Long(1)), Long(1));
      StepsOne(lib, p, m1);
      StepsAdd(lib, p, m, i, 1);
      n := i + 1;
    }
  }

  /** A machine that has halted stays as it is, and one still running has not halted before. */
  lemma StepsStay(lib: Lib, p: Program, m: Machine, a: nat, b: nat)
    requires a <= b
    ensures !Steps(lib, p, m, a).Running? ==> Steps(lib, p, m, b) == Steps(lib, p, m, a)
    ensures Steps(lib, p, m, b).Running? ==> Steps(lib, p, m, a).Running?
  {
    hide Step, Steps;
    StepsAdd(lib, p, m, a, b - a);
  }

  /** Whatever the compiled script ends with, the source script ends with, and conversely. */
  lemma SameEndings(lib: Lib, ss: seq<Stmt>, st: Store, e: Ending)
    requires !e.NoAnswer?
    ensures (exists n: nat :: Steps(lib, GenScript(ss), Boot(GenScript(ss), st), n) == Halted(e))
       <==> (exists fuel: nat :: RunScript(lib, ss, st, fuel) == e)
  {
    hide Step, Steps, GenScript, RunScript;
    var p := GenScript(ss);
    var m := Boot(p, st);
    if fuel: nat :| RunScript(lib, ss, st, fuel) == e {
      var n := ScriptLands(lib, ss, st, fuel);
    }
    if n: nat :| Steps(lib, p, m, n) == Halted(e) {
      var k := ScriptLands(lib, ss, st, n + 1);
      var e' := RunScript(lib, ss, st, n + 1);
      if e'.NoAnswer? {
        StepsStay(lib, p, m, n, k);
      } else {
        StepsStay(lib, p, m, if n <= k then n else k, if n <= k then k else n);
        assert Halted(e') == Halted(e);
      }
    }
  }

  ghost predicate RunsForever(lib: Lib, p: Program, m: Machine) {
    forall n: nat :: Steps(lib, p, m, n).Running?
  }

  ghost predicate NeverAnswers(lib: Lib, ss: seq<Stmt>, st: Store) {
    forall fuel: nat :: RunScript(lib, ss, st, fuel).NoAnswer?
  }

  /** A compiled script runs forever exactly when the source script never comes to an end. */
  lemma SameDivergence(lib: Lib, ss: seq<Stmt>, st: Store)
    ensures RunsForever(lib, GenScript(ss), Boot(GenScript(ss), st)) <==> NeverAnswers(lib, ss, st)
  {
    hide Step, Steps, GenScript, RunScript;
    var p := GenScript(ss);
    var m := Boot(p, st);
    if RunsForever(lib, p, m) {
      forall fuel: nat
        ensures RunScript(lib, ss, st, fuel).NoAnswer?
      {
        var n := ScriptLands(lib, ss, st, fuel);
        assert Steps(lib, p, m, n).Running?;
      }
      assert NeverAnswers(lib, ss, st);
    } else {
      var n: nat :| !Steps(lib, p, m, n).Running?;
      var k := ScriptLands(lib, ss, st, n);
      if RunScript(lib, ss, st, n).NoAnswer? {
        StepsStay(lib, p, m, n, k);
        assert false;
      }
    }
  }

  /** No run of a compiled script ever leaves the op array, its temporaries or its loop table, or misuses an operand. */
  lemma NeverWild(lib: Lib, ss: seq<Stmt>, st: Store, n: nat)
    ensures Steps(lib, GenScript(ss), Boot(GenScript(ss), st), n) != Wild
  {
    hide Step, Steps, GenScript, RunScript;
    var p := GenScript(ss);
    var m := Boot(p, st);
    var k := ScriptLands(lib, ss, st, n);
    var e := RunScript(lib, ss, st, n);
    assert Steps(lib, p, m, k) != Wild && (Steps(lib, p, m, k).Running? ==> n <= k) by {
      if !e.NoAnswer? {
        assert Halted(e) != Wild && !Halted(e).Running?;
      }
    }
    if n <= k {
      StepsStay(lib, p, m, n, k);
    } else {
      StepsStay(lib, p, m, k, n);
    }
  }

  /** Fuel only decides whether there is an answer: more fuel never changes an ending. */
  lemma FuelIrrelevant(lib: Lib, ss: seq<Stmt>, st: Store, f: nat, g: nat)
    requires !RunScript(lib, ss, st, f).NoAnswer? && !RunScript(lib, ss, st, g).NoAnswer?
    ensures RunScript(lib, ss, st, f) == RunScript(lib, ss, st, g)
  {
    hide Step, Steps, GenScript, RunScript;
    var p := GenScript(ss);
    var m := Boot(p, st);
    var i := ScriptLands(lib, ss, st, f);
    var j := ScriptLands(lib, ss, st, g);
    StepsStay(lib, p, m, if i <= j then i else j, if i <= j then j else i);
  }
}
