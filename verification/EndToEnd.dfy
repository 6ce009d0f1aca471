/** From the text of a script to what becomes of it: compiled in one pass, and executed. */
module EndToEnd {
  import opened Values
  import opened Source
  import opened Opcodes
  import opened Codegen
  import opened Compiler
  import opened Executor
  import opened Correctness

  /** The ending that the script comes to on its own terms, given enough fuel. */
  ghost predicate ComesTo(lib: Lib, ss: seq<Stmt>, st: Store, e: Ending) {
    !e.NoAnswer? && exists fuel: nat :: RunScript(lib, ss, st, fuel) == e
  }

  /**
   A script is compiled and executed for at most so many rounds. If that comes to a stop, it is with the ending that the
   script comes to; if the script comes to no end, it is still running.
   */
  method CompileAndExecute(lib: Lib, ss: seq<Stmt>, st: Store, rounds: nat) returns (r: Run)
    ensures !r.Running? ==> exists e :: ComesTo(lib, ss, st, e) && r == Halted(e)
    ensures NeverAnswers(lib, ss, st) ==> r.Running?
  {
    hide Steps, RunScript, GenScript;
    var p := CompileScript(ss);
    r := Execute(lib, p, st, rounds);
    Ends(lib, ss, st, rounds);
  }

  lemma Ends(lib: Lib, ss: seq<Stmt>, st: Store, n: nat)
    ensures var r := Steps(lib, GenScript(ss), Boot(GenScript(ss), st), n);
      && (!r.Running? ==> exists e :: ComesTo(lib, ss, st, e) && r == Halted(e))
      && (NeverAnswers(lib, ss, st) ==> r.Running?)
  {
    hide Step, Steps, GenScript, RunScript;
    var p := GenScript(ss);
    var m := Boot(p, st);
    var r := Steps(lib, p, m, n);
    if !r.Running? {
      var k := ScriptLands(lib, ss, st, n + 1);
      var e := RunScript(lib, ss, st, n + 1);
      StepsStay(lib, p, m, if n <= k then n else k, if n <= k then k else n);
      assert !e.NoAnswer? && r == Halted(e);
      assert ComesTo(lib, ss, st, e);
    }
  }

  /** With enough rounds a script that comes to an end has come to it. */
  lemma EnoughRounds(lib: Lib, ss: seq<Stmt>, st: Store, e: Ending) returns (n: nat)
    requires ComesTo(lib, ss, st, e)
    ensures forall k :: k >= n ==> Steps(lib, GenScript(ss), Boot(GenScript(ss), st), k) == Halted(e)
  {
    hide Step, Steps, GenScript, RunScript;
    var fuel: nat :| RunScript(lib, ss, st, fuel) == e;
    n := ScriptLands(lib, ss, st, fuel);
    var p := GenScript(ss);
    var m := Boot(p, st);
    forall k | k >= n
      ensures Steps(lib, p, m, k) == Halted(e)
    {
      StepsStay(lib, p, m, n, k);
    }
  }
}
