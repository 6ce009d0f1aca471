/** Scalar values, operators and observable effects shared by the source language and the opcodes. */
module Values {

  /** The scalar zvals: IS_NULL, IS_BOOL, IS_LONG and IS_STRING. */
  datatype Value = Null | Bool(b: bool) | Long(n: int) | Str(s: string)

  /** Truth of a scalar: "" and "0" are the only false strings. */
  predicate IsTrue(v: Value) {
    match v
    case Null => false
    case Bool(b) => b
    case Long(n) => n != 0
    case Str(s) => !(s == "" || s == "0")
  }

  datatype BinOp =
    | Add | Sub | Mul | Div | Mod | ShiftLeft | ShiftRight | Concat
    | IsIdentical | IsNotIdentical | IsEqual | IsNotEqual | IsSmaller | IsSmallerOrEqual
    | BwOr | BwAnd | BwXor | BoolXor

  datatype UnOp = BwNot | BoolNot

  datatype IncDec = PreInc | PreDec | PostInc | PostDec {
    predicate Post() { PostInc? || PostDec? }
  }

  /** The operator library, left uninterpreted: every theorem holds for any choice of it. */
  datatype Lib = Lib(
    binary: (BinOp, Value, Value) -> Value,
    unary: (UnOp, Value) -> Value,
    incDec: (IncDec, Value) -> Value)

  /** What a script does to the outside world: output, and the notice for reading an unset variable. */
  datatype Event = Echoed(v: Value) | Notice(name: string)

  /** The active symbol table together with the effects so far. */
  datatype Store = Store(vars: map<string, Value>, events: seq<Event>) {

    function Emit(e: Event): Store { this.(events := events + [e]) }

    function Set(x: string, v: Value): Store { this.(vars := vars[x := v]) }

    function Get(x: string): Value { if x in vars then vars[x] else Null }

    /** Fetching for reading: an unset variable raises a notice. */
    function FetchedR(x: string): Store { if x in vars then this else Emit(Notice(x)) }

    /** Fetching for writing: an unset variable is created as null. */
    function FetchedW(x: string): Store { if x in vars then this else Set(x, Null) }

    /** Fetching for reading and writing: both. */
    function FetchedRW(x: string): Store { FetchedR(x).FetchedW(x) }
  }
}
