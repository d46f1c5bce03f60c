// The tree the parser hands to every later stage (include/ast.h).
module Ast {
  import opened Common

  /** Doubles stay abstract: what is done with them is a parameter (see Values). */
  type Double(==, !new)

  /** Operators by their token text; `Not` is the unary one, stored with an
      absent right operand, and `OtherOp` is every operator not listed. */
  datatype Op =
    | Add | Sub | Mul | Div | Mod
    | Lt | Gt | Le | Ge | Eq | Ne
    | And | Or | Not
    | OtherOp(text: string)

  /** `Absent` is the null pointer the C tree uses for a missing child.  `Interp` is a
      string with braces, which the C tree keeps as text and every stage that looks into
      it parses anew; `parts` are the expressions between the braces. */
  datatype Expr =
    | Absent
    | Number(n: Double)
    | Int(i: int)
    | Str(s: string)
    | Bool(b: bool)
    | Nil
    | Binary(op: Op, left: Expr, right: Expr)
    | Variable(name: string)
    | Call(callee: Expr, args: seq<Expr>)
    | Array(elems: seq<Expr>)
    | Index(base: Expr, index: Expr)
    | IndexSet(base: Expr, index: Expr, value: Expr)
    | Dict(keys: seq<string>, values: seq<Expr>)
    | Tuple(elems: seq<Expr>)
    | Slice(base: Expr, start: Expr, end: Expr)
    | Get(receiver: Expr, property: string)
    | Set(receiver: Expr, property: string, value: Expr)
    | Await(operand: Expr)
    | Range(low: Expr, high: Expr, inclusive: bool)
    | Unwrap(operand: Expr)
    | NullCoal(left: Expr, right: Expr)
    | OptChain(receiver: Expr, member: string)
    | Super(name: string)
    | Comptime(operand: Expr)
    | Interp(template: string, parts: seq<Expr>)

  /** Statement lists are sequences; an empty `els` is the null else branch.  What is left
      for `OtherStmt` has no code of its own inside: imports, enums, traits, external
      declarations and macros below the top level. */
  datatype Stmt =
    | Print(e: Expr)
    | ExprStmt(e: Expr)
    | Let(name: string, init: Expr)
    | If(cond: Expr, thn: seq<Stmt>, els: seq<Stmt>)
    | Block(body: seq<Stmt>)
    | While(cond: Expr, body: seq<Stmt>)
    | For(variable: string, iterable: Expr, body: seq<Stmt>)
    | Proc(name: string, sig: Signature, body: seq<Stmt>)
    | AsyncProc(name: string, sig: Signature, body: seq<Stmt>)
    | Return(e: Expr)
    | Break
    | Continue
    | Class(name: string, parent: Option<string>, methods: seq<Stmt>)
    | Struct(name: string)
    | Impl(methods: seq<Stmt>)
    | Match(value: Expr, cases: seq<Case>, default: seq<Stmt>)
    | Try(block: seq<Stmt>, handlers: seq<Handler>, final: seq<Stmt>)
    | Raise(e: Expr)
    | Yield(e: Expr)
    | Defer(body: seq<Stmt>)
    | Annotated(body: seq<Stmt>)
    | ComptimeBlock(body: seq<Stmt>)
    | Spawn(body: seq<Stmt>)
    | OtherStmt(text: string)

  /** `defaults` are the values of the last parameters, evaluated by the caller. */
  datatype Signature = Signature(params: seq<string>, defaults: seq<Expr>, typeParams: seq<string>)

  /** Parameters without defaults or types. */
  function Bare(params: seq<string>): Signature { Signature(params, [], []) }

  /** May the proc be called with `n` arguments? */
  predicate Takes(sig: Signature, n: nat) {
    |sig.defaults| <= |sig.params| && |sig.params| - |sig.defaults| <= n <= |sig.params|
  }

  /** The defaults that stand in for the arguments from the `n`-th on. */
  function Missing(sig: Signature, n: nat): (r: seq<Expr>)
    requires Takes(sig, n)
    ensures |r| == |sig.params| - n
  {
    sig.defaults[|sig.defaults| - (|sig.params| - n)..]
  }

  /** `guard` is absent when the case has none. */
  datatype Case = Case(pattern: Expr, guard: Expr, body: seq<Stmt>)

  datatype Handler = Handler(variable: string, body: seq<Stmt>)
}
