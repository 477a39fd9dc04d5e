/** The abstract syntax of src/slemu.h. A null pointer in the source is a node of its
    own here, because both the loader and the interpreter give it a meaning. */
module Ast {

  datatype Expr = ENull | E(ty: int, lv: int, kind: ExprKind)

  datatype ExprKind =
    | IntLit(i: int)
    | FloatLit(bits: int)
    | StrLit(str: int)
    | Ident(name: int)
    | VecLit(x: Expr, y: Expr, z: Expr)
    | RotLit(x: Expr, y: Expr, z: Expr, w: Expr)
    | ListLit(items: seq<Expr>)
    | CallExpr(fn: int, args: seq<Expr>)
    | Member(base: Expr, axis: int)
    | Cast(to: int, inner: Expr)
    | Unary(op: int, inner: Expr)
    | Postfix(op: int, inner: Expr)
    | Binary(op: int, l: Expr, r: Expr)
    | Assign(op: int, l: Expr, r: Expr)

  datatype Stmt = SNull | S(line: int, kind: StmtKind)

  datatype StmtKind =
    | ExprStmt(e: Expr)
    | Decl(ty: int, name: int, init: Expr)
    | Block(stmts: seq<Stmt>)
    | If(cond: Expr, thn: Stmt, els: Stmt)
    | While(cond: Expr, body: Stmt)
    | Do(body: Stmt, cond: Expr)
    | For(init0: seq<Expr>, cond: Expr, post: seq<Expr>, body: Stmt)
    | Return(hasValue: int, e: Expr)
    | Jump(target: int)
    | Label(target: int)
    | StateChange(state: int)
    | Empty

  datatype Param = Param(ty: int, name: int)
  datatype GlobalVar = GlobalVar(ty: int, name: int, init: Expr)
  datatype FuncDecl = FuncDecl(name: int, line: int, ret: int, hasRet: int, params: seq<Param>, body: Stmt)
  datatype EventDecl = EventDecl(name: int, line: int, params: seq<Param>, body: Stmt)
  datatype StateDecl = StateDecl(name: int, line: int, isDefault: int, events: seq<EventDecl>)

  datatype Program = Program(
    flags: int,
    strings: seq<string>,
    globals: seq<GlobalVar>,
    funcs: seq<FuncDecl>,
    states: seq<StateDecl>)

  /** prog_str: a bogus index reads as the empty string. */
  function PoolStr(p: Program, idx: int): string {
    if 0 <= idx < |p.strings| then p.strings[idx] else ""
  }
}
