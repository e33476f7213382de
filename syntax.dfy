/**
 * The part of a parsed Java compilation unit the taint engine reads and rewrites,
 * and the symbol-resolution oracle it consults.  Parsing and resolution belong to
 * the parser library; here the tree is a value and resolution is a set of functions.
 */
module Syntax {
  import opened Wrappers

  /** Expressions, one constructor per node kind the engine distinguishes. */
  datatype Expr =
    | Name(name: string)                                        // NameExpr
    | Literal(text: string)                                     // any LiteralExpr
    | New(typeName: string, args: seq<Expr>)                    // ObjectCreationExpr
    | Call(scope: Option<Expr>, name: string, args: seq<Expr>)  // MethodCallExpr
    | FieldAccess(owner: Expr, field: string)                   // FieldAccessExpr
    | Assign(target: Expr, value: Expr)                         // AssignExpr
    | VarDecl(vars: seq<Declarator>)                            // VariableDeclarationExpr
    | Other(children: seq<Expr>)                                // any other kind, with its sub-expressions

  /** A VariableDeclarator: declared type as written, name, optional initializer. */
  datatype Declarator = Declarator(typeName: string, name: string, init: Option<Expr>)

  datatype Stmt =
    | Block(stmts: seq<Stmt>)
    | ExprStmt(expr: Expr)
    | If(cond: Expr, thn: Stmt, els: Option<Stmt>)
    | While(cond: Expr, body: Stmt)
    | Return(value: Option<Expr>)

  /** Members of a class: field declarations, methods (an abstract one has no body) and constructors. */
  datatype Member =
    | Field(vars: seq<Declarator>)
    | Method(name: string, body: Option<Stmt>)
    | Constructor(ctorBody: Stmt)

  datatype ClassDecl = ClassDecl(name: string, members: seq<Member>)

  datatype CompilationUnit = CompilationUnit(types: seq<ClassDecl>)

  /** What `calculateResolvedType()` yields: its `describe()` text and `isReferenceType()`. */
  datatype ResolvedType = ResolvedType(description: string, isReferenceType: bool)

  /** What resolving a method call yields: `isStatic()` and the `describe()` of its return type. */
  datatype MethodInfo = MethodInfo(isStatic: bool, returnType: string)

  /**
   * The symbol solver.  Each answer is `None` exactly when the corresponding library
   * call throws (an unsolved symbol, an unsupported operation).
   */
  datatype Resolver = Resolver(
    typeOf: Expr -> Option<ResolvedType>,       // Expression.calculateResolvedType()
    resolveMethod: Expr -> Option<MethodInfo>,  // MethodCallExpr.resolve()
    resolveClassType: string -> Option<string>, // ClassOrInterfaceType.resolve().describe()
    resolveField: Expr -> Option<string>)       // FieldAccessExpr.resolve().getType().describe()

  /**
   * What the symbol solver answers about a node that is no longer part of a compilation
   * unit: every question throws, since the solver is found through the unit.
   */
  const Unattached := Resolver((e: Expr) => None, (e: Expr) => None, (t: string) => None, (e: Expr) => None)

  /** The nodes a `findAll` search can return. */
  datatype Node = DeclNode(decl: Declarator) | ExprNode(expr: Expr)

  // Pre-order listings of the nodes below a node, the node itself first, children in source order.

  function ExprNodes(e: Expr): seq<Node>
    decreases e
  {
    [ExprNode(e)] +
    match e
    case Name(_) => []
    case Literal(_) => []
    case New(_, args) => ExprsNodes(args)
    case Call(scope, _, args) => OptExprNodes(scope) + ExprsNodes(args)
    case FieldAccess(owner, _) => ExprNodes(owner)
    case Assign(target, value) => ExprNodes(target) + ExprNodes(value)
    case VarDecl(vars) => DeclaratorsNodes(vars)
    case Other(children) => ExprsNodes(children)
  }

  function OptExprNodes(e: Option<Expr>): seq<Node>
    decreases e
  {
    if e.Some? then ExprNodes(e.value) else []
  }

  function ExprsNodes(es: seq<Expr>): seq<Node>
    decreases es
  {
    if es == [] then [] else ExprNodes(es[0]) + ExprsNodes(es[1..])
  }

  function DeclaratorsNodes(ds: seq<Declarator>): seq<Node>
    decreases ds
  {
    if ds == [] then []
    else [DeclNode(ds[0])] + OptExprNodes(ds[0].init) + DeclaratorsNodes(ds[1..])
  }

  function StmtNodes(s: Stmt): seq<Node>
    decreases s
  {
    match s
    case Block(stmts) => StmtsNodes(stmts)
    case ExprStmt(e) => ExprNodes(e)
    case If(cond, thn, els) => ExprNodes(cond) + StmtNodes(thn) + OptStmtNodes(els)
    case While(cond, body) => ExprNodes(cond) + StmtNodes(body)
    case Return(value) => OptExprNodes(value)
  }

  function OptStmtNodes(s: Option<Stmt>): seq<Node>
    decreases s
  {
    if s.Some? then StmtNodes(s.value) else []
  }

  function StmtsNodes(ss: seq<Stmt>): seq<Node>
    decreases ss
  {
    if ss == [] then [] else StmtNodes(ss[0]) + StmtsNodes(ss[1..])
  }

  function MembersNodes(ms: seq<Member>): seq<Node>
    decreases ms
  {
    if ms == [] then []
    else
      (match ms[0]
       case Field(vars) => DeclaratorsNodes(vars)
       case Method(_, body) => OptStmtNodes(body)
       case Constructor(body) => StmtNodes(body))
      + MembersNodes(ms[1..])
  }

  function UnitNodes(types: seq<ClassDecl>): seq<Node>
    decreases types
  {
    if types == [] then [] else MembersNodes(types[0].members) + UnitNodes(types[1..])
  }

  /** The declarators among `nodes`, in order: `findAll(VariableDeclarator.class)`. */
  function DeclaratorsIn(nodes: seq<Node>): (ds: seq<Declarator>)
    ensures forall d :: d in ds <==> DeclNode(d) in nodes
  {
    if nodes == [] then []
    else (if nodes[0].DeclNode? then [nodes[0].decl] else []) + DeclaratorsIn(nodes[1..])
  }

  /** The assignment expressions among `nodes`, in order: `findAll(AssignExpr.class)`. */
  function AssignmentsIn(nodes: seq<Node>): (es: seq<Expr>)
    ensures forall e :: e in es <==> e.Assign? && ExprNode(e) in nodes
  {
    if nodes == [] then []
    else (if nodes[0].ExprNode? && nodes[0].expr.Assign? then [nodes[0].expr] else []) + AssignmentsIn(nodes[1..])
  }

  /** The variables of the class's field declarations, in order (`findAll(FieldDeclaration)` then `getVariables`). */
  function FieldVariables(ms: seq<Member>): (ds: seq<Declarator>)
    ensures forall d :: d in ds <==> exists i :: 0 <= i < |ms| && ms[i].Field? && d in ms[i].vars
  {
    if ms == [] then []
    else
      var rest := FieldVariables(ms[1..]);
      assert forall i :: 0 < i < |ms| ==> ms[i] == ms[1..][i - 1];
      (if ms[0].Field? then ms[0].vars else []) + rest
  }

  /** The first constructor of the class, if it declares one (`findFirst(ConstructorDeclaration)`). */
  function FirstConstructor(ms: seq<Member>): (c: Option<Stmt>)
    ensures c.Some? <==> exists i :: 0 <= i < |ms| && ms[i].Constructor?
    ensures c.Some? ==> exists i :: 0 <= i < |ms| && ms[i] == Constructor(c.value)
                                 && forall j :: 0 <= j < i ==> !ms[j].Constructor?
  {
    if ms == [] then None
    else if ms[0].Constructor? then Some(ms[0].ctorBody)
    else
      var c := FirstConstructor(ms[1..]);
      assert forall i :: 0 < i < |ms| ==> ms[i] == ms[1..][i - 1];
      c
  }

  /** The first declarator named `name` (a `filter` on the name followed by `findFirst`). */
  function FirstNamed(ds: seq<Declarator>, name: string): (d: Option<Declarator>)
    ensures d.None? <==> forall x :: x in ds ==> x.name != name
    ensures d.Some? ==> exists i :: 0 <= i < |ds| && ds[i] == d.value && d.value.name == name
                                 && forall j :: 0 <= j < i ==> ds[j].name != name
  {
    if ds == [] then None
    else if ds[0].name == name then Some(ds[0])
    else
      var d := FirstNamed(ds[1..], name);
      assert forall i :: 0 < i < |ds| ==> ds[i] == ds[1..][i - 1];
      assert forall x :: x in ds ==> x == ds[0] || x in ds[1..];
      d
  }
}
