/**
 * The call-site orchestrator: for every method call the visitor reaches, decide whether
 * it reads from an untrusted configured source and, if so, replace it by a call of that
 * source's sanitizer with the original call as the only argument.
 *
 * The tree is a value: a replacement is returned as part of a rebuilt tree. Declarations
 * are looked up in the unit as it was parsed.
 */
module MethodCallVisitor {
  import opened Wrappers
  import opened Syntax
  import opened ConfigRecords
  import opened ConstructorAnalyzer
  import opened ConfigLoader
  import InputSanitizer

  /** The kind of the node directly above a call. */
  datatype Parent = CallParent | CreationParent | OtherParent

  /**
   * The ancestors a declaration lookup starts from: the enclosing class, the body of the
   * enclosing method (absent outside methods, in constructors and initializers) and the
   * nearest enclosing block; and whether the node is still part of the unit, which it is
   * not below a call that has been replaced (the replaced call keeps its children, but has
   * no parent any more).
   */
  datatype Context = Context(cls: Option<ClassDecl>, methodBody: Option<Stmt>, block: Option<Stmt>, attached: bool)

  /**
   * What the visitor works with: the unit being analyzed, the symbol solver, the registry's
   * iteration order and the source-to-sanitizer table.
   */
  datatype Env = Env(cu: CompilationUnit, resolver: Resolver, order: seq<string>, mapping: map<string, string>)

  /** The question put to the registry for one call site. */
  datatype Query = Query(className: string, currentMethod: string, parameterTypes: seq<Token>, staticMethod: bool)

  /**
   * The exception the symbol solver raises when asked for the type of an expression that
   * is no longer part of a compilation unit; `analyzeMethodCall` rethrows it.
   */
  const DetachedNode := "node not inserted in a compilation unit"

  /** `isNestedMethodCall`: the call is an argument or receiver of another call, or an argument of a creation. */
  function IsNestedMethodCall(parent: Parent): (nested: bool)
    ensures nested <==> parent != OtherParent
  {
    parent == CallParent || parent == CreationParent
  }

  // ---------------------------------------------------------------------------------
  // Declaration lookup, in priority order

  /** `checkIntoLocalScope`: the first declarator named `name` in the nearest enclosing block. */
  function CheckIntoLocalScope(name: string, ctx: Context): (d: Option<Declarator>)
    ensures d.Some? ==> ctx.block.Some? && d.value.name == name && DeclNode(d.value) in StmtNodes(ctx.block.value)
    ensures d.None? <==> ctx.block.None? || forall x :: DeclNode(x) in StmtNodes(ctx.block.value) ==> x.name != name
  {
    if ctx.block.Some? then FirstNamed(DeclaratorsIn(StmtNodes(ctx.block.value)), name) else None
  }

  /** `checkIntoMethodScope`: the first declarator named `name` anywhere in the enclosing method's body. */
  function CheckIntoMethodScope(name: string, ctx: Context): (d: Option<Declarator>)
    ensures d.Some? ==> ctx.methodBody.Some? && d.value.name == name && DeclNode(d.value) in StmtNodes(ctx.methodBody.value)
    ensures d.None? <==> ctx.methodBody.None? || forall x :: DeclNode(x) in StmtNodes(ctx.methodBody.value) ==> x.name != name
  {
    if ctx.methodBody.Some? then FirstNamed(DeclaratorsIn(StmtNodes(ctx.methodBody.value)), name) else None
  }

  /** The value of the first assignment `name = new T(...)` among `assigns`. */
  function FirstCreationAssigned(assigns: seq<Expr>, name: string): (c: Option<Expr>)
    ensures c.None? <==> forall a :: a in assigns && a.Assign? && a.target == Name(name) ==> !a.value.New?
    ensures c.Some? ==> c.value.New?
    ensures c.Some? ==> exists i :: 0 <= i < |assigns| && assigns[i] == Assign(Name(name), c.value)
                                      && forall j :: 0 <= j < i && assigns[j].Assign? && assigns[j].target == Name(name)
                                                     ==> !assigns[j].value.New?
  {
    if assigns == [] then None
    else if assigns[0].Assign? && assigns[0].target == Name(name) && assigns[0].value.New? then Some(assigns[0].value)
    else
      var c := FirstCreationAssigned(assigns[1..], name);
      assert forall i :: 0 < i < |assigns| ==> assigns[i] == assigns[1..][i - 1];
      assert forall x :: x in assigns ==> x == assigns[0] || x in assigns[1..];
      c
  }

  /**
   * `checkIntoConstructor`: in the class's first constructor, the first assignment of a
   * creation to the plain name `name`, turned into a declarator of the created type with
   * that creation as initializer.
   */
  function CheckIntoConstructor(name: string, cls: ClassDecl): (d: Option<Declarator>)
    ensures d.Some? ==> && FirstConstructor(cls.members).Some?
                        && d.value.init.Some? && d.value.init.value.New?
                        && d.value == Declarator(d.value.init.value.typeName, name, d.value.init)
                        && Assign(Name(name), d.value.init.value) in AssignmentsIn(StmtNodes(FirstConstructor(cls.members).value))
    ensures d.None? <==> FirstConstructor(cls.members).None?
                         || forall a :: ExprNode(a) in StmtNodes(FirstConstructor(cls.members).value) && a.Assign? && a.target == Name(name)
                                        ==> !a.value.New?
  {
    match FirstConstructor(cls.members)
    case None => None
    case Some(body) =>
      match FirstCreationAssigned(AssignmentsIn(StmtNodes(body)), name)
      case Some(creation) => Some(Declarator(creation.typeName, name, Some(creation)))
      case None => None
  }

  /** `checkIntoClassFields`: a field of the enclosing class named `name`, else the constructor fallback. */
  function CheckIntoClassFields(name: string, ctx: Context): (d: Option<Declarator>)
    ensures ctx.cls.None? ==> d.None?
    ensures ctx.cls.Some? && FirstNamed(FieldVariables(ctx.cls.value.members), name).Some?
            ==> d == FirstNamed(FieldVariables(ctx.cls.value.members), name)
    ensures ctx.cls.Some? && FirstNamed(FieldVariables(ctx.cls.value.members), name).None?
            ==> d == CheckIntoConstructor(name, ctx.cls.value)
  {
    if ctx.cls.None? then None
    else
      var field := FirstNamed(FieldVariables(ctx.cls.value.members), name);
      if field.Some? then field else CheckIntoConstructor(name, ctx.cls.value)
  }

  /**
   * `findVariableNodeInScope`: the first hit of block, method body, class fields and the
   * first constructor, in that order. Whatever it finds is named `name`.
   */
  function FindVariableNodeInScope(name: string, ctx: Context): (d: Option<Declarator>)
    ensures d.Some? ==> d.value.name == name
    ensures CheckIntoLocalScope(name, ctx).Some? ==> d == CheckIntoLocalScope(name, ctx)
    ensures CheckIntoLocalScope(name, ctx).None? && CheckIntoMethodScope(name, ctx).Some? ==> d == CheckIntoMethodScope(name, ctx)
    ensures CheckIntoLocalScope(name, ctx).None? && CheckIntoMethodScope(name, ctx).None? ==> d == CheckIntoClassFields(name, ctx)
  {
    var local := CheckIntoLocalScope(name, ctx);
    if local.Some? then local
    else
      var inMethod := CheckIntoMethodScope(name, ctx);
      if inMethod.Some? then inMethod
      else
        var d := CheckIntoClassFields(name, ctx);
        assert d.Some? && ctx.cls.Some? && FirstNamed(FieldVariables(ctx.cls.value.members), name).Some?
               ==> FirstNamed(FieldVariables(ctx.cls.value.members), name).value.name == name;
        d
  }

  /**
   * The declaration of `name` is the one `checkIntoConstructor` builds: no block, method
   * body or field declares it. The built declarator becomes the parent of the creation it
   * wraps, so that creation is no longer part of the unit.
   */
  predicate FoundInConstructor(name: string, ctx: Context)
  {
    && CheckIntoLocalScope(name, ctx).None?
    && CheckIntoMethodScope(name, ctx).None?
    && ctx.cls.Some?
    && FirstNamed(FieldVariables(ctx.cls.value.members), name).None?
    && CheckIntoConstructor(name, ctx.cls.value).Some?
  }

  // ---------------------------------------------------------------------------------
  // What one call site submits and what it becomes

  /**
   * The descriptor list a declarator yields: for a creation initializer, its arguments'
   * tokens reversed once; for anything else, the empty list.
   */
  function InitializerDescriptors(variable: Declarator, env: Env): (r: Result<seq<Token>>)
    ensures !(variable.init.Some? && variable.init.value.New?) ==> r == Ok([])
    ensures variable.init.Some? && variable.init.value.New? ==>
              && (r.Ok? <==> MirrorArgs(variable.init.value.args, env.cu, env.resolver).Ok?)
              && (r.Ok? ==> r.value == MirrorArgs(variable.init.value.args, env.cu, env.resolver).value)
  {
    if variable.init.Some? && variable.init.value.New? then
      var args := variable.init.value.args;
      ReversedArgsDescriptors(args, env.cu, env.resolver);
      var ds :- ArgsDescriptors(args, env.cu, env.resolver);
      Ok(Reversed(ds))
    else Ok([])
  }

  /**
   * The descriptors `constructorScope` gathers for a receiver: only a plain name with a
   * declaration found yields any. A declaration built from a constructor's assignment is
   * analyzed out of the unit, where the symbol solver answers nothing.
   */
  function ScopeDescriptors(scope: Expr, ctx: Context, env: Env): (r: Result<seq<Token>>)
    ensures !scope.Name? ==> r == Ok([])
    ensures scope.Name? && FindVariableNodeInScope(scope.name, ctx).None? ==> r == Ok([])
    ensures scope.Name? && FindVariableNodeInScope(scope.name, ctx).Some? && !FoundInConstructor(scope.name, ctx)
            ==> r == InitializerDescriptors(FindVariableNodeInScope(scope.name, ctx).value, env)
    ensures scope.Name? && FoundInConstructor(scope.name, ctx)
            ==> && FindVariableNodeInScope(scope.name, ctx) == CheckIntoConstructor(scope.name, ctx.cls.value)
                && r == InitializerDescriptors(FindVariableNodeInScope(scope.name, ctx).value, env.(resolver := Unattached))
  {
    if scope.Name? then
      match FindVariableNodeInScope(scope.name, ctx)
      case Some(variable) =>
        if FoundInConstructor(scope.name, ctx) then InitializerDescriptors(variable, env.(resolver := Unattached))
        else InitializerDescriptors(variable, env)
      case None => Ok([])
    else Ok([])
  }

  /**
   * A receiver declared only by a constructor's assignment `name = new T(args)` yields
   * tokens exactly when no argument needs the symbol solver, and they are then all null
   * placeholders: a name, a literal, a creation or a field access among the arguments
   * makes the analysis fail.
   */
  lemma RebuiltDeclarationDescriptors(name: string, ctx: Context, env: Env)
    requires FoundInConstructor(name, ctx)
    ensures var args := CheckIntoConstructor(name, ctx.cls.value).value.init.value.args;
            && (ScopeDescriptors(Name(name), ctx, env).Ok? <==> forall i :: 0 <= i < |args| ==> SolverFree(args[i], env.cu))
            && (ScopeDescriptors(Name(name), ctx, env).Ok? ==> forall t :: t in ScopeDescriptors(Name(name), ctx, env).value ==> t == None)
  {
    var args := CheckIntoConstructor(name, ctx.cls.value).value.init.value.args;
    UnattachedArgsDescriptors(args, env.cu);
    ReversedArgsDescriptors(args, env.cu, Unattached);
    var ds := ArgsDescriptors(args, env.cu, Unattached);
    if ds.Ok? {
      assert forall t :: t in Reversed(ds.value) ==> t in ds.value by {
        forall t | t in Reversed(ds.value)
          ensures t in ds.value
        {
          var k :| 0 <= k < |ds.value| && Reversed(ds.value)[k] == t;
          assert ds.value[|ds.value| - 1 - k] == t;
        }
      }
    }
  }

  /**
   * The query a (non-nested) call submits, if any: none without a receiver or for a
   * receiver whose type is not a reference type; for a static method an empty descriptor
   * list and the static flag.
   */
  function SubmittedQuery(call: Expr, ctx: Context, env: Env): (q: Result<Option<Query>>)
    requires call.Call?
    ensures call.scope.None? ==> q == Ok(None)
    ensures call.scope.Some? && env.resolver.typeOf(call.scope.value).None? ==> q.Err?
    ensures call.scope.Some? && env.resolver.typeOf(call.scope.value).Some? && !env.resolver.typeOf(call.scope.value).value.isReferenceType
            ==> q == Ok(None)
    ensures q.Ok? && q.value.Some? ==>
              && call.scope.Some?
              && env.resolver.typeOf(call.scope.value) == Some(ResolvedType(q.value.value.className, true))
              && env.resolver.resolveMethod(call).Some?
              && q.value.value.staticMethod == env.resolver.resolveMethod(call).value.isStatic
              && q.value.value.currentMethod == call.name + "()"
              && (q.value.value.staticMethod ==> q.value.value.parameterTypes == [])
              && (!q.value.value.staticMethod ==> Ok(q.value.value.parameterTypes) == ScopeDescriptors(call.scope.value, ctx, env))
    ensures call.scope.Some? && env.resolver.typeOf(call.scope.value).Some? && env.resolver.typeOf(call.scope.value).value.isReferenceType
            ==> var t := env.resolver.typeOf(call.scope.value).value;
                var m := env.resolver.resolveMethod(call);
                && (m.None? ==> q.Err?)
                && (m.Some? && m.value.isStatic ==> q == Ok(Some(Query(t.description, call.name + "()", [], true))))
                && (m.Some? && !m.value.isStatic ==>
                      var ds := ScopeDescriptors(call.scope.value, ctx, env);
                      && (ds.Ok? ==> q == Ok(Some(Query(t.description, call.name + "()", ds.value, false))))
                      && (ds.Err? ==> q == Err(ds.error)))
  {
    if call.scope.None? then Ok(None)
    else
      var scope := call.scope.value;
      var t :- Need(env.resolver.typeOf(scope), "unsolved type of the receiver");
      if !t.isReferenceType then Ok(None)
      else
        var m :- Need(env.resolver.resolveMethod(call), "unsolved method " + call.name);
        if !m.isStatic then
          var ds :- ScopeDescriptors(scope, ctx, env);
          Ok(Some(Query(t.description, call.name + "()", ds, false)))
        else Ok(Some(Query(t.description, call.name + "()", [], true)))
  }

  /** The replacement `insertSanitizeMethod` installs, when the table has a sanitizer for `source`. */
  function SanitizedCall(call: Expr, source: string, mapping: map<string, string>): (w: Option<Expr>)
    ensures w.Some? <==> source in mapping
    ensures w.Some? ==> w.value.Call? && w.value.name == mapping[source] && w.value.args == [call]
  {
    if source in mapping then Some(Call(None, mapping[source], [call])) else None
  }

  /**
   * What analyzing a call site decides: an exception, no change, or the replacement.
   * A replacement exists exactly when a query was submitted, the registry answered with
   * an untrusted source and the table has a sanitizer for it.
   */
  function SiteRewrite(call: Expr, ctx: Context, env: Env, loader: ConfigLoader): (r: Result<Option<Expr>>)
    requires call.Call?
    reads loader
    ensures r.Ok? <==> SubmittedQuery(call, ctx, env).Ok?
    ensures r.Ok? && r.value.Some? <==>
              && SubmittedQuery(call, ctx, env).Ok?
              && SubmittedQuery(call, ctx, env).value.Some?
              && var q := SubmittedQuery(call, ctx, env).value.value;
                 var src := loader.GetSourceDetailsForResolvedType(q.className, q.currentMethod, q.parameterTypes, q.staticMethod, env.order);
                 src.Some? && !src.value.trusted && src.value.name in env.mapping
    ensures r.Ok? && r.value.Some? ==>
              exists src :: src in loader.sources.Values && !src.trusted && src.name in env.mapping
                            && r.value.value == Call(None, env.mapping[src.name], [call])
    ensures r.Ok? && r.value.Some? ==>
              var q := SubmittedQuery(call, ctx, env).value.value;
              var src := loader.GetSourceDetailsForResolvedType(q.className, q.currentMethod, q.parameterTypes, q.staticMethod, env.order);
              r.value.value == Call(None, env.mapping[src.value.name], [call])
  {
    var q :- SubmittedQuery(call, ctx, env);
    if q.None? then Ok(None)
    else
      match loader.GetSourceDetailsForResolvedType(q.value.className, q.value.currentMethod, q.value.parameterTypes,
                                                   q.value.staticMethod, env.order)
      case Some(src) => if !src.trusted then Ok(SanitizedCall(call, src.name, env.mapping)) else Ok(None)
      case None => Ok(None)
  }

  /** A call to a static method is never rewritten. */
  lemma StaticCallNeverRewritten(call: Expr, ctx: Context, env: Env, loader: ConfigLoader)
    requires call.Call? && call.scope.Some?
    requires env.resolver.resolveMethod(call).Some? && env.resolver.resolveMethod(call).value.isStatic
    ensures SiteRewrite(call, ctx, env, loader).Ok? ==> SiteRewrite(call, ctx, env, loader).value.None?
  {
  }

  /** With no untrusted registered source, or with an empty sanitizer table, no site is rewritten. */
  lemma NoRewriteWithoutUntrustedSource(call: Expr, ctx: Context, env: Env, loader: ConfigLoader)
    requires call.Call?
    requires env.mapping == map[] || forall k :: k in loader.sources ==> loader.sources[k].trusted
    ensures SiteRewrite(call, ctx, env, loader).Ok? ==> SiteRewrite(call, ctx, env, loader).value.None?
  {
  }

  /**
   * With the sanitizer table built from the untrusted sources of the configuration the
   * registry was loaded from, a call is wrapped exactly when the registry answers its
   * query with an untrusted source.
   */
  lemma UntrustedMatchAlwaysSanitized(call: Expr, ctx: Context, env: Env, loader: ConfigLoader, srcs: seq<Source>)
    requires call.Call?
    requires forall k :: k in loader.sources ==> loader.sources[k] in srcs
    requires env.mapping == InputSanitizer.SanitizerTable(UntrustedSources(srcs))
    ensures SiteRewrite(call, ctx, env, loader).Ok? && SiteRewrite(call, ctx, env, loader).value.Some? <==>
              && SubmittedQuery(call, ctx, env).Ok?
              && SubmittedQuery(call, ctx, env).value.Some?
              && var q := SubmittedQuery(call, ctx, env).value.value;
                 var src := loader.GetSourceDetailsForResolvedType(q.className, q.currentMethod, q.parameterTypes, q.staticMethod, env.order);
                 src.Some? && !src.value.trusted
  {
    var query := SubmittedQuery(call, ctx, env);
    if query.Ok? && query.value.Some? {
      var q := query.value.value;
      var src := loader.GetSourceDetailsForResolvedType(q.className, q.currentMethod, q.parameterTypes, q.staticMethod, env.order);
      if src.Some? && !src.value.trusted {
        var k :| k in loader.sources && loader.sources[k] == src.value;
        assert src.value.name in UntrustedSources(srcs);
      }
    }
  }

  /**
   * With the table built from the untrusted-source list as the loader computes it, a
   * trusted first source leaves the table empty: no call is wrapped, whatever source the
   * registry answers with.
   */
  lemma AsWrittenTableSanitizesNothing(call: Expr, ctx: Context, env: Env, loader: ConfigLoader, srcs: seq<Source>)
    requires call.Call?
    requires srcs != [] && srcs[0].trusted
    requires env.mapping == InputSanitizer.SanitizerTable(UntrustedSourcesAsWritten(srcs))
    ensures SiteRewrite(call, ctx, env, loader).Ok? ==> SiteRewrite(call, ctx, env, loader).value.None?
  {
    assert UntrustedSourcesAsWritten(srcs) == [];
  }

  // ---------------------------------------------------------------------------------
  // The same analysis, step by step, on the mutable descriptor list

  /**
   * `analyzeVariableInitializer`: for a creation initializer, append its arguments'
   * descriptors and reverse the whole list once; otherwise leave the list alone.
   */
  method AnalyzeVariableInitializer(variable: Declarator, constructorParameterTypes: DescriptorList, env: Env)
    returns (outcome: Result<()>)
    modifies constructorParameterTypes
    ensures !(variable.init.Some? && variable.init.value.New?) ==> outcome.Ok? && constructorParameterTypes.items == old(constructorParameterTypes.items)
    ensures variable.init.Some? && variable.init.value.New? ==>
              var ds := ArgsDescriptors(variable.init.value.args, env.cu, env.resolver);
              && (outcome.Ok? <==> ds.Ok?)
              && (outcome.Err? ==> outcome.error == ds.error)
              && (outcome.Ok? ==> constructorParameterTypes.items == Reversed(old(constructorParameterTypes.items) + ds.value))
  {
    if variable.init.Some? && variable.init.value.New? {
      var creationExpr := variable.init.value;
      outcome := AnalyzeConstructorDetails(creationExpr, constructorParameterTypes, env.cu, env.resolver);
      if outcome.Err? {
        return;
      }
      constructorParameterTypes.Reverse();
    } else {
      outcome := Ok(());
    }
  }

  /** `constructorScope`: for a plain-name receiver whose declaration is found, analyze its initializer. */
  method ConstructorScope(scope: Expr, constructorParameterTypes: DescriptorList, ctx: Context, env: Env)
    returns (outcome: Result<()>)
    modifies constructorParameterTypes
    ensures old(constructorParameterTypes.items) == [] ==>
              && (outcome.Ok? <==> ScopeDescriptors(scope, ctx, env).Ok?)
              && (outcome.Err? ==> outcome.error == ScopeDescriptors(scope, ctx, env).error)
              && (outcome.Ok? ==> constructorParameterTypes.items == ScopeDescriptors(scope, ctx, env).value)
  {
    outcome := Ok(());
    if scope.Name? {
      var variableNode := FindVariableNodeInScope(scope.name, ctx);
      if variableNode.Some? {
        // a declarator built from a constructor's assignment holds the creation out of the unit
        var solverEnv := if FoundInConstructor(scope.name, ctx) then env.(resolver := Unattached) else env;
        outcome := AnalyzeVariableInitializer(variableNode.value, constructorParameterTypes, solverEnv);
        assert old(constructorParameterTypes.items) == [] && variableNode.value.init.Some? && variableNode.value.init.value.New?
               && ArgsDescriptors(variableNode.value.init.value.args, solverEnv.cu, solverEnv.resolver).Ok?
               ==> [] + ArgsDescriptors(variableNode.value.init.value.args, solverEnv.cu, solverEnv.resolver).value
                   == ArgsDescriptors(variableNode.value.init.value.args, solverEnv.cu, solverEnv.resolver).value;
      }
    }
  }

  /** `insertSanitizeMethod`: the sanitizer call wrapping `methodCall`, or nothing when the table has no entry. */
  method InsertSanitizeMethod(methodCall: Expr, source: string, mapping: map<string, string>) returns (replacement: Option<Expr>)
    ensures replacement.Some? <==> source in mapping
    ensures replacement.Some? ==> replacement.value == Call(None, mapping[source], [methodCall])
  {
    if source in mapping {
      var sanitizedCall := Call(None, mapping[source], [methodCall]);
      replacement := Some(sanitizedCall);
    } else {
      // the missing key is only reported
      replacement := None;
    }
  }

  /** `compareWithConfigurationData`: query the registry and sanitize only an untrusted answer. */
  method CompareWithConfigurationData(parameterTypes: seq<Token>, className: string, methodCall: Expr, staticMethod: bool,
                                      env: Env, loader: ConfigLoader) returns (replacement: Option<Expr>)
    requires methodCall.Call?
    ensures var src := loader.GetSourceDetailsForResolvedType(className, methodCall.name + "()", parameterTypes, staticMethod, env.order);
            replacement.Some? <==> src.Some? && !src.value.trusted && src.value.name in env.mapping
    ensures replacement.Some? ==> replacement == SanitizedCall(methodCall, loader.GetSourceDetailsForResolvedType(
              className, methodCall.name + "()", parameterTypes, staticMethod, env.order).value.name, env.mapping)
  {
    var currentMethod := methodCall.name + "()";
    var constructorDetails := loader.GetSourceDetailsForResolvedType(className, currentMethod, parameterTypes, staticMethod, env.order);
    replacement := None;
    if constructorDetails.Some? && !constructorDetails.value.trusted {
      replacement := InsertSanitizeMethod(methodCall, constructorDetails.value.name, env.mapping);
    }
  }

  /**
   * The site part of `analyzeMethodCall` for a call that is not nested: resolve the
   * receiver, gather the descriptors of a non-static call into a fresh list, and compare
   * with the registry. Any exception of these steps is passed on.
   */
  method AnalyzeMethodCall(methodCall: Expr, ctx: Context, env: Env, loader: ConfigLoader) returns (outcome: Result<Option<Expr>>)
    requires methodCall.Call?
    ensures outcome == SiteRewrite(methodCall, ctx, env, loader)
  {
    if methodCall.scope.None? {
      return Ok(None);
    }
    var scope := methodCall.scope.value;
    var t := env.resolver.typeOf(scope);
    if t.None? {
      return Err("unsolved type of the receiver");
    }
    if !t.value.isReferenceType {
      return Ok(None);
    }
    var className := t.value.description;
    var constructorParameterTypes := new DescriptorList();
    var staticMethod := false;
    var m := env.resolver.resolveMethod(methodCall);
    if m.None? {
      return Err("unsolved method " + methodCall.name);
    }
    if !m.value.isStatic {
      var scoped := ConstructorScope(scope, constructorParameterTypes, ctx, env);
      if scoped.Err? {
        return Err(scoped.error);
      }
    } else {
      staticMethod := true;
    }
    var replacement := CompareWithConfigurationData(constructorParameterTypes.items, className, methodCall, staticMethod, env, loader);
    outcome := Ok(replacement);
  }

  // ---------------------------------------------------------------------------------
  // The walk, in the order the visitor adapter visits children

  /**
   * `after` is what the walk may turn `e` into when `e` is not a call: a name or a literal
   * as it is, any other node of the same kind with the same label and as many children.
   */
  predicate SameShape(e: Expr, after: Expr) {
    match e
    case Name(_) => after == e
    case Literal(_) => after == e
    case New(typeName, args) => after.New? && after.typeName == typeName && |after.args| == |args|
    case Call(_, _, _) => after.Call?
    case FieldAccess(_, field) => after.FieldAccess? && after.field == field
    case Assign(_, _) => after.Assign?
    case VarDecl(vars) => after.VarDecl? && SameDeclarators(vars, after.vars)
    case Other(children) => after.Other? && |after.children| == |children|
  }

  /** The same variables, in order, each keeping its type and whether it has an initializer. */
  predicate SameDeclarators(ds: seq<Declarator>, after: seq<Declarator>) {
    |after| == |ds| && forall i :: 0 <= i < |ds| ==>
      after[i].name == ds[i].name && after[i].typeName == ds[i].typeName && after[i].init.Some? == ds[i].init.Some?
  }

  /**
   * The visit of one expression (`visit` on a method call, then the adapter's visit of
   * the children): every node keeps its kind; a nested call is left alone, subtree
   * included; a call that is not nested is either the site's sanitizer wrapper or the
   * same call with its children visited. The children of a replaced call are visited
   * all the same, out of the unit: there a call that is not nested and has a receiver
   * makes the visit fail, since its receiver's type cannot be resolved.
   */
  function VisitExpr(e: Expr, parent: Parent, ctx: Context, env: Env, loader: ConfigLoader): (r: Result<Expr>)
    reads loader
    ensures r.Ok? ==> SameShape(e, r.value)
    ensures e.Call? && parent == OtherParent && r.Ok? ==>
              && SiteRewrite(e, ctx, env, loader).Ok?
              && var site := SiteRewrite(e, ctx, env, loader).value;
                 && (site.Some? ==> r.value == site.value)
                 && (site.None? ==> r.value.name == e.name && |r.value.args| == |e.args| && r.value.scope.Some? == e.scope.Some?)
    ensures e.Call? && parent == OtherParent && !ctx.attached && e.scope.Some? ==> r == Err(DetachedNode)
    decreases e
  {
    match e
    case Call(scope, name, args) =>
      if IsNestedMethodCall(parent) then Ok(e)
      else if !ctx.attached && scope.Some? then Err(DetachedNode)
      else
        var site :- SiteRewrite(e, ctx, env, loader);
        // after a replacement the children are still visited, below the detached original
        var inner := if site.Some? then ctx.(attached := false) else ctx;
        var args' :- VisitExprs(args, CallParent, inner, env, loader);
        var scope' :- VisitOptExpr(scope, CallParent, inner, env, loader);
        if site.Some? then Ok(site.value) else Ok(Call(scope', name, args'))
    case New(typeName, args) =>
      var args' :- VisitExprs(args, CreationParent, ctx, env, loader);
      Ok(New(typeName, args'))
    case FieldAccess(owner, field) =>
      var owner' :- VisitExpr(owner, OtherParent, ctx, env, loader);
      Ok(FieldAccess(owner', field))
    case Assign(target, value) =>
      var target' :- VisitExpr(target, OtherParent, ctx, env, loader);
      var value' :- VisitExpr(value, OtherParent, ctx, env, loader);
      Ok(Assign(target', value'))
    case VarDecl(vars) =>
      var vars' :- VisitDeclarators(vars, ctx, env, loader);
      Ok(VarDecl(vars'))
    case Other(children) =>
      var children' :- VisitExprs(children, OtherParent, ctx, env, loader);
      Ok(Other(children'))
    case Name(_) => Ok(e)
    case Literal(_) => Ok(e)
  }

  function VisitOptExpr(e: Option<Expr>, parent: Parent, ctx: Context, env: Env, loader: ConfigLoader): (r: Result<Option<Expr>>)
    reads loader
    ensures r.Ok? ==> r.value.Some? == e.Some?
    decreases e
  {
    if e.None? then Ok(None)
    else
      var e' :- VisitExpr(e.value, parent, ctx, env, loader);
      Ok(Some(e'))
  }

  function VisitExprs(es: seq<Expr>, parent: Parent, ctx: Context, env: Env, loader: ConfigLoader): (r: Result<seq<Expr>>)
    reads loader
    ensures r.Ok? ==> |r.value| == |es|
    decreases es
  {
    if es == [] then Ok([])
    else
      var first :- VisitExpr(es[0], parent, ctx, env, loader);
      var rest :- VisitExprs(es[1..], parent, ctx, env, loader);
      Ok([first] + rest)
  }

  function VisitDeclarators(ds: seq<Declarator>, ctx: Context, env: Env, loader: ConfigLoader): (r: Result<seq<Declarator>>)
    reads loader
    ensures r.Ok? ==> SameDeclarators(ds, r.value)
    decreases ds
  {
    if ds == [] then Ok([])
    else
      var init' :- VisitOptExpr(ds[0].init, OtherParent, ctx, env, loader);
      var rest :- VisitDeclarators(ds[1..], ctx, env, loader);
      Ok([ds[0].(init := init')] + rest)
  }

  function VisitStmt(s: Stmt, ctx: Context, env: Env, loader: ConfigLoader): Result<Stmt>
    reads loader
    decreases s
  {
    match s
    case Block(stmts) =>
      var stmts' :- VisitStmts(stmts, ctx.(block := Some(s)), env, loader);
      Ok(Block(stmts'))
    case ExprStmt(e) =>
      var e' :- VisitExpr(e, OtherParent, ctx, env, loader);
      Ok(ExprStmt(e'))
    case If(cond, thn, els) =>
      var cond' :- VisitExpr(cond, OtherParent, ctx, env, loader);
      var els' :- VisitOptStmt(els, ctx, env, loader);
      var thn' :- VisitStmt(thn, ctx, env, loader);
      Ok(If(cond', thn', els'))
    case While(cond, body) =>
      var body' :- VisitStmt(body, ctx, env, loader);
      var cond' :- VisitExpr(cond, OtherParent, ctx, env, loader);
      Ok(While(cond', body'))
    case Return(value) =>
      var value' :- VisitOptExpr(value, OtherParent, ctx, env, loader);
      Ok(Return(value'))
  }

  function VisitOptStmt(s: Option<Stmt>, ctx: Context, env: Env, loader: ConfigLoader): Result<Option<Stmt>>
    reads loader
    decreases s
  {
    if s.None? then Ok(None)
    else
      var s' :- VisitStmt(s.value, ctx, env, loader);
      Ok(Some(s'))
  }

  function VisitStmts(ss: seq<Stmt>, ctx: Context, env: Env, loader: ConfigLoader): (r: Result<seq<Stmt>>)
    reads loader
    ensures r.Ok? ==> |r.value| == |ss|
    decreases ss
  {
    if ss == [] then Ok([])
    else
      var first :- VisitStmt(ss[0], ctx, env, loader);
      var rest :- VisitStmts(ss[1..], ctx, env, loader);
      Ok([first] + rest)
  }

  function VisitMember(m: Member, cls: ClassDecl, env: Env, loader: ConfigLoader): (r: Result<Member>)
    reads loader
    ensures r.Ok? ==> (r.value.Field? <==> m.Field?) && (r.value.Constructor? <==> m.Constructor?)
    ensures r.Ok? && m.Method? ==> r.value.Method? && r.value.name == m.name && r.value.body.Some? == m.body.Some?
  {
    match m
    case Field(vars) =>
      var vars' :- VisitDeclarators(vars, Context(Some(cls), None, None, true), env, loader);
      Ok(Field(vars'))
    case Method(name, body) =>
      var body' :- VisitOptStmt(body, Context(Some(cls), body, None, true), env, loader);
      Ok(Method(name, body'))
    case Constructor(body) =>
      var body' :- VisitStmt(body, Context(Some(cls), None, None, true), env, loader);
      Ok(Constructor(body'))
  }

  function VisitMembers(ms: seq<Member>, cls: ClassDecl, env: Env, loader: ConfigLoader): (r: Result<seq<Member>>)
    reads loader
    ensures r.Ok? ==> |r.value| == |ms| && forall i :: 0 <= i < |ms| ==> r.value[i].Method? == ms[i].Method?
    decreases ms
  {
    if ms == [] then Ok([])
    else
      var first :- VisitMember(ms[0], cls, env, loader);
      var rest :- VisitMembers(ms[1..], cls, env, loader);
      Ok([first] + rest)
  }

  function VisitTypes(types: seq<ClassDecl>, env: Env, loader: ConfigLoader): (r: Result<seq<ClassDecl>>)
    reads loader
    ensures r.Ok? ==> |r.value| == |types| && forall i :: 0 <= i < |types| ==>
              r.value[i].name == types[i].name && |r.value[i].members| == |types[i].members|
    decreases types
  {
    if types == [] then Ok([])
    else
      var members' :- VisitMembers(types[0].members, types[0], env, loader);
      var rest :- VisitTypes(types[1..], env, loader);
      Ok([types[0].(members := members')] + rest)
  }

  /**
   * The whole visit of the unit: the rewritten unit, or the first exception of any call
   * site. A rewritten unit has the same classes, in order, with as many members each.
   */
  function Visit(env: Env, loader: ConfigLoader): (r: Result<CompilationUnit>)
    reads loader
    ensures r.Ok? ==> |r.value.types| == |env.cu.types| && forall i :: 0 <= i < |env.cu.types| ==>
              r.value.types[i].name == env.cu.types[i].name && |r.value.types[i].members| == |env.cu.types[i].members|
  {
    var types' :- VisitTypes(env.cu.types, env, loader);
    Ok(CompilationUnit(types'))
  }

  // ---------------------------------------------------------------------------------
  // Properties of the walk

  /** No registered source is untrusted, or the sanitizer table is empty. */
  ghost predicate NothingToSanitize(env: Env, loader: ConfigLoader)
    reads loader
  {
    env.mapping == map[] || forall k :: k in loader.sources ==> loader.sources[k].trusted
  }

  /** A nested call is left as it is, and nothing below it is analyzed. */
  lemma NestedCallKept(e: Expr, parent: Parent, ctx: Context, env: Env, loader: ConfigLoader)
    requires e.Call? && parent != OtherParent
    ensures VisitExpr(e, parent, ctx, env, loader) == Ok(e)
  {
  }

  /**
   * A replaced call becomes the sanitizer call around the call as it was parsed: any
   * replacement made below it is not part of the result.
   */
  lemma ReplacedCallWrapsOriginal(e: Expr, ctx: Context, env: Env, loader: ConfigLoader)
    requires e.Call? && VisitExpr(e, OtherParent, ctx, env, loader).Ok?
    requires SiteRewrite(e, ctx, env, loader).Ok? && SiteRewrite(e, ctx, env, loader).value.Some?
    ensures exists sanitizer :: VisitExpr(e, OtherParent, ctx, env, loader) == Ok(Call(None, sanitizer, [e]))
  {
  }

  /**
   * A call with a receiver that sits below a replaced call, one level further down than
   * its arguments (here inside the first argument), fails the visit: it is analyzed after
   * the replacement, out of the unit.
   */
  lemma ReplacedCallFailsOnDeeperCall(e: Expr, ctx: Context, env: Env, loader: ConfigLoader)
    requires e.Call? && SiteRewrite(e, ctx, env, loader).Ok? && SiteRewrite(e, ctx, env, loader).value.Some?
    requires |e.args| > 0 && e.args[0].Other? && |e.args[0].children| > 0
    requires e.args[0].children[0].Call? && e.args[0].children[0].scope.Some?
    ensures VisitExpr(e, OtherParent, ctx, env, loader) == Err(DetachedNode)
  {
    var detached := ctx.(attached := false);
    DetachedArgumentFails(e.args[0], detached, env, loader);
    assert VisitExprs(e.args, CallParent, detached, env, loader) == Err(DetachedNode);
  }

  /** Out of the unit, an argument whose first part is a call with a receiver fails. */
  lemma DetachedArgumentFails(arg: Expr, ctx: Context, env: Env, loader: ConfigLoader)
    requires !ctx.attached && arg.Other? && |arg.children| > 0
    requires arg.children[0].Call? && arg.children[0].scope.Some?
    ensures VisitExpr(arg, CallParent, ctx, env, loader) == Err(DetachedNode)
  {
    assert VisitExprs(arg.children, OtherParent, ctx, env, loader) == Err(DetachedNode);
  }

  /**
   * An exception at a call site that is not nested aborts the visit of the expression
   * around it, and it is that exception which is reported: the call is analyzed before
   * its arguments and receiver are visited.
   */
  lemma SiteErrorPropagates(e: Expr, ctx: Context, env: Env, loader: ConfigLoader)
    requires e.Call? && SiteRewrite(e, ctx, env, loader).Err?
    ensures VisitExpr(e, OtherParent, ctx, env, loader) == Err(if ctx.attached then SiteRewrite(e, ctx, env, loader).error else DetachedNode)
  {
  }

  /** When nothing is to be sanitized, a successful visit returns the unit unchanged. */
  lemma VisitUnchanged(env: Env, loader: ConfigLoader)
    requires NothingToSanitize(env, loader)
    ensures Visit(env, loader).Ok? ==> Visit(env, loader).value == env.cu
  {
    VisitTypesUnchanged(env.cu.types, env, loader);
  }

  lemma {:induction false} VisitExprUnchanged(e: Expr, parent: Parent, ctx: Context, env: Env, loader: ConfigLoader)
    requires NothingToSanitize(env, loader)
    ensures VisitExpr(e, parent, ctx, env, loader).Ok? ==> VisitExpr(e, parent, ctx, env, loader).value == e
    decreases e
  {
    match e
    case Call(scope, name, args) =>
      if !IsNestedMethodCall(parent) {
        NoRewriteWithoutUntrustedSource(e, ctx, env, loader);
        VisitExprsUnchanged(args, CallParent, ctx, env, loader);
        VisitOptExprUnchanged(scope, CallParent, ctx, env, loader);
      }
    case New(_, args) => VisitExprsUnchanged(args, CreationParent, ctx, env, loader);
    case FieldAccess(owner, _) => VisitExprUnchanged(owner, OtherParent, ctx, env, loader);
    case Assign(target, value) =>
      VisitExprUnchanged(target, OtherParent, ctx, env, loader);
      VisitExprUnchanged(value, OtherParent, ctx, env, loader);
    case VarDecl(vars) => VisitDeclaratorsUnchanged(vars, ctx, env, loader);
    case Other(children) => VisitExprsUnchanged(children, OtherParent, ctx, env, loader);
    case Name(_) =>
    case Literal(_) =>
  }

  lemma {:induction false} VisitOptExprUnchanged(e: Option<Expr>, parent: Parent, ctx: Context, env: Env, loader: ConfigLoader)
    requires NothingToSanitize(env, loader)
    ensures VisitOptExpr(e, parent, ctx, env, loader).Ok? ==> VisitOptExpr(e, parent, ctx, env, loader).value == e
    decreases e
  {
    if e.Some? {
      VisitExprUnchanged(e.value, parent, ctx, env, loader);
    }
  }

  lemma {:induction false} VisitExprsUnchanged(es: seq<Expr>, parent: Parent, ctx: Context, env: Env, loader: ConfigLoader)
    requires NothingToSanitize(env, loader)
    ensures VisitExprs(es, parent, ctx, env, loader).Ok? ==> VisitExprs(es, parent, ctx, env, loader).value == es
    decreases es
  {
    if es != [] {
      VisitExprUnchanged(es[0], parent, ctx, env, loader);
      VisitExprsUnchanged(es[1..], parent, ctx, env, loader);
    }
  }

  lemma {:induction false} VisitDeclaratorsUnchanged(ds: seq<Declarator>, ctx: Context, env: Env, loader: ConfigLoader)
    requires NothingToSanitize(env, loader)
    ensures VisitDeclarators(ds, ctx, env, loader).Ok? ==> VisitDeclarators(ds, ctx, env, loader).value == ds
    decreases ds
  {
    if ds != [] {
      VisitOptExprUnchanged(ds[0].init, OtherParent, ctx, env, loader);
      VisitDeclaratorsUnchanged(ds[1..], ctx, env, loader);
    }
  }

  lemma {:induction false} VisitStmtUnchanged(s: Stmt, ctx: Context, env: Env, loader: ConfigLoader)
    requires NothingToSanitize(env, loader)
    ensures VisitStmt(s, ctx, env, loader).Ok? ==> VisitStmt(s, ctx, env, loader).value == s
    decreases s
  {
    match s
    case Block(stmts) => VisitStmtsUnchanged(stmts, ctx.(block := Some(s)), env, loader);
    case ExprStmt(e) => VisitExprUnchanged(e, OtherParent, ctx, env, loader);
    case If(cond, thn, els) =>
      VisitExprUnchanged(cond, OtherParent, ctx, env, loader);
      VisitOptStmtUnchanged(els, ctx, env, loader);
      VisitStmtUnchanged(thn, ctx, env, loader);
    case While(cond, body) =>
      VisitStmtUnchanged(body, ctx, env, loader);
      VisitExprUnchanged(cond, OtherParent, ctx, env, loader);
    case Return(value) => VisitOptExprUnchanged(value, OtherParent, ctx, env, loader);
  }

  lemma {:induction false} VisitOptStmtUnchanged(s: Option<Stmt>, ctx: Context, env: Env, loader: ConfigLoader)
    requires NothingToSanitize(env, loader)
    ensures VisitOptStmt(s, ctx, env, loader).Ok? ==> VisitOptStmt(s, ctx, env, loader).value == s
    decreases s
  {
    if s.Some? {
      VisitStmtUnchanged(s.value, ctx, env, loader);
    }
  }

  lemma {:induction false} VisitStmtsUnchanged(ss: seq<Stmt>, ctx: Context, env: Env, loader: ConfigLoader)
    requires NothingToSanitize(env, loader)
    ensures VisitStmts(ss, ctx, env, loader).Ok? ==> VisitStmts(ss, ctx, env, loader).value == ss
    decreases ss
  {
    if ss != [] {
      VisitStmtUnchanged(ss[0], ctx, env, loader);
      VisitStmtsUnchanged(ss[1..], ctx, env, loader);
    }
  }

  lemma {:induction false} VisitMembersUnchanged(ms: seq<Member>, cls: ClassDecl, env: Env, loader: ConfigLoader)
    requires NothingToSanitize(env, loader)
    ensures VisitMembers(ms, cls, env, loader).Ok? ==> VisitMembers(ms, cls, env, loader).value == ms
    decreases ms
  {
    if ms != [] {
      match ms[0] {
        case Field(vars) => VisitDeclaratorsUnchanged(vars, Context(Some(cls), None, None, true), env, loader);
        case Method(_, body) => VisitOptStmtUnchanged(body, Context(Some(cls), body, None, true), env, loader);
        case Constructor(body) => VisitStmtUnchanged(body, Context(Some(cls), None, None, true), env, loader);
      }
      VisitMembersUnchanged(ms[1..], cls, env, loader);
    }
  }

  lemma {:induction false} VisitTypesUnchanged(types: seq<ClassDecl>, env: Env, loader: ConfigLoader)
    requires NothingToSanitize(env, loader)
    ensures VisitTypes(types, env, loader).Ok? ==> VisitTypes(types, env, loader).value == types
    decreases types
  {
    if types != [] {
      VisitMembersUnchanged(types[0].members, types[0], env, loader);
      VisitTypesUnchanged(types[1..], env, loader);
    }
  }
}
