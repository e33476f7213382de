/**
 * The argument-descriptor extractor: the fingerprint of a `new T(...)` expression as
 * an ordered list of string tokens, and the exact comparison of such a list with a
 * configured constructor.
 */
module ConstructorAnalyzer {
  import opened Wrappers
  import opened Syntax
  import opened ConfigRecords

  /** One descriptor token; `None` is the `null` placeholder for a receiver whose type is not found. */
  type Token = Option<string>

  /** `s` read from its end: what `Collections.reverse` leaves in a list. */
  function Reversed<T>(s: seq<T>): (r: seq<T>)
    ensures |r| == |s|
    ensures forall i :: 0 <= i < |s| ==> r[i] == s[|s| - 1 - i]
  {
    seq(|s|, i requires 0 <= i < |s| => s[|s| - 1 - i])
  }

  /** The first declarator named `name` in `ds` is declared with type `typeName`. */
  predicate FirstDeclaredAs(ds: seq<Declarator>, name: string, typeName: string)
  {
    exists i :: 0 <= i < |ds| && ds[i].name == name && ds[i].typeName == typeName
                && forall j :: 0 <= j < i ==> ds[j].name != name
  }

  /**
   * The declared type, as written, of the first declarator named `name` anywhere in
   * the compilation unit (`resolveVariableType`), or nothing when there is none.
   */
  function ResolveVariableType(name: string, cu: CompilationUnit): (t: Option<string>)
    ensures t.None? <==> forall d :: DeclNode(d) in UnitNodes(cu.types) ==> d.name != name
    ensures t.Some? ==> exists d :: DeclNode(d) in UnitNodes(cu.types) && d.name == name && d.typeName == t.value
    ensures t.Some? ==> FirstDeclaredAs(DeclaratorsIn(UnitNodes(cu.types)), name, t.value)
  {
    var ds := DeclaratorsIn(UnitNodes(cu.types));
    var found := FirstNamed(ds, name);
    if found.None? then None
    else
      assert exists i :: 0 <= i < |ds| && ds[i] == found.value && forall j :: 0 <= j < i ==> ds[j].name != name;
      Some(found.value.typeName)
  }

  /**
   * The tokens one constructor argument appends, by kind of argument, or the exception
   * the resolver throws while they are computed.
   */
  function ArgDescriptors(arg: Expr, cu: CompilationUnit, r: Resolver): Result<seq<Token>>
    decreases arg
  {
    match arg
    case Name(_) =>
      var t :- Need(r.typeOf(arg), "unsolved type of a name argument");
      Ok([Some(t.description)])
    case Literal(_) =>
      var t :- Need(r.typeOf(arg), "unsolved type of a literal argument");
      Ok([Some(t.description)])
    case New(typeName, args) =>
      var inner :- ArgsDescriptors(args, cu, r);
      var t :- Need(r.resolveClassType(typeName), "unsolved class type " + typeName);
      Ok(inner + [Some(t)])
    case Call(scope, name, _) =>
      if scope.Some? && scope.value.Name? then
        match ResolveVariableType(scope.value.name, cu)
        case Some(declType) =>
          var m :- Need(r.resolveMethod(arg), "unsolved method " + name);
          Ok([Some(declType + "." + name + "()"), Some(m.returnType)])
        case None => Ok([None])
      else Ok([])
    case FieldAccess(owner, field) =>
      if owner.Name? then
        var t :- Need(r.resolveField(arg), "unsolved field " + field);
        Ok([Some(owner.name + "." + field), Some(t)])
      else Err("scope of a field access is not a NameExpr")
    case _ => Ok([])
  }

  /** The tokens the arguments append, left to right; the first exception stops the walk. */
  function ArgsDescriptors(args: seq<Expr>, cu: CompilationUnit, r: Resolver): Result<seq<Token>>
    decreases args
  {
    if args == [] then Ok([])
    else
      var first :- ArgDescriptors(args[0], cu, r);
      var rest :- ArgsDescriptors(args[1..], cu, r);
      Ok(first + rest)
  }

  /**
   * The tokens of `arg` are found without asking the symbol solver and without an
   * exception: an argument of a kind not handled, or a call that is not on a name
   * declared in the unit.
   */
  predicate SolverFree(arg: Expr, cu: CompilationUnit) {
    match arg
    case Call(scope, _, _) => !(scope.Some? && scope.value.Name? && ResolveVariableType(scope.value.name, cu).Some?)
    case Name(_) => false
    case Literal(_) => false
    case New(_, _) => false
    case FieldAccess(_, _) => false
    case _ => true
  }

  /** Out of the unit, one argument yields tokens exactly when it needs no solver, and they are all null placeholders. */
  lemma UnattachedArgDescriptors(arg: Expr, cu: CompilationUnit)
    ensures ArgDescriptors(arg, cu, Unattached).Ok? <==> SolverFree(arg, cu)
    ensures ArgDescriptors(arg, cu, Unattached).Ok? ==> forall t :: t in ArgDescriptors(arg, cu, Unattached).value ==> t == None
  {
  }

  /**
   * Out of the unit, the arguments yield tokens exactly when none of them needs the
   * solver; the tokens are then all null placeholders.
   */
  lemma {:induction false} UnattachedArgsDescriptors(args: seq<Expr>, cu: CompilationUnit)
    ensures ArgsDescriptors(args, cu, Unattached).Ok? <==> forall i :: 0 <= i < |args| ==> SolverFree(args[i], cu)
    ensures ArgsDescriptors(args, cu, Unattached).Ok? ==> forall t :: t in ArgsDescriptors(args, cu, Unattached).value ==> t == None
    decreases args
  {
    if args != [] {
      UnattachedArgDescriptors(args[0], cu);
      UnattachedArgsDescriptors(args[1..], cu);
      assert forall i :: 0 < i < |args| ==> args[i] == args[1..][i - 1];
    }
  }

  /** Running two computations one after the other: the first exception wins, otherwise the tokens add up. */
  function Then(a: Result<seq<Token>>, b: Result<seq<Token>>): Result<seq<Token>> {
    if a.Err? then a else if b.Err? then b else Ok(a.value + b.value)
  }

  /** Arguments are handled strictly left to right: the tokens of `a + b` are those of `a`, then those of `b`. */
  lemma {:induction false} ArgsDescriptorsAppend(a: seq<Expr>, b: seq<Expr>, cu: CompilationUnit, r: Resolver)
    ensures ArgsDescriptors(a + b, cu, r) == Then(ArgsDescriptors(a, cu, r), ArgsDescriptors(b, cu, r))
  {
    if a == [] {
      assert a + b == b;
      var back := ArgsDescriptors(b, cu, r);
      if back.Ok? {
        assert [] + back.value == back.value;
      }
    } else {
      assert (a + b)[0] == a[0];
      assert (a + b)[1..] == a[1..] + b;
      ArgsDescriptorsAppend(a[1..], b, cu, r);
      var first := ArgDescriptors(a[0], cu, r);
      if first.Ok? {
        var front, back := ArgsDescriptors(a[1..], cu, r), ArgsDescriptors(b, cu, r);
        if front.Ok? && back.Ok? {
          assert first.value + (front.value + back.value) == (first.value + front.value) + back.value;
        }
      }
    }
  }

  /**
   * Reference description of the list the visitor submits after its single reversal:
   * the arguments from last to first, a nested creation's own type ahead of its
   * arguments' tokens, a call's return type ahead of its `Owner.m()` token, a field's
   * type ahead of its `Owner.field` token.
   */
  function MirrorArg(arg: Expr, cu: CompilationUnit, r: Resolver): Result<seq<Token>>
    decreases arg
  {
    match arg
    case Name(_) =>
      var t :- Need(r.typeOf(arg), "unsolved type of a name argument");
      Ok([Some(t.description)])
    case Literal(_) =>
      var t :- Need(r.typeOf(arg), "unsolved type of a literal argument");
      Ok([Some(t.description)])
    case New(typeName, args) =>
      var inner :- MirrorArgs(args, cu, r);
      var t :- Need(r.resolveClassType(typeName), "unsolved class type " + typeName);
      Ok([Some(t)] + inner)
    case Call(scope, name, _) =>
      if scope.Some? && scope.value.Name? then
        match ResolveVariableType(scope.value.name, cu)
        case Some(declType) =>
          var m :- Need(r.resolveMethod(arg), "unsolved method " + name);
          Ok([Some(m.returnType), Some(declType + "." + name + "()")])
        case None => Ok([None])
      else Ok([])
    case FieldAccess(owner, field) =>
      if owner.Name? then
        var t :- Need(r.resolveField(arg), "unsolved field " + field);
        Ok([Some(t), Some(owner.name + "." + field)])
      else Err("scope of a field access is not a NameExpr")
    case _ => Ok([])
  }

  function MirrorArgs(args: seq<Expr>, cu: CompilationUnit, r: Resolver): Result<seq<Token>>
    decreases args
  {
    if args == [] then Ok([])
    else
      var last :- MirrorArg(args[|args| - 1], cu, r);
      var front :- MirrorArgs(args[..|args| - 1], cu, r);
      Ok(last + front)
  }

  lemma ReversedAppend<T>(a: seq<T>, b: seq<T>)
    ensures Reversed(a + b) == Reversed(b) + Reversed(a)
  {
    assert forall i :: 0 <= i < |a| + |b| ==> Reversed(a + b)[i] == (Reversed(b) + Reversed(a))[i];
  }

  /** Reversing the depth-first list once yields the mirrored order, and both fail on the same inputs. */
  lemma {:induction false} ReversedDescriptors(arg: Expr, cu: CompilationUnit, r: Resolver)
    ensures ArgDescriptors(arg, cu, r).Ok? <==> MirrorArg(arg, cu, r).Ok?
    ensures ArgDescriptors(arg, cu, r).Ok? ==> Reversed(ArgDescriptors(arg, cu, r).value) == MirrorArg(arg, cu, r).value
    decreases arg
  {
    match arg
    case New(typeName, args) =>
      ReversedArgsDescriptors(args, cu, r);
      if ArgsDescriptors(args, cu, r).Ok? && r.resolveClassType(typeName).Some? {
        ReversedAppend(ArgsDescriptors(args, cu, r).value, [Some(r.resolveClassType(typeName).value)]);
      }
    case Call(_, _, _) =>
      ReversedShort(ArgDescriptors(arg, cu, r));
    case FieldAccess(_, _) =>
      ReversedShort(ArgDescriptors(arg, cu, r));
    case _ =>
      ReversedShort(ArgDescriptors(arg, cu, r));
  }

  /** Lists of at most two tokens reverse by swapping. */
  lemma ReversedShort(outcome: Result<seq<Token>>)
    ensures outcome.Ok? && |outcome.value| <= 1 ==> Reversed(outcome.value) == outcome.value
    ensures outcome.Ok? && |outcome.value| == 2 ==> Reversed(outcome.value) == [outcome.value[1], outcome.value[0]]
  {
  }

  /** Appending one argument at the end appends its tokens at the end. */
  lemma ArgsDescriptorsSnoc(front: seq<Expr>, last: Expr, cu: CompilationUnit, r: Resolver)
    ensures ArgsDescriptors(front + [last], cu, r) == Then(ArgsDescriptors(front, cu, r), ArgDescriptors(last, cu, r))
  {
    ArgsDescriptorsAppend(front, [last], cu, r);
    assert [last][1..] == [];
    var single := ArgDescriptors(last, cu, r);
    if single.Ok? {
      assert single.value + [] == single.value;
    }
  }

  lemma {:induction false} ReversedArgsDescriptors(args: seq<Expr>, cu: CompilationUnit, r: Resolver)
    ensures ArgsDescriptors(args, cu, r).Ok? <==> MirrorArgs(args, cu, r).Ok?
    ensures ArgsDescriptors(args, cu, r).Ok? ==> Reversed(ArgsDescriptors(args, cu, r).value) == MirrorArgs(args, cu, r).value
    decreases args
  {
    if args != [] {
      var n := |args|;
      var front, last := args[..n - 1], args[n - 1];
      assert args == front + [last];
      ArgsDescriptorsSnoc(front, last, cu, r);
      ReversedDescriptors(last, cu, r);
      ReversedArgsDescriptors(front, cu, r);
      var f, l := ArgsDescriptors(front, cu, r), ArgDescriptors(last, cu, r);
      if f.Ok? && l.Ok? {
        ReversedAppend(f.value, l.value);
      }
    }
  }

  /**
   * `matchesConstructor`: the configured parameter list and the argument list have the
   * same length and are equal element by element (`List.equals`, which compares nulls as
   * equal).
   */
  function MatchesConstructor(ctor: ConstructorInfo, constructorArgs: seq<Token>): (m: bool)
    ensures m <==> |ctor.parameterTypes| == |constructorArgs|
                   && forall i :: 0 <= i < |constructorArgs| ==> constructorArgs[i] == ctor.parameterTypes[i]
    ensures m && None in constructorArgs ==> None in ctor.parameterTypes
  {
    var params := ctor.parameterTypes;
    |params| == |constructorArgs| && params == constructorArgs
  }

  /** A null placeholder matches a configured null parameter type, and nothing else. */
  lemma NullPlaceholderMatchesOnlyNull(ctor: ConstructorInfo, constructorArgs: seq<Token>, i: nat)
    requires MatchesConstructor(ctor, constructorArgs) && i < |constructorArgs|
    ensures constructorArgs[i] == None <==> ctor.parameterTypes[i] == None
  {
  }

  /** Changing any single token of a matching list breaks the match, even at the same length. */
  lemma MatchIsExact(ctor: ConstructorInfo, constructorArgs: seq<Token>, i: nat, t: Token)
    requires MatchesConstructor(ctor, constructorArgs)
    requires i < |constructorArgs| && t != constructorArgs[i]
    ensures !MatchesConstructor(ctor, constructorArgs[i := t])
  {
  }

  /** The outcome of an appending step agrees with its specification: same exception, or exactly its tokens appended. */
  ghost predicate Appended(outcome: Result<()>, spec: Result<seq<Token>>, before: seq<Token>, after: seq<Token>) {
    && (outcome.Ok? <==> spec.Ok?)
    && (outcome.Err? ==> outcome.error == spec.error)
    && (outcome.Ok? ==> after == before + spec.value)
  }

  /** The `List<String>` the extractor appends to in place. */
  class DescriptorList {
    var items: seq<Token>

    constructor ()
      ensures items == []
    {
      items := [];
    }

    method Add(t: Token)
      modifies this
      ensures items == old(items) + [t]
    {
      items := items + [t];
    }

    /** `Collections.reverse`: swaps the two ends pairwise, inwards. */
    method Reverse()
      modifies this
      ensures items == Reversed(old(items))
    {
      var n := |items|;
      var i := 0;
      while i < n / 2
        invariant |items| == n && 0 <= i <= n / 2
        invariant forall k :: 0 <= k < i ==> items[k] == old(items)[n - 1 - k] && items[n - 1 - k] == old(items)[k]
        invariant forall k :: i <= k < n - i ==> items[k] == old(items)[k]
      {
        items := items[i := items[n - 1 - i]][n - 1 - i := items[i]];
        i := i + 1;
      }
    }
  }

  /** A name argument appends exactly one token, its resolved type. */
  method ArgAsNameExpr(arg: Expr, parameterTypes: DescriptorList, r: Resolver) returns (outcome: Result<()>)
    requires arg.Name?
    modifies parameterTypes
    ensures outcome.Ok? <==> r.typeOf(arg).Some?
    ensures outcome.Ok? ==> parameterTypes.items == old(parameterTypes.items) + [Some(r.typeOf(arg).value.description)]
    ensures forall cu :: Appended(outcome, ArgDescriptors(arg, cu, r), old(parameterTypes.items), parameterTypes.items)
  {
    var t := r.typeOf(arg);
    if t.None? {
      return Err("unsolved type of a name argument");
    }
    parameterTypes.Add(Some(t.value.description));
    outcome := Ok(());
  }

  /** A literal argument appends exactly one token, its resolved type. */
  method ArgAsLiteralExpr(arg: Expr, parameterTypes: DescriptorList, r: Resolver) returns (outcome: Result<()>)
    requires arg.Literal?
    modifies parameterTypes
    ensures outcome.Ok? <==> r.typeOf(arg).Some?
    ensures outcome.Ok? ==> parameterTypes.items == old(parameterTypes.items) + [Some(r.typeOf(arg).value.description)]
    ensures forall cu :: Appended(outcome, ArgDescriptors(arg, cu, r), old(parameterTypes.items), parameterTypes.items)
  {
    var t := r.typeOf(arg);
    if t.None? {
      return Err("unsolved type of a literal argument");
    }
    parameterTypes.Add(Some(t.value.description));
    outcome := Ok(());
  }

  /** A nested creation appends its own arguments' tokens first, then its own type as the last token. */
  method ArgAsObjectCreationExpr(arg: Expr, parameterTypes: DescriptorList, cu: CompilationUnit, r: Resolver)
    returns (outcome: Result<()>)
    requires arg.New?
    modifies parameterTypes
    decreases arg, 1
    ensures Appended(outcome, ArgDescriptors(arg, cu, r), old(parameterTypes.items), parameterTypes.items)
    ensures outcome.Ok? ==> |parameterTypes.items| > |old(parameterTypes.items)|
                            && parameterTypes.items[..|parameterTypes.items| - 1]
                               == old(parameterTypes.items) + ArgsDescriptors(arg.args, cu, r).value
                            && parameterTypes.items[|parameterTypes.items| - 1] == r.resolveClassType(arg.typeName)
  {
    outcome := AnalyzeConstructorDetails(arg, parameterTypes, cu, r);
    if outcome.Err? {
      return;
    }
    var t := r.resolveClassType(arg.typeName);
    if t.None? {
      return Err("unsolved class type " + arg.typeName);
    }
    parameterTypes.Add(Some(t.value));
  }

  /**
   * A method-call argument whose receiver is a name appends `"<declType>.<name>()"` and
   * the return type when the receiver's declaration is found, else one `null`; any other
   * call appends nothing.
   */
  method ArgAsMethodCallExpr(arg: Expr, cu: CompilationUnit, parameterTypes: DescriptorList, r: Resolver)
    returns (outcome: Result<()>)
    requires arg.Call?
    modifies parameterTypes
    ensures Appended(outcome, ArgDescriptors(arg, cu, r), old(parameterTypes.items), parameterTypes.items)
    ensures arg.scope.None? || !arg.scope.value.Name? ==> outcome.Ok? && parameterTypes.items == old(parameterTypes.items)
    ensures arg.scope.Some? && arg.scope.value.Name? && ResolveVariableType(arg.scope.value.name, cu).None?
            ==> outcome.Ok? && parameterTypes.items == old(parameterTypes.items) + [None]
    ensures arg.scope.Some? && arg.scope.value.Name? && ResolveVariableType(arg.scope.value.name, cu).Some? && outcome.Ok?
            ==> parameterTypes.items == old(parameterTypes.items)
                + [Some(ResolveVariableType(arg.scope.value.name, cu).value + "." + arg.name + "()"),
                   Some(r.resolveMethod(arg).value.returnType)]
  {
    if arg.scope.Some? {
      var scope := arg.scope.value;
      if scope.Name? {
        var result := ResolveVariableType(scope.name, cu);
        if result.Some? {
          parameterTypes.Add(Some(result.value + "." + arg.name + "()"));
          var m := r.resolveMethod(arg);
          if m.None? {
            return Err("unsolved method " + arg.name);
          }
          parameterTypes.Add(Some(m.value.returnType));
        } else {
          // the type of the receiver cannot be found: a null placeholder
          parameterTypes.Add(None);
        }
      }
      // a receiver that is not a plain name is only reported
    }
    // a call without receiver is only reported
    outcome := Ok(());
  }

  /** A field-access argument appends `"<owner>.<field>"` followed by the field's type. */
  method ArgAsFieldAccessExpr(arg: Expr, parameterTypes: DescriptorList, r: Resolver) returns (outcome: Result<()>)
    requires arg.FieldAccess?
    modifies parameterTypes
    ensures forall cu :: Appended(outcome, ArgDescriptors(arg, cu, r), old(parameterTypes.items), parameterTypes.items)
    ensures !arg.owner.Name? ==> outcome.Err?
    ensures outcome.Ok? ==> parameterTypes.items == old(parameterTypes.items)
                              + [Some(arg.owner.name + "." + arg.field), r.resolveField(arg)]
  {
    if !arg.owner.Name? {
      return Err("scope of a field access is not a NameExpr");
    }
    parameterTypes.Add(Some(arg.owner.name + "." + arg.field));
    var t := r.resolveField(arg);
    if t.None? {
      return Err("unsolved field " + arg.field);
    }
    parameterTypes.Add(Some(t.value));
    outcome := Ok(());
  }

  /** The per-argument dispatch of `analyzeConstructorDetails`, by kind of argument. */
  method AnalyzeArgument(arg: Expr, parameterTypes: DescriptorList, cu: CompilationUnit, r: Resolver)
    returns (outcome: Result<()>)
    modifies parameterTypes
    decreases arg, 2
    ensures Appended(outcome, ArgDescriptors(arg, cu, r), old(parameterTypes.items), parameterTypes.items)
  {
    if arg.Name? {
      outcome := ArgAsNameExpr(arg, parameterTypes, r);
    } else if arg.Literal? {
      outcome := ArgAsLiteralExpr(arg, parameterTypes, r);
    } else if arg.New? {
      outcome := ArgAsObjectCreationExpr(arg, parameterTypes, cu, r);
    } else if arg.Call? {
      outcome := ArgAsMethodCallExpr(arg, cu, parameterTypes, r);
    } else if arg.FieldAccess? {
      outcome := ArgAsFieldAccessExpr(arg, parameterTypes, r);
    } else {
      // an argument of any other kind is only reported
      outcome := Ok(());
    }
  }

  /**
   * `analyzeConstructorDetails`: appends the tokens of every argument of the creation,
   * left to right, to the caller's list; what the list held before is kept as its prefix.
   */
  method AnalyzeConstructorDetails(creationExpr: Expr, parameterTypes: DescriptorList, cu: CompilationUnit, r: Resolver)
    returns (outcome: Result<()>)
    requires creationExpr.New?
    modifies parameterTypes
    decreases creationExpr, 0
    ensures Appended(outcome, ArgsDescriptors(creationExpr.args, cu, r), old(parameterTypes.items), parameterTypes.items)
  {
    var args := creationExpr.args;
    var i := 0;
    while i < |args|
      invariant 0 <= i <= |args|
      invariant ArgsDescriptors(args[..i], cu, r).Ok?
      invariant parameterTypes.items == old(parameterTypes.items) + ArgsDescriptors(args[..i], cu, r).value
    {
      var arg := args[i];
      var step := AnalyzeArgument(arg, parameterTypes, cu, r);
      assert args[..i + 1] == args[..i] + [arg];
      ArgsDescriptorsSnoc(args[..i], arg, cu, r);
      if step.Err? {
        assert args == args[..i + 1] + args[i + 1..];
        ArgsDescriptorsAppend(args[..i + 1], args[i + 1..], cu, r);
        return step;
      }
      i := i + 1;
    }
    assert args[..i] == args;
    outcome := Ok(());
  }
}
