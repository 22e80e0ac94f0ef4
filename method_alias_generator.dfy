/**
 * CakeMethodAliasGenerator: turns the descriptor of a script alias (a static
 * extension method taking the Cake context first) into the C# text of a
 * wrapper method that the script can call without naming the context.
 *
 * The specification functions (Header, Invocation, Body, Generation) describe
 * the text; the methods (Generate, WriteInvocation, WriteMethodParameters)
 * write it step by step to an IndentedTextWriter, as the C# code does, and are
 * proved to write exactly that text.
 */
module MethodAliasGenerator {
  import opened Wrappers
  import opened Text
  import opened Sequences

  // ---------------------------------------------------------------------------
  // The alias descriptor
  // ---------------------------------------------------------------------------

  /** A type reference: its namespace and its simple name. */
  datatype TypeRef = TypeRef(namespace: string, name: string)

  /** A generic parameter of the aliased method and its constraint expressions. */
  datatype GenericParameter = GenericParameter(name: string, constraints: seq<string>)

  /** A parameter of the aliased method; the first one is the Cake context. */
  datatype Parameter = Parameter(name: string, parameterType: TypeRef, defaultValue: Option<string>)

  /** The `[Obsolete]` attribute of the aliased method. */
  datatype ObsoleteInfo = ObsoleteInfo(message: string, isError: bool)

  /** `alias.Method`: the aliased method's signature. A null return type is None. */
  datatype MethodSignature = MethodSignature(
    name: string,
    returnType: Option<TypeRef>,
    declaringType: TypeRef,
    genericParameters: seq<GenericParameter>,
    parameters: seq<Parameter>)

  /** CakeScriptAlias: the method, its XML documentation and its obsolete state. */
  datatype CakeScriptAlias = CakeScriptAlias(
    target: MethodSignature,
    documentation: string,
    obsolete: Option<ObsoleteInfo>)

  /**
   * The collaborators whose code is not part of this model, as functions:
   * TypeEmitter.Write, ParameterEmitter.GetString (the flag is the Invocation
   * option), WriteDocs and GetObsoleteMessage.
   */
  datatype Emitters = Emitters(
    typeText: TypeRef -> string,
    parameterFragments: (Parameter, bool) -> seq<string>,
    docsText: string -> string,
    obsoleteMessage: CakeScriptAlias -> string)

  /** The exceptions Generate can end with. */
  datatype GenerateError = ArgumentNullException | NullReferenceException

  /** What a call writes to the sink, and the exception it ends with (None: it completes). */
  datatype Emission = Emission(text: string, failure: Option<GenerateError>)

  // ---------------------------------------------------------------------------
  // Fixed tokens
  // ---------------------------------------------------------------------------

  const ContextToken: string := "Context"
  const PragmaDisable: string := "#pragma warning disable 0618"
  const PragmaRestore: string := "#pragma warning restore 0618"

  /** The statement that replaces the body of an alias obsolete as an error. */
  function ThrowStatement(message: string): string
  {
    "throw new Cake.ScriptServer.CakeException(\"" + message + "\");"
  }

  /** The statement that logs the warning of an alias obsolete as a warning. */
  function WarningStatement(message: string): string
  {
    "Context.Log.Warning(\"Warning: " + message + "\");"
  }

  /** `System.Void`, recognised by namespace and name. */
  predicate IsVoid(t: TypeRef)
  {
    t.namespace == "System" && t.name == "Void"
  }

  // ---------------------------------------------------------------------------
  // The text, as specification functions
  // ---------------------------------------------------------------------------

  /** The return type and its trailing space; nothing for a null return type. */
  function ReturnTypeText(em: Emitters, returnType: Option<TypeRef>): string
  {
    match returnType
    case None => ""
    case Some(t) => (if IsVoid(t) then "void" else em.typeText(t)) + " "
  }

  function Names(gps: seq<GenericParameter>): seq<string>
  {
    seq(|gps|, i requires 0 <= i < |gps| => gps[i].name)
  }

  /** `<T1,T2,...>`, or nothing when there are no generic parameters. */
  function GenericArguments(gps: seq<GenericParameter>): string
  {
    if |gps| == 0 then "" else "<" + Join(",", Names(gps)) + ">"
  }

  function WhereClause(g: GenericParameter): string
  {
    " where " + g.name + " : " + Join(",", g.constraints)
  }

  /** The clause of one generic parameter: none when it is unconstrained. */
  function ClauseOf(g: GenericParameter): string
  {
    if |g.constraints| > 0 then WhereClause(g) else ""
  }

  /** One clause per constrained generic parameter, in declaration order. */
  function WhereClauses(gps: seq<GenericParameter>): string
  {
    if |gps| == 0 then "" else ClauseOf(gps[0]) + WhereClauses(gps[1..])
  }

  /** Each parameter's emitter fragments joined with a space (the LINQ Select). */
  function RenderedParameters(em: Emitters, ps: seq<Parameter>, invocation: bool): seq<string>
  {
    seq(|ps|, i requires 0 <= i < |ps| => Join(" ", em.parameterFragments(ps[i], invocation)))
  }

  /** The items of the parameter list: the receiver dropped, `Context` in its place when invoking. */
  function ParameterItems(em: Emitters, ps: seq<Parameter>, invocation: bool): seq<string>
  {
    var rendered := RenderedParameters(em, ps, invocation);
    if |rendered| == 0 then []
    else if invocation then [ContextToken] + rendered[1..]
    else rendered[1..]
  }

  function ParameterList(em: Emitters, ps: seq<Parameter>, invocation: bool): string
  {
    Join(", ", ParameterItems(em, ps, invocation))
  }

  /** Documentation, `public`, return type, name, generic arguments, parameters, constraints. */
  function Header(em: Emitters, a: CakeScriptAlias): string
  {
    var m := a.target;
    em.docsText(a.documentation) + "public " + ReturnTypeText(em, m.returnType) + m.name
    + GenericArguments(m.genericParameters)
    + "(" + ParameterList(em, m.parameters, false) + ")"
    + WhereClauses(m.genericParameters)
  }

  /** The header, a line break and the opening brace. */
  function Opening(em: Emitters, a: CakeScriptAlias): string
  {
    Header(em, a) + "\n" + "{"
  }

  /** The call of the aliased method, given its (non-null) return type. */
  function Invocation(em: Emitters, a: CakeScriptAlias, returnType: TypeRef): string
  {
    var m := a.target;
    (if IsVoid(returnType) then "" else "return ")
    + em.typeText(m.declaringType) + "." + m.name + GenericArguments(m.genericParameters)
    + "(" + ParameterList(em, m.parameters, true) + ");"
  }

  /**
   * The text between the braces. Reaching the invocation with a null return
   * type dereferences it: the text stops there with a NullReferenceException.
   */
  function Body(em: Emitters, a: CakeScriptAlias): Emission
  {
    var message := em.obsoleteMessage(a);
    match a.obsolete
    case Some(o) =>
      if o.isError then Emission(ThrowStatement(message), None)
      else
        var before := WarningStatement(message) + "\n" + PragmaDisable + "\n";
        (match a.target.returnType
         case None => Emission(before, Some(NullReferenceException))
         case Some(t) => Emission(before + Invocation(em, a, t) + "\n" + PragmaRestore, None))
    case None =>
      match a.target.returnType
      case None => Emission("", Some(NullReferenceException))
      case Some(t) => Emission(Invocation(em, a, t), None)
  }

  /** Everything the private Generate writes; the closing brace only when it completes. */
  function Generation(em: Emitters, a: CakeScriptAlias): Emission
  {
    var body := Body(em, a);
    if body.failure.None? then Emission(Opening(em, a) + body.text + "}", None)
    else Emission(Opening(em, a) + body.text, body.failure)
  }

  /** The public Generate: a null alias is rejected before anything is written. */
  function GenerateAlias(em: Emitters, alias: Option<CakeScriptAlias>): Emission
  {
    match alias
    case None => Emission("", Some(ArgumentNullException))
    case Some(a) => Generation(em, a)
  }

  // ---------------------------------------------------------------------------
  // The same text as the writers append it, one write after the other
  // ---------------------------------------------------------------------------

  /*
   * Each Emit function takes the text already in the sink and returns it with
   * the writes of one step of the C# code appended, in the order and with the
   * branches of that code. Its postcondition says that this is the text above.
   * They are proof scaffolding only: they link the Write methods below to the
   * specification functions above.
   */

  function EmitReturnType(out: string, em: Emitters, returnType: Option<TypeRef>): (r: string)
    ensures r == out + ReturnTypeText(em, returnType)
  {
    match returnType
    case None => out
    case Some(t) => (if IsVoid(t) then out + "void" else out + em.typeText(t)) + " "
  }

  function EmitGenericArguments(out: string, gps: seq<GenericParameter>): (r: string)
    ensures r == out + GenericArguments(gps)
  {
    if |gps| > 0 then out + "<" + Join(",", Names(gps)) + ">" else out
  }

  function EmitParameters(out: string, em: Emitters, ps: seq<Parameter>, invocation: bool): (r: string)
    ensures r == out + ParameterList(em, ps, invocation)
  {
    var parameterResult := RenderedParameters(em, ps, invocation);
    if |parameterResult| > 0 then
      out + Join(", ", if invocation then [ContextToken] + parameterResult[1..] else parameterResult[1..])
    else out
  }

  function EmitConstraint(out: string, g: GenericParameter): (r: string)
    ensures r == out + ClauseOf(g)
  {
    if |g.constraints| > 0 then out + " where " + g.name + " : " + Join(",", g.constraints) else out
  }

  /** The `foreach` over the generic parameters, one parameter after the other. */
  function EmitConstraints(out: string, gps: seq<GenericParameter>): (r: string)
    ensures r == out + WhereClauses(gps)
    decreases |gps|
  {
    if |gps| == 0 then out
    else
      var r := EmitConstraints(EmitConstraint(out, gps[0]), gps[1..]);
      AppendAssoc(out, ClauseOf(gps[0]), WhereClauses(gps[1..]));
      r
  }

  function EmitInvocation(out: string, em: Emitters, a: CakeScriptAlias, returnType: TypeRef): (r: string)
    ensures r == out + Invocation(em, a, returnType)
  {
    var m := a.target;
    var s1 := if IsVoid(returnType) then out else out + "return ";
    var s2 := EmitGenericArguments(s1 + em.typeText(m.declaringType) + "." + m.name, m.genericParameters);
    var r := EmitParameters(s2 + "(", em, m.parameters, true) + ");";
    var t, n, ga, pl := em.typeText(m.declaringType), m.name, GenericArguments(m.genericParameters), ParameterList(em, m.parameters, true);
    if IsVoid(returnType) then
      Regroup7(out, t, ".", n, ga, "(", pl, ");");
      assert "" + t == t;
      r
    else
      Regroup8(out, "return ", t, ".", n, ga, "(", pl, ");");
      r
  }

  function EmitHeader(out: string, em: Emitters, a: CakeScriptAlias): (r: string)
    ensures r == out + Header(em, a)
  {
    var m := a.target;
    var s1 := EmitReturnType(out + em.docsText(a.documentation) + "public ", em, m.returnType);
    var s2 := EmitGenericArguments(s1 + m.name, m.genericParameters);
    var s3 := EmitParameters(s2 + "(", em, m.parameters, false) + ")";
    var r := if |m.genericParameters| > 0 then EmitConstraints(s3, m.genericParameters) else s3;
    var d, rt, ga, pl, wc := em.docsText(a.documentation), ReturnTypeText(em, m.returnType), GenericArguments(m.genericParameters), ParameterList(em, m.parameters, false), WhereClauses(m.genericParameters);
    assert r == out + d + "public " + rt + m.name + ga + "(" + pl + ")" + wc by {
      if |m.genericParameters| == 0 {
        assert wc == [];
      }
    }
    Regroup8(out, d, "public ", rt, m.name, ga, "(", pl, ")");
    AppendAssoc(out, d + "public " + rt + m.name + ga + "(" + pl + ")", wc);
    r
  }

  function EmitBody(out: string, em: Emitters, a: CakeScriptAlias): (r: Emission)
    ensures r == Emission(out + Body(em, a).text, Body(em, a).failure)
  {
    var message := em.obsoleteMessage(a);
    var s1 :=
      if a.obsolete.None? then out
      else if a.obsolete.value.isError then out + ThrowStatement(message)
      else out + WarningStatement(message);
    if a.obsolete.Some? && a.obsolete.value.isError then Emission(s1, None)
    else
      var s2 := if a.obsolete.Some? then s1 + "\n" + PragmaDisable + "\n" else s1;
      match a.target.returnType
      case None =>
        var r := Emission(s2, Some(NullReferenceException));
        if a.obsolete.Some? then
          Regroup4(out, WarningStatement(message), "\n", PragmaDisable, "\n");
          r
        else
          assert out + [] == out;
          r
      case Some(t) =>
        var s3 := EmitInvocation(s2, em, a, t);
        var r := Emission(if a.obsolete.Some? then s3 + "\n" + PragmaRestore else s3, None);
        if a.obsolete.Some? then
          Regroup7(out, WarningStatement(message), "\n", PragmaDisable, "\n", Invocation(em, a, t), "\n", PragmaRestore);
          r
        else
          r
  }

  function EmitGeneration(out: string, em: Emitters, a: CakeScriptAlias): (r: Emission)
    ensures r == Emission(out + Generation(em, a).text, Generation(em, a).failure)
  {
    var h := EmitHeader(out, em, a);
    var body := EmitBody(h + "\n" + "{", em, a);
    var b := Body(em, a);
    Regroup4(out, Header(em, a), "\n", "{", b.text);
    Regroup5(out, Header(em, a), "\n", "{", b.text, "}");
    if body.failure.None? then Emission(body.text + "}", None) else body
  }

  // ---------------------------------------------------------------------------
  // The writers and the generator
  // ---------------------------------------------------------------------------

  /** The TextWriter the caller supplies: an append-only sink of characters. */
  class TextSink {
    var text: string

    constructor ()
      ensures text == ""
    {
      text := "";
    }

    method Write(s: string)
      modifies this
      ensures text == old(text) + s
    {
      text := text + s;
    }
  }

  /** IndentedTextWriter: writes through to a sink and tracks the indentation depth. */
  class IndentedTextWriter {
    const inner: TextSink
    var depth: nat

    constructor (inner: TextSink)
      ensures this.inner == inner && depth == 0
    {
      this.inner := inner;
      depth := 0;
    }

    method Write(s: string)
      modifies inner
      ensures inner.text == old(inner.text) + s
    {
      inner.Write(s);
    }

    method WriteLine()
      modifies inner
      ensures inner.text == old(inner.text) + "\n"
    {
      inner.Write("\n");
    }

    /** Entering the `using (writer.BeginScope())` block. */
    method BeginScope()
      modifies this
      ensures depth == old(depth) + 1
    {
      depth := depth + 1;
    }

    /** Disposing the scope handle, on every way out of the block. */
    method EndScope()
      requires depth > 0
      modifies this
      ensures depth == old(depth) - 1
    {
      depth := depth - 1;
    }
  }

  /** WriteMethodParameters: the parameter list in declaration or invocation mode. */
  method WriteMethodParameters(writer: IndentedTextWriter, em: Emitters, a: CakeScriptAlias, invocation: bool)
    modifies writer.inner
    ensures writer.inner.text == old(writer.inner.text) + ParameterList(em, a.target.parameters, invocation)
  {
    var parameterResult := RenderedParameters(em, a.target.parameters, invocation);
    if |parameterResult| > 0 {
      parameterResult := parameterResult[1..];
      if invocation {
        parameterResult := [ContextToken] + parameterResult;
      }
      writer.Write(Join(", ", parameterResult));
    }
    assert writer.inner.text == EmitParameters(old(writer.inner.text), em, a.target.parameters, invocation);
  }

  /** WriteInvocation: fails on a null return type before writing anything. */
  method WriteInvocation(writer: IndentedTextWriter, em: Emitters, a: CakeScriptAlias)
    returns (failure: Option<GenerateError>)
    modifies writer.inner
    ensures a.target.returnType.None? ==>
      failure == Some(NullReferenceException) && writer.inner.text == old(writer.inner.text)
    ensures a.target.returnType.Some? ==>
      failure == None && writer.inner.text == old(writer.inner.text) + Invocation(em, a, a.target.returnType.value)
  {
    if a.target.returnType.None? {
      return Some(NullReferenceException);
    }
    var m := a.target;
    var hasReturnValue := !IsVoid(m.returnType.value);
    if hasReturnValue {
      writer.Write("return ");
    }
    writer.Write(em.typeText(m.declaringType));
    writer.Write(".");
    writer.Write(m.name);
    if |m.genericParameters| > 0 {
      writer.Write("<");
      writer.Write(Join(",", Names(m.genericParameters)));
      writer.Write(">");
    }
    writer.Write("(");
    WriteMethodParameters(writer, em, a, true);
    writer.Write(");");
    assert writer.inner.text == EmitInvocation(old(writer.inner.text), em, a, m.returnType.value);
    failure := None;
  }

  /** The `foreach` over the generic parameters that writes the constraint clauses. */
  method WriteConstraints(writer: IndentedTextWriter, gps: seq<GenericParameter>)
    modifies writer.inner
    ensures writer.inner.text == old(writer.inner.text) + WhereClauses(gps)
  {
    var i := 0;
    while i < |gps|
      invariant 0 <= i <= |gps|
      invariant EmitConstraints(writer.inner.text, gps[i..]) == EmitConstraints(old(writer.inner.text), gps)
    {
      ghost var before := writer.inner.text;
      if |gps[i].constraints| > 0 {
        writer.Write(" where ");
        writer.Write(gps[i].name);
        writer.Write(" : ");
        writer.Write(Join(",", gps[i].constraints));
      }
      assert writer.inner.text == EmitConstraint(before, gps[i]);
      assert gps[i..][1..] == gps[i + 1..];
      i := i + 1;
    }
  }

  /** The first part of the private Generate: the signature line of the wrapper. */
  method WriteHeader(writer: IndentedTextWriter, em: Emitters, a: CakeScriptAlias)
    modifies writer.inner
    ensures writer.inner.text == old(writer.inner.text) + Header(em, a)
  {
    var m := a.target;
    writer.Write(em.docsText(a.documentation));
    writer.Write("public ");
    if m.returnType.Some? {
      if IsVoid(m.returnType.value) {
        writer.Write("void");
      } else {
        writer.Write(em.typeText(m.returnType.value));
      }
      writer.Write(" ");
    }
    writer.Write(m.name);
    if |m.genericParameters| > 0 {
      writer.Write("<");
      writer.Write(Join(",", Names(m.genericParameters)));
      writer.Write(">");
    }
    writer.Write("(");
    WriteMethodParameters(writer, em, a, false);
    writer.Write(")");
    if |m.genericParameters| > 0 {
      WriteConstraints(writer, m.genericParameters);
    }
    assert writer.inner.text == EmitHeader(old(writer.inner.text), em, a);
  }

  /** The block of the private Generate, inside the indentation scope. */
  method WriteBody(writer: IndentedTextWriter, em: Emitters, a: CakeScriptAlias)
    returns (failure: Option<GenerateError>)
    modifies writer.inner
    ensures writer.inner.text == old(writer.inner.text) + Body(em, a).text
    ensures failure == Body(em, a).failure
  {
    var performInvocation := true;
    failure := None;
    if a.obsolete.Some? {
      var message := em.obsoleteMessage(a);
      if a.obsolete.value.isError {
        performInvocation := false;
        writer.Write(ThrowStatement(message));
      } else {
        writer.Write(WarningStatement(message));
      }
    }
    if performInvocation {
      if a.obsolete.Some? {
        writer.WriteLine();
        writer.Write(PragmaDisable);
        writer.WriteLine();
      }
      failure := WriteInvocation(writer, em, a);
      if failure.None? && a.obsolete.Some? {
        writer.WriteLine();
        writer.Write(PragmaRestore);
      }
    }
    assert Emission(writer.inner.text, failure) == EmitBody(old(writer.inner.text), em, a);
  }

  /** The private Generate over an IndentedTextWriter. */
  method GenerateInto(writer: IndentedTextWriter, em: Emitters, a: CakeScriptAlias)
    returns (failure: Option<GenerateError>)
    modifies writer, writer.inner
    ensures writer.depth == old(writer.depth)
    ensures writer.inner.text == old(writer.inner.text) + Generation(em, a).text
    ensures failure == Generation(em, a).failure
  {
    WriteHeader(writer, em, a);
    writer.WriteLine();
    writer.Write("{");
    writer.BeginScope();
    failure := WriteBody(writer, em, a);
    writer.EndScope();
    if failure.None? {
      writer.Write("}");
    }
    assert Emission(writer.inner.text, failure) == EmitGeneration(old(writer.inner.text), em, a);
  }

  /** The public Generate: rejects a null alias, then generates through a fresh IndentedTextWriter. */
  method Generate(writer: TextSink, em: Emitters, alias: Option<CakeScriptAlias>)
    returns (failure: Option<GenerateError>)
    modifies writer
    ensures writer.text == old(writer.text) + GenerateAlias(em, alias).text
    ensures failure == GenerateAlias(em, alias).failure
  {
    if alias.None? {
      return Some(ArgumentNullException);
    }
    var indented := new IndentedTextWriter(writer);
    failure := GenerateInto(indented, em, alias.value);
  }

  /** Two generations of the same alias into fresh sinks write the same text. */
  method GenerateTwice(em: Emitters, alias: Option<CakeScriptAlias>) returns (first: string, second: string)
    ensures first == second
    ensures first == GenerateAlias(em, alias).text
  {
    var sink1 := new TextSink();
    var _ := Generate(sink1, em, alias);
    var sink2 := new TextSink();
    var _ := Generate(sink2, em, alias);
    first, second := sink1.text, sink2.text;
  }

  // ---------------------------------------------------------------------------
  // Properties
  // ---------------------------------------------------------------------------

  /** The constraint clauses of two runs of parameters are those of each run, in order. */
  lemma {:induction false} WhereClausesAppend(a: seq<GenericParameter>, b: seq<GenericParameter>)
    ensures WhereClauses(a + b) == WhereClauses(a) + WhereClauses(b)
  {
    if |a| == 0 {
      assert a + b == b;
    } else {
      assert (a + b)[0] == a[0];
      assert (a + b)[1..] == a[1..] + b;
      WhereClausesAppend(a[1..], b);
    }
  }

  /** No constraint clause at all exactly when no generic parameter is constrained. */
  lemma {:induction false} WhereClausesEmptyIff(gps: seq<GenericParameter>)
    ensures WhereClauses(gps) == "" <==> forall i :: 0 <= i < |gps| ==> |gps[i].constraints| == 0
  {
    if |gps| > 0 {
      WhereClausesEmptyIff(gps[1..]);
      if |gps[0].constraints| > 0 {
        assert WhereClauses(gps)[..7] == " where ";
      }
      assert forall i :: 1 <= i < |gps| ==> gps[i] == gps[1..][i - 1];
    }
  }

  /** Independently of the recursion: clause i belongs to parameter i, empty when it is unconstrained. */
  lemma {:induction false} WhereClausesPerParameter(gps: seq<GenericParameter>)
    ensures WhereClauses(gps)
      == Flatten(seq(|gps|, i requires 0 <= i < |gps| => ClauseOf(gps[i])))
  {
    var clauses := seq(|gps|, i requires 0 <= i < |gps| => ClauseOf(gps[i]));
    if |gps| > 0 {
      WhereClausesPerParameter(gps[1..]);
      assert clauses[1..] == seq(|gps[1..]|, i requires 0 <= i < |gps[1..]| => ClauseOf(gps[1..][i]));
    }
  }

  /** The generic suffix lists exactly the generic parameters' names, in declared order. */
  lemma GenericArgumentsListNames(gps: seq<GenericParameter>)
    requires forall i :: 0 <= i < |gps| ==> ',' !in gps[i].name
    ensures |gps| == 0 ==> GenericArguments(gps) == ""
    ensures |gps| > 0 ==>
      var g := GenericArguments(gps);
      |g| >= 2 && g[0] == '<' && g[|g| - 1] == '>' && Split(',', g[1..|g| - 1]) == Names(gps)
  {
    if |gps| > 0 {
      var g := GenericArguments(gps);
      var inside := Join(",", Names(gps));
      assert g[1..|g| - 1] == inside;
      assert forall i :: 0 <= i < |Names(gps)| ==> ',' !in Names(gps)[i];
      SplitJoin(',', Names(gps));
    }
  }

  /**
   * The receiver is dropped from the declaration and replaced by `Context` in the
   * invocation; every other parameter keeps its position relative to the others.
   */
  lemma ReceiverReplacedByContext(em: Emitters, ps: seq<Parameter>)
    ensures |ps| == 0 ==> ParameterItems(em, ps, false) == [] && ParameterItems(em, ps, true) == []
    ensures |ps| > 0 ==>
      var decl := ParameterItems(em, ps, false);
      var call := ParameterItems(em, ps, true);
      && |decl| == |ps| - 1 && |call| == |ps| && call[0] == ContextToken
      && (forall k :: 1 <= k < |ps| ==>
            decl[k - 1] == Join(" ", em.parameterFragments(ps[k], false))
            && call[k] == Join(" ", em.parameterFragments(ps[k], true)))
  {
  }

  /** The invocation's argument text is `Context`, then the remaining parameters after ", ". */
  lemma InvocationArgumentsStartWithContext(em: Emitters, ps: seq<Parameter>)
    requires |ps| > 0
    ensures ParameterList(em, ps, true) ==
      if |ps| == 1 then ContextToken
      else ContextToken + ", " + Join(", ", RenderedParameters(em, ps, true)[1..])
  {
    JoinCons(", ", ContextToken, RenderedParameters(em, ps, true)[1..]);
  }

  /** An empty parameter list writes nothing in either mode. */
  lemma EmptyParameterList(em: Emitters, ps: seq<Parameter>, invocation: bool)
    requires ps == []
    ensures ParameterList(em, ps, invocation) == ""
  {
  }

  /** The invocation begins with `return ` unless the method returns `System.Void`, and ends with `);`. */
  lemma InvocationShape(em: Emitters, a: CakeScriptAlias, t: TypeRef)
    ensures var inv := Invocation(em, a, t);
      && |inv| >= 2 && inv[|inv| - 2..] == ");"
      && (!IsVoid(t) ==> |inv| >= 7 && inv[..7] == "return ")
      && (IsVoid(t) ==> inv[..|em.typeText(a.target.declaringType)|] == em.typeText(a.target.declaringType))
  {
  }

  /** A `System.Void` return type is written as the keyword `void`, never through the type emitter. */
  lemma VoidReturnTypeIsKeyword(em: Emitters, a: CakeScriptAlias)
    requires a.target.returnType.Some? && IsVoid(a.target.returnType.value)
    ensures var prefix := em.docsText(a.documentation) + "public void ";
      |Header(em, a)| >= |prefix| && Header(em, a)[..|prefix|] == prefix
  {
  }

  /** Generation completes exactly when no invocation is needed or the return type is not null. */
  lemma GenerationCompletesIff(em: Emitters, a: CakeScriptAlias)
    ensures Generation(em, a).failure.None? <==>
      (a.obsolete.Some? && a.obsolete.value.isError) || a.target.returnType.Some?
    ensures Generation(em, a).failure.Some? ==> Generation(em, a).failure == Some(NullReferenceException)
  {
  }

  /** A null alias is rejected with ArgumentNullException and nothing is written. */
  lemma NullAliasRejected(em: Emitters)
    ensures GenerateAlias(em, None) == Emission("", Some(ArgumentNullException))
  {
  }

  /** Obsolete as an error: the body is the throw statement alone, whatever the return type. */
  lemma ErrorBodyIsThrowOnly(em: Emitters, a: CakeScriptAlias)
    requires a.obsolete.Some? && a.obsolete.value.isError
    ensures Generation(em, a) == Emission(Opening(em, a) + ThrowStatement(em.obsoleteMessage(a)) + "}", None)
  {
  }

  /** Obsolete as a warning: warning, disable pragma, invocation, restore pragma, one per line. */
  lemma WarningBodyOrder(em: Emitters, a: CakeScriptAlias)
    requires a.obsolete.Some? && !a.obsolete.value.isError && a.target.returnType.Some?
    ensures var lines := [WarningStatement(em.obsoleteMessage(a)), PragmaDisable,
                          Invocation(em, a, a.target.returnType.value), PragmaRestore];
      Generation(em, a) == Emission(Opening(em, a) + Join("\n", lines) + "}", None)
  {
    var w, inv := WarningStatement(em.obsoleteMessage(a)), Invocation(em, a, a.target.returnType.value);
    var lines := [w, PragmaDisable, inv, PragmaRestore];
    assert lines[1..] == [PragmaDisable, inv, PragmaRestore];
    assert lines[1..][1..] == [inv, PragmaRestore];
    assert lines[1..][1..][1..] == [PragmaRestore];
    assert Join("\n", lines[1..][1..]) == inv + "\n" + PragmaRestore;
    assert Join("\n", lines[1..]) == PragmaDisable + "\n" + (inv + "\n" + PragmaRestore);
    Regroup3(PragmaDisable + "\n", inv, "\n", PragmaRestore);
    Regroup5(w + "\n", PragmaDisable, "\n", inv, "\n", PragmaRestore);
  }

  /** Not obsolete: the body is the invocation alone. */
  lemma PlainBodyIsInvocation(em: Emitters, a: CakeScriptAlias)
    requires a.obsolete.None? && a.target.returnType.Some?
    ensures Generation(em, a) == Emission(Opening(em, a) + Invocation(em, a, a.target.returnType.value) + "}", None)
  {
  }

  // ---------------------------------------------------------------------------
  // Worked examples with a simple pair of emitters
  // ---------------------------------------------------------------------------

  /** Types by simple name; declarations as `Type name`, invocations as `name`. */
  function SimpleEmitters(): Emitters
  {
    Emitters(
      (t: TypeRef) => t.name,
      (p: Parameter, invocation: bool) => if invocation then [p.name] else [p.parameterType.name, p.name],
      (d: string) => d,
      (a: CakeScriptAlias) => a.target.name)
  }

  /** CopyFile(context, source, dest) as declared: the receiver is dropped. */
  lemma CopyFileDeclaration()
    ensures var path := TypeRef("Cake.Core.IO", "Path");
      var ctx := Parameter("context", TypeRef("Cake.Core", "ICakeContext"), None);
      ParameterList(SimpleEmitters(), [ctx, Parameter("source", path, None), Parameter("dest", path, None)], false)
      == "Path source, Path dest"
  {
    var em := SimpleEmitters();
    var path := TypeRef("Cake.Core.IO", "Path");
    var ctx := Parameter("context", TypeRef("Cake.Core", "ICakeContext"), None);
    var ps := [ctx, Parameter("source", path, None), Parameter("dest", path, None)];
    assert Join(" ", ["source"]) == "source";
    assert Join(" ", ["dest"]) == "dest";
    assert Join(" ", ["Path", "source"]) == "Path" + " " + Join(" ", ["source"]);
    assert Join(" ", ["Path", "dest"]) == "Path" + " " + Join(" ", ["dest"]);
    assert "Path" + " " + "source" == "Path source" && "Path" + " " + "dest" == "Path dest";
    assert em.parameterFragments(ps[1], false) == ["Path", "source"];
    assert em.parameterFragments(ps[2], false) == ["Path", "dest"];
    assert RenderedParameters(em, ps, false)[1..] == ["Path source", "Path dest"];
    assert Join(", ", ["Path dest"]) == "Path dest";
  }

  /** CopyFile(context, source, dest) as invoked: `Context` in the receiver's place. */
  lemma CopyFileInvocation()
    ensures var path := TypeRef("Cake.Core.IO", "Path");
      var ctx := Parameter("context", TypeRef("Cake.Core", "ICakeContext"), None);
      ParameterList(SimpleEmitters(), [ctx, Parameter("source", path, None), Parameter("dest", path, None)], true)
      == "Context" + ", " + ("source" + ", " + "dest")
  {
    var em := SimpleEmitters();
    var path := TypeRef("Cake.Core.IO", "Path");
    var ctx := Parameter("context", TypeRef("Cake.Core", "ICakeContext"), None);
    var ps := [ctx, Parameter("source", path, None), Parameter("dest", path, None)];
    assert Join(" ", ["source"]) == "source";
    assert Join(" ", ["dest"]) == "dest";
    assert RenderedParameters(em, ps, true)[1..] == ["source", "dest"];
    assert ParameterItems(em, ps, true) == ["Context", "source", "dest"];
  }

  /** The whole CopyFile alias: header line, opening brace, the invocation and the closing brace. */
  lemma CopyFileGeneration()
    ensures var path := TypeRef("Cake.Core.IO", "Path");
      var ctx := Parameter("context", TypeRef("Cake.Core", "ICakeContext"), None);
      var m := MethodSignature("CopyFile", Some(TypeRef("System", "Void")), TypeRef("Cake.Common.IO", "FileAliases"),
                               [], [ctx, Parameter("source", path, None), Parameter("dest", path, None)]);
      GenerateAlias(SimpleEmitters(), Some(CakeScriptAlias(m, "", None)))
      == Emission(("public " + "void " + "CopyFile" + "(" + "Path source, Path dest" + ")") + "\n" + "{"
                  + ("FileAliases" + "." + "CopyFile" + "(" + ("Context" + ", " + ("source" + ", " + "dest")) + ");") + "}", None)
  {
    CopyFileDeclaration();
    CopyFileInvocation();
    var em := SimpleEmitters();
    var path := TypeRef("Cake.Core.IO", "Path");
    var ctx := Parameter("context", TypeRef("Cake.Core", "ICakeContext"), None);
    var m := MethodSignature("CopyFile", Some(TypeRef("System", "Void")), TypeRef("Cake.Common.IO", "FileAliases"),
                             [], [ctx, Parameter("source", path, None), Parameter("dest", path, None)]);
    var a := CakeScriptAlias(m, "", None);
    assert ReturnTypeText(em, m.returnType) == "void ";
    assert GenericArguments([]) == [] && WhereClauses([]) == [];
    assert em.docsText("") + "public " == "public ";
    var h := "public " + "void " + "CopyFile";
    assert h + GenericArguments([]) == h;
    var h2 := h + "(" + "Path source, Path dest" + ")";
    assert h2 + WhereClauses([]) == h2;
    assert Header(em, a) == h2;
    assert "" + "FileAliases" == "FileAliases";
    var i := "FileAliases" + "." + "CopyFile";
    assert i + GenericArguments([]) == i;
    assert Invocation(em, a, TypeRef("System", "Void")) == i + "(" + ("Context" + ", " + ("source" + ", " + "dest")) + ");";
  }

  /** Generic parameters T and U: `<T,U>`, both names in declared order. */
  lemma GenericArgumentsExample()
    ensures GenericArguments([GenericParameter("T", []), GenericParameter("U", ["class", "new()"])]) == "<T,U>"
  {
    var gps := [GenericParameter("T", []), GenericParameter("U", ["class", "new()"])];
    assert Names(gps) == ["T", "U"];
    assert Join(",", ["U"]) == "U";
  }

  /** T unconstrained and U constrained to `class, new()`: one clause, for U. */
  lemma GenericConstraintExample()
    ensures WhereClauses([GenericParameter("T", []), GenericParameter("U", ["class", "new()"])])
      == " where U : " + "class,new()"
  {
    var gps := [GenericParameter("T", []), GenericParameter("U", ["class", "new()"])];
    assert Join(",", ["new()"]) == "new()";
    assert gps[1..][1..] == [];
    assert WhereClauses(gps) == WhereClause(gps[1]);
  }
}
