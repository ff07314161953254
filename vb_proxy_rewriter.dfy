/**
 * The Visual Basic proxy rewriter (VisualBasicProxyRewriter.cs): how it reshapes the
 * members of a proxy class (custom event blocks, out/ByRef parameter forwarding,
 * property accessors), and the parameter fixup pass that renames parameters which
 * clash with their method's name.
 *
 * `ImplementMethod`, `InspectProperty` and the shared ProxySyntaxRewriter are
 * function-valued fields of `Generator` and `ProxySyntaxRewriter`: nothing is
 * assumed about what they return. Four generator calls are read as the syntax
 * accessors they stand for: `GetType` as the statement's `As` type,
 * `GetParameters` as the statement's parameters, and `WithGetAccessorStatements` /
 * `WithSetAccessorStatements` as giving the accessor (created when missing)
 * exactly the statements passed; the setter's pipeline call is passed as a bare
 * expression and is recorded wrapped in an `ExpressionStatement`.
 */
module ProxyRewrite {
  import opened Wrappers
  import opened Sequences
  import opened VisualBasicSyntax

  /** The generator extension calls the rewriter makes. */
  datatype Generator = Generator(
    implementMethod: (MethodBlock, Option<string>) -> MethodBlock,
    implementMethodWithOutRef: (MethodBlock, Option<string>, seq<Parameter>, seq<Parameter>) -> MethodBlock,
    inspectProperty: PropertyBlock -> (bool, bool))

  /** The language-independent rewriter the Visual Basic one delegates to. */
  datatype ProxySyntaxRewriter = ProxySyntaxRewriter(
    visitClass: ClassBlock -> ClassBlock,
    visitBehaviorsProperty: PropertyBlock -> PropertyBlock)

  // ------------------------------------------------------------------ method blocks

  function HasModifier(modifier: Modifier): Parameter -> bool
  {
    (p: Parameter) => modifier in p.modifiers
  }

  /** The parameters carrying `modifier`, in declaration order. */
  function ParametersWith(parameters: seq<Parameter>, modifier: Modifier): seq<Parameter>
  {
    Filter(parameters, HasModifier(modifier))
  }

  predicate PassesByReference(p: Parameter)
  {
    OutKeyword in p.modifiers || ByRefKeyword in p.modifiers
  }

  /**
   * What the visitor can throw: a member access on a missing parameter list, or a
   * missing type handed to the syntax factory.
   */
  datatype RewriteError = NullReference | ArgumentNull

  /**
   * The out/ByRef form of ImplementMethod is needed exactly when some parameter is
   * passed `Out` or `ByRef`.
   */
  lemma ByReferenceIff(parameters: seq<Parameter>)
    ensures ParametersWith(parameters, OutKeyword) != [] || ParametersWith(parameters, ByRefKeyword) != []
        <==> exists p :: p in parameters && PassesByReference(p)
  {
    if exists p :: p in parameters && PassesByReference(p) {
      var p :| p in parameters && PassesByReference(p);
      ParametersWithModifier(parameters, OutKeyword, p);
      ParametersWithModifier(parameters, ByRefKeyword, p);
    } else {
      var outParams := ParametersWith(parameters, OutKeyword);
      var refParams := ParametersWith(parameters, ByRefKeyword);
      if outParams != [] {
        ParametersWithModifier(parameters, OutKeyword, outParams[0]);
      }
      if refParams != [] {
        ParametersWithModifier(parameters, ByRefKeyword, refParams[0]);
      }
    }
  }

  /**
   * A method with no parameter list makes the visitor throw. Otherwise the out/ByRef
   * form of ImplementMethod, given both lists, is used exactly when some parameter is
   * passed `Out` or `ByRef`, and the plain form is used when none is.
   */
  function VisitMethodBlock(generator: Generator, node: MethodBlock): (r: Result<MethodBlock, RewriteError>)
    ensures r.Failure? <==> node.statement.parameterList.None?
    ensures node.statement.parameterList.Some?
            && (exists p :: p in node.statement.parameterList.value && PassesByReference(p))
        ==> r == Success(generator.implementMethodWithOutRef(node, node.statement.asType,
                           ParametersWith(node.statement.parameterList.value, OutKeyword),
                           ParametersWith(node.statement.parameterList.value, ByRefKeyword)))
    ensures node.statement.parameterList.Some?
            && (forall p :: p in node.statement.parameterList.value ==> !PassesByReference(p))
        ==> r == Success(generator.implementMethod(node, node.statement.asType))
  {
    match node.statement.parameterList
    case None => Failure(NullReference)
    case Some(parameters) =>
      ByReferenceIff(parameters);
      var outParams := ParametersWith(parameters, OutKeyword);
      var refParams := ParametersWith(parameters, ByRefKeyword);
      if |outParams| != 0 || |refParams| != 0 then
        Success(generator.implementMethodWithOutRef(node, node.statement.asType, outParams, refParams))
      else
        Success(generator.implementMethod(node, node.statement.asType))
  }

  /**
   * The out (resp. ByRef) parameters are exactly the parameters with that modifier,
   * in declaration order.
   */
  lemma ParametersWithModifier(parameters: seq<Parameter>, modifier: Modifier, p: Parameter)
    ensures p in ParametersWith(parameters, modifier) <==> p in parameters && modifier in p.modifiers
    ensures IsSubsequence(ParametersWith(parameters, modifier), parameters)
  {
    FilterMembership(parameters, HasModifier(modifier), p);
    FilterIsSubsequence(parameters, HasModifier(modifier));
  }

  // ------------------------------------------------------------------ property blocks

  /** The member a proxy's `Behaviors` property implements. */
  const BehaviorsMember: string := "IProxy.Behaviors"

  predicate ImplementsBehaviors(node: PropertyBlock)
  {
    |node.statement.implements| > 0 && node.statement.implements[0] == BehaviorsMember
  }

  function ValueParameter(asType: Option<string>): Parameter
  {
    Parameter([], "value", asType)
  }

  /** A property that gets a setter although it has no type for the setter's `value`. */
  predicate SetterLacksType(generator: Generator, node: PropertyBlock)
  {
    !ImplementsBehaviors(node) && generator.inspectProperty(node).1 && node.statement.asType.None?
  }

  /**
   * The `Behaviors` property is handed to the shared rewriter with `ReadOnly` as its
   * only modifier, and the generator is not consulted. A writable property without
   * an `As` clause makes the visitor throw, since its setter's `value` has no type.
   * Any other property keeps its statement; it gets a getter that returns the
   * pipeline's result exactly when it can be read, and a setter that forwards its
   * parameters followed by `value` of the property's type exactly when it can be
   * written; an accessor that is not generated is left as it was.
   */
  function VisitPropertyBlock(generator: Generator, rewriter: ProxySyntaxRewriter, node: PropertyBlock)
    : (r: Result<PropertyBlock, RewriteError>)
    ensures r.Failure? <==> SetterLacksType(generator, node)
    ensures ImplementsBehaviors(node)
        ==> r == Success(rewriter.visitBehaviorsProperty(node.(statement := node.statement.(modifiers := [ReadOnlyKeyword]))))
    ensures r.Success? && !ImplementsBehaviors(node) ==> r.value.statement == node.statement
    ensures r.Success? && !ImplementsBehaviors(node)
        ==> r.value.getter == if generator.inspectProperty(node).0
                              then Some([ReturnStatement(ExecutePipeline(node.statement.asType, node.statement.parameters))])
                              else node.getter
    ensures r.Success? && !ImplementsBehaviors(node)
        ==> r.value.setter == if generator.inspectProperty(node).1
                              then Some([ExpressionStatement(
                                     ExecutePipeline(None, node.statement.parameters + [ValueParameter(node.statement.asType)]))])
                              else node.setter
  {
    if ImplementsBehaviors(node) then
      Success(rewriter.visitBehaviorsProperty(node.(statement := node.statement.(modifiers := [ReadOnlyKeyword]))))
    else
      var (canRead, canWrite) := generator.inspectProperty(node);
      var propertyType := node.statement.asType;
      var withGetter :=
        if canRead then
          node.(getter := Some([ReturnStatement(ExecutePipeline(propertyType, node.statement.parameters))]))
        else node;
      if !canWrite then Success(withGetter)
      else if propertyType.None? then Failure(ArgumentNull)
      else
        Success(withGetter.(setter := Some([ExpressionStatement(
          ExecutePipeline(None, withGetter.statement.parameters + [ValueParameter(propertyType)]))])))
  }

  // ------------------------------------------------------------------ class blocks

  predicate IsEventStatement(m: Member)
  {
    m.EventStatementMember?
  }

  predicate IsNotEventStatement(m: Member)
  {
    !m.EventStatementMember?
  }

  /** The event statements among the members, in order (`ChildNodes().OfType<EventStatementSyntax>()`). */
  function Events(members: seq<Member>): seq<EventStatement>
  {
    if members == [] then []
    else (if members[0].EventStatementMember? then [members[0].event] else []) + Events(members[1..])
  }

  /**
   * The custom event block that replaces an event statement: the event marked
   * `Custom`, with AddHandler, RemoveHandler and RaiseEvent accessors in that order.
   * AddHandler and RemoveHandler take `value` of the event's type and run the
   * pipeline with it; RaiseEvent takes `sender As Object, args As EventArgs` and has
   * no statements.
   */
  function CustomEventBlock(e: EventStatement): (r: Member)
    ensures r.EventBlockMember? && r.eventStatement == e.(isCustom := true)
    ensures |r.accessors| == 3
    ensures r.accessors[0].kind == AddHandlerAccessor
    ensures r.accessors[1].kind == RemoveHandlerAccessor
    ensures r.accessors[2].kind == RaiseEventAccessor
    ensures r.accessors[0].parameters == r.accessors[1].parameters == [Parameter([], "value", e.asType)]
    ensures r.accessors[0].statements == r.accessors[1].statements
         == [ExpressionStatement(ExecutePipeline(None, [Parameter([], "value", e.asType)]))]
    ensures r.accessors[2].parameters == [Parameter([], "sender", Some("Object")), Parameter([], "args", Some("EventArgs"))]
    ensures r.accessors[2].statements == []
  {
    var valueParam := ValueParameter(e.asType);
    var statements := [ExpressionStatement(ExecutePipeline(None, [valueParam]))];
    EventBlockMember(e.(isCustom := true), [
      AccessorBlock(AddHandlerAccessor, [valueParam], statements),
      AccessorBlock(RemoveHandlerAccessor, [valueParam], statements),
      AccessorBlock(RaiseEventAccessor,
        [Parameter([], "sender", Some("Object")), Parameter([], "args", Some("EventArgs"))], [])
    ])
  }

  function CustomEventBlocks(events: seq<EventStatement>): seq<Member>
  {
    seq(|events|, i requires 0 <= i < |events| => CustomEventBlock(events[i]))
  }

  /** The members after the event statements are removed and their custom blocks appended. */
  function WithCustomEvents(members: seq<Member>): seq<Member>
  {
    Filter(members, IsNotEventStatement) + CustomEventBlocks(Events(members))
  }

  /**
   * A member whose visit throws: a method without a parameter list, or a property
   * whose setter needs the type it lacks.
   */
  predicate Throws(generator: Generator, m: Member)
  {
    || (m.MethodMember? && m.block.statement.parameterList.None?)
    || (m.PropertyMember? && SetterLacksType(generator, m.property))
  }

  /** What the base visitor does to each member afterwards: visit method and property blocks. */
  function VisitMember(generator: Generator, rewriter: ProxySyntaxRewriter, member: Member): Result<Member, RewriteError>
  {
    match member
    case MethodMember(block) =>
      (match VisitMethodBlock(generator, block)
       case Success(visited) => Success(MethodMember(visited))
       case Failure(e) => Failure(e))
    case PropertyMember(property) =>
      (match VisitPropertyBlock(generator, rewriter, property)
       case Success(visited) => Success(PropertyMember(visited))
       case Failure(e) => Failure(e))
    case _ => Success(member)
  }

  /** Visits the members in order; the first one that throws ends the visit. */
  function VisitMembers(generator: Generator, rewriter: ProxySyntaxRewriter, members: seq<Member>): Result<seq<Member>, RewriteError>
  {
    if members == [] then Success([])
    else match VisitMember(generator, rewriter, members[0])
      case Failure(e) => Failure(e)
      case Success(first) =>
        match VisitMembers(generator, rewriter, members[1..])
        case Failure(e) => Failure(e)
        case Success(rest) => Success([first] + rest)
  }

  /**
   * Visiting the members throws exactly when some member's visit throws; otherwise
   * every member is visited in place.
   */
  lemma {:induction false} VisitMembersFailsIff(generator: Generator, rewriter: ProxySyntaxRewriter, members: seq<Member>)
    ensures VisitMembers(generator, rewriter, members).Failure?
        <==> exists i :: 0 <= i < |members| && Throws(generator, members[i])
    ensures VisitMembers(generator, rewriter, members).Success?
        ==> |VisitMembers(generator, rewriter, members).value| == |members|
            && forall i :: 0 <= i < |members|
                 ==> VisitMember(generator, rewriter, members[i]) == Success(VisitMembers(generator, rewriter, members).value[i])
  {
    if members != [] {
      VisitMembersFailsIff(generator, rewriter, members[1..]);
      assert VisitMember(generator, rewriter, members[0]).Failure? <==> Throws(generator, members[0]);
      if exists i :: 0 <= i < |members| && Throws(generator, members[i]) {
        var i :| 0 <= i < |members| && Throws(generator, members[i]);
        if i > 0 {
          assert members[1..][i - 1] == members[i];
        }
      }
      if exists i :: 0 <= i < |members[1..]| && Throws(generator, members[1..][i]) {
        var i :| 0 <= i < |members[1..]| && Throws(generator, members[1..][i]);
        assert Throws(generator, members[i + 1]);
      }
      var r := VisitMembers(generator, rewriter, members);
      if r.Success? {
        forall i | 0 <= i < |members|
          ensures VisitMember(generator, rewriter, members[i]) == Success(r.value[i])
        {
          if i > 0 {
            assert members[1..][i - 1] == members[i];
          }
        }
      }
    }
  }

  /**
   * Lets the shared rewriter visit the class, turns every event statement into a
   * custom event block appended at the end, then visits the members; the visit
   * throws when a member does.
   */
  method VisitClassBlock(generator: Generator, rewriter: ProxySyntaxRewriter, node: ClassBlock)
    returns (r: Result<ClassBlock, RewriteError>)
    ensures r.Failure? <==> VisitMembers(generator, rewriter, WithCustomEvents(rewriter.visitClass(node).members)).Failure?
    ensures r.Success? ==> r.value.identifier == rewriter.visitClass(node).identifier
    ensures r.Success? ==> r.value.members == VisitMembers(generator, rewriter, WithCustomEvents(rewriter.visitClass(node).members)).value
  {
    var visited := rewriter.visitClass(node);
    var events := Events(visited.members);
    var members := Filter(visited.members, IsNotEventStatement);
    for i := 0 to |events|
      invariant members == Filter(visited.members, IsNotEventStatement) + CustomEventBlocks(events[..i])
    {
      assert CustomEventBlocks(events[..i + 1]) == CustomEventBlocks(events[..i]) + [CustomEventBlock(events[i])];
      members := members + [CustomEventBlock(events[i])];
    }
    assert events[..|events|] == events;
    match VisitMembers(generator, rewriter, members)
    case Failure(e) =>
      r := Failure(e);
    case Success(visitedMembers) =>
      r := Success(ClassBlock(visited.identifier, visitedMembers));
  }

  /** The event statements, as members, are the members filtered by being an event statement. */
  lemma {:induction false} EventsAreFiltered(members: seq<Member>)
    ensures |Events(members)| == |Filter(members, IsEventStatement)|
    ensures forall i :: 0 <= i < |Events(members)|
              ==> Filter(members, IsEventStatement)[i] == EventStatementMember(Events(members)[i])
  {
    if members != [] {
      EventsAreFiltered(members[1..]);
    }
  }

  /** Each member is either kept or turned into exactly one custom event block. */
  lemma {:induction false} EventsPartition(members: seq<Member>)
    ensures |Filter(members, IsNotEventStatement)| + |Events(members)| == |members|
  {
    EventsAreFiltered(members);
    FilterPartition(members, IsNotEventStatement, IsEventStatement);
  }

  /**
   * After the reshaping no event statement is left; the other members come first,
   * all of them, in their original order; then one custom event block per removed
   * event, in the events' original order.
   */
  lemma CustomEventsReshape(members: seq<Member>)
    ensures |WithCustomEvents(members)| == |members|
    ensures forall i :: 0 <= i < |WithCustomEvents(members)| ==> !WithCustomEvents(members)[i].EventStatementMember?
    ensures var kept := Filter(members, IsNotEventStatement);
            && WithCustomEvents(members)[..|kept|] == kept
            && IsSubsequence(kept, members)
            && (forall i :: 0 <= i < |members| && !members[i].EventStatementMember? ==> members[i] in kept)
    ensures var kept := Filter(members, IsNotEventStatement);
            forall i :: 0 <= i < |Events(members)| ==> WithCustomEvents(members)[|kept| + i] == CustomEventBlock(Events(members)[i])
    ensures IsSubsequence(seq(|Events(members)|, i requires 0 <= i < |Events(members)| => EventStatementMember(Events(members)[i])), members)
  {
    var kept := Filter(members, IsNotEventStatement);
    var w := WithCustomEvents(members);
    EventsPartition(members);
    FilterIsSubsequence(members, IsNotEventStatement);
    forall i | 0 <= i < |members| && !members[i].EventStatementMember?
      ensures members[i] in kept
    {
      FilterMembership(members, IsNotEventStatement, members[i]);
    }
    forall i | 0 <= i < |w|
      ensures !w[i].EventStatementMember?
    {
      if i < |kept| {
        FilterMembership(members, IsNotEventStatement, w[i]);
      }
    }
    EventsAreFiltered(members);
    FilterIsSubsequence(members, IsEventStatement);
    var asMembers := seq(|Events(members)|, i requires 0 <= i < |Events(members)| => EventStatementMember(Events(members)[i]));
    assert asMembers == Filter(members, IsEventStatement);
  }

  /** The reshaping keeps exactly the members whose visit throws. */
  lemma ReshapeKeepsThrowingMembers(generator: Generator, members: seq<Member>)
    ensures (exists i :: 0 <= i < |WithCustomEvents(members)| && Throws(generator, WithCustomEvents(members)[i]))
        <==> exists i :: 0 <= i < |members| && Throws(generator, members[i])
  {
    var kept := Filter(members, IsNotEventStatement);
    var w := WithCustomEvents(members);
    var blocks := CustomEventBlocks(Events(members));
    assert w == kept + blocks;
    if exists i :: 0 <= i < |w| && Throws(generator, w[i]) {
      var i :| 0 <= i < |w| && Throws(generator, w[i]);
      assert i < |kept|;
      assert w[i] == kept[i];
      FilterMembership(members, IsNotEventStatement, w[i]);
      var j :| 0 <= j < |members| && members[j] == w[i];
    }
    if exists i :: 0 <= i < |members| && Throws(generator, members[i]) {
      var i :| 0 <= i < |members| && Throws(generator, members[i]);
      FilterMembership(members, IsNotEventStatement, members[i]);
      var j :| 0 <= j < |kept| && kept[j] == members[i];
      assert w[j] == kept[j];
    }
  }

  /**
   * Visiting the reshaped members throws exactly when one of the members given,
   * that is, those the shared rewriter's visit of the class returned, throws: the
   * custom event blocks never throw.
   */
  lemma ClassBlockFailsIff(generator: Generator, rewriter: ProxySyntaxRewriter, members: seq<Member>)
    ensures VisitMembers(generator, rewriter, WithCustomEvents(members)).Failure?
        <==> exists i :: 0 <= i < |members| && Throws(generator, members[i])
  {
    VisitMembersFailsIff(generator, rewriter, WithCustomEvents(members));
    ReshapeKeepsThrowingMembers(generator, members);
  }

  // ------------------------------------------------------------------ parameter fixup

  /** Upper-casing of the ordinal case-insensitive comparison, for ASCII letters. */
  function ToUpperInvariant(c: char): char
  {
    if 'a' <= c <= 'z' then (c as int - 32) as char else c
  }

  predicate EqualsOrdinalIgnoreCase(a: string, b: string)
  {
    |a| == |b| && forall i :: 0 <= i < |a| ==> ToUpperInvariant(a[i]) == ToUpperInvariant(b[i])
  }

  /** The parameter's name equals, ignoring case, the name of the Sub or Function it belongs to. */
  predicate ClashesWithMethodName(parameter: Parameter, enclosing: Option<BlockStatement>)
  {
    && enclosing.Some?
    && enclosing.value.SubOrFunctionStatement?
    && EqualsOrdinalIgnoreCase(enclosing.value.statement.identifier, parameter.identifier)
  }

  function Renamed(parameter: Parameter): Parameter
  {
    parameter.(identifier := "_" + parameter.identifier)
  }

  /** The fixup visitor with its dictionary of renamed parameters. */
  class VisualBasicParameterFixup {
    var renamedParameters: map<string, string>

    /** Every entry maps a parameter's original name `t` to `"_" + t`. */
    ghost predicate Valid()
      reads this
    {
      forall name :: name in renamedParameters ==> renamedParameters[name] == "_" + name
    }

    constructor()
      ensures Valid() && renamedParameters == map[]
    {
      renamedParameters := map[];
    }

    /** A new parameter list starts with an empty dictionary. */
    method VisitParameterList()
      modifies this
      ensures Valid() && renamedParameters == map[]
    {
      renamedParameters := map[];
    }

    /**
     * Renames a parameter that clashes with its method's name to `"_" + name` and
     * records the rename; leaves every other parameter and the dictionary as they were.
     */
    method VisitParameter(node: Parameter, enclosing: Option<BlockStatement>) returns (r: Parameter)
      requires Valid()
      modifies this
      ensures Valid()
      ensures ClashesWithMethodName(node, enclosing)
              ==> r == Renamed(node)
                  && renamedParameters == old(renamedParameters)[node.identifier := "_" + node.identifier]
      ensures !ClashesWithMethodName(node, enclosing) ==> r == node && renamedParameters == old(renamedParameters)
    {
      r := node;
      if enclosing.Some? && enclosing.value.SubOrFunctionStatement?
         && EqualsOrdinalIgnoreCase(enclosing.value.statement.identifier, node.identifier)
      {
        renamedParameters := renamedParameters[node.identifier := "_" + node.identifier];
        r := node.(identifier := "_" + node.identifier);
      }
    }

    /** An argument whose text is exactly a renamed parameter's name is rewritten to the new name. */
    method VisitSimpleArgument(node: SimpleArgument) returns (r: SimpleArgument)
      requires Valid()
      ensures node.text in renamedParameters ==> r == SimpleArgument("_" + node.text)
      ensures node.text !in renamedParameters ==> r == node
    {
      r := node;
      if node.text in renamedParameters {
        r := SimpleArgument(renamedParameters[node.text]);
      }
    }
  }

  /** What the fixup visits, in traversal order. */
  datatype FixupEvent =
    | ParameterListVisit
    | ParameterVisit(parameter: Parameter, enclosing: Option<BlockStatement>)
    | ArgumentVisit(argument: SimpleArgument)

  function StepState(renamed: map<string, string>, event: FixupEvent): map<string, string>
  {
    match event
    case ParameterListVisit => map[]
    case ParameterVisit(p, enclosing) =>
      if ClashesWithMethodName(p, enclosing) then renamed[p.identifier := "_" + p.identifier] else renamed
    case ArgumentVisit(_) => renamed
  }

  function StepOutput(renamed: map<string, string>, event: FixupEvent): FixupEvent
  {
    match event
    case ParameterListVisit => event
    case ParameterVisit(p, enclosing) =>
      if ClashesWithMethodName(p, enclosing) then ParameterVisit(Renamed(p), enclosing) else event
    case ArgumentVisit(a) =>
      if a.text in renamed then ArgumentVisit(SimpleArgument(renamed[a.text])) else event
  }

  /** The dictionary after visiting `events`, starting from an empty one. */
  function FixupState(events: seq<FixupEvent>): map<string, string>
  {
    if events == [] then map[]
    else StepState(FixupState(events[..|events| - 1]), events[|events| - 1])
  }

  /** The visited nodes as the fixup returns them. */
  function FixupPass(events: seq<FixupEvent>): (output: seq<FixupEvent>)
    ensures |output| == |events|
  {
    if events == [] then []
    else FixupPass(events[..|events| - 1]) + [StepOutput(FixupState(events[..|events| - 1]), events[|events| - 1])]
  }

  /** Runs a fresh fixup visitor over the events. */
  method ApplyParameterFixup(events: seq<FixupEvent>) returns (output: seq<FixupEvent>)
    ensures output == FixupPass(events)
  {
    var fixup := new VisualBasicParameterFixup();
    output := [];
    for i := 0 to |events|
      invariant fixup.Valid()
      invariant fixup.renamedParameters == FixupState(events[..i])
      invariant output == FixupPass(events[..i])
    {
      assert events[..i + 1][..i] == events[..i];
      match events[i]
      case ParameterListVisit =>
        fixup.VisitParameterList();
        output := output + [events[i]];
      case ParameterVisit(p, enclosing) =>
        var r := fixup.VisitParameter(p, enclosing);
        output := output + [ParameterVisit(r, enclosing)];
      case ArgumentVisit(a) =>
        var r := fixup.VisitSimpleArgument(a);
        output := output + [ArgumentVisit(r)];
    }
    assert events[..|events|] == events;
  }

  /** The pass returns one node per visited node, each computed from the dictionary before it. */
  lemma {:induction false} FixupPassAt(events: seq<FixupEvent>, i: nat)
    requires i < |events|
    ensures |FixupPass(events)| == |events|
    ensures FixupPass(events)[i] == StepOutput(FixupState(events[..i]), events[i])
  {
    var n := |events| - 1;
    assert events[..n][..] == events[..n];
    if i < n {
      FixupPassAt(events[..n], i);
      assert events[..n][..i] == events[..i];
    } else {
      if n > 0 {
        FixupPassAt(events[..n], 0);
      }
    }
  }

  /** The part of the events after the last parameter list. */
  function Scope(events: seq<FixupEvent>): seq<FixupEvent>
  {
    if events == [] then []
    else if events[|events| - 1].ParameterListVisit? then []
    else Scope(events[..|events| - 1]) + [events[|events| - 1]]
  }

  /** The names of the parameters among `events` that clash with their method's name. */
  function RenamedNames(events: seq<FixupEvent>): set<string>
  {
    set i | 0 <= i < |events| && events[i].ParameterVisit? && ClashesWithMethodName(events[i].parameter, events[i].enclosing)
      :: events[i].parameter.identifier
  }

  lemma RenamedNamesSnoc(events: seq<FixupEvent>, e: FixupEvent)
    ensures RenamedNames(events + [e])
         == RenamedNames(events)
            + if e.ParameterVisit? && ClashesWithMethodName(e.parameter, e.enclosing) then {e.parameter.identifier} else {}
  {
    var s := events + [e];
    forall name | name in RenamedNames(events)
      ensures name in RenamedNames(s)
    {
      var i :| 0 <= i < |events| && events[i].ParameterVisit?
               && ClashesWithMethodName(events[i].parameter, events[i].enclosing) && events[i].parameter.identifier == name;
      assert s[i] == events[i];
    }
    if e.ParameterVisit? && ClashesWithMethodName(e.parameter, e.enclosing) {
      assert s[|events|] == e;
    }
    forall name | name in RenamedNames(s)
      ensures name in RenamedNames(events) || (e.ParameterVisit? && ClashesWithMethodName(e.parameter, e.enclosing) && name == e.parameter.identifier)
    {
      var i :| 0 <= i < |s| && s[i].ParameterVisit? && ClashesWithMethodName(s[i].parameter, s[i].enclosing) && s[i].parameter.identifier == name;
      if i < |events| {
        assert events[i] == s[i];
      }
    }
  }

  /**
   * The dictionary holds exactly the clashing parameters seen since the last
   * parameter list, each mapped to `"_" + name`.
   */
  lemma {:induction false} FixupStateIsScope(events: seq<FixupEvent>)
    ensures FixupState(events) == map name | name in RenamedNames(Scope(events)) :: "_" + name
  {
    if events != [] {
      var init, last := events[..|events| - 1], events[|events| - 1];
      FixupStateIsScope(init);
      if !last.ParameterListVisit? {
        RenamedNamesSnoc(Scope(init), last);
      }
    }
  }

  /**
   * A parameter is renamed to `"_" + name` exactly when it clashes with its method's
   * name, whatever came before it; its other parts never change.
   */
  lemma ParameterRenamedIff(events: seq<FixupEvent>, i: nat)
    requires i < |events| && events[i].ParameterVisit?
    ensures FixupPass(events)[i]
         == if ClashesWithMethodName(events[i].parameter, events[i].enclosing)
            then ParameterVisit(Renamed(events[i].parameter), events[i].enclosing)
            else events[i]
  {
    FixupPassAt(events, i);
  }

  /**
   * An argument is rewritten to `"_" + text` exactly when its text is, case-sensitively,
   * the name of a clashing parameter seen since the last parameter list; otherwise
   * it is returned unchanged.
   */
  lemma ArgumentRewrittenIff(events: seq<FixupEvent>, i: nat)
    requires i < |events| && events[i].ArgumentVisit?
    ensures FixupPass(events)[i]
         == if events[i].argument.text in RenamedNames(Scope(events[..i]))
            then ArgumentVisit(SimpleArgument("_" + events[i].argument.text))
            else events[i]
  {
    FixupPassAt(events, i);
    FixupStateIsScope(events[..i]);
  }

  /** A parameter outside any method block, or in a block not opened by a Sub or Function statement, is never renamed. */
  lemma OnlyMethodParametersRenamed(events: seq<FixupEvent>, i: nat)
    requires i < |events| && events[i].ParameterVisit?
    requires events[i].enclosing.None? || events[i].enclosing.value.OtherBlockStatement?
    ensures FixupPass(events)[i] == events[i]
  {
    ParameterRenamedIff(events, i);
  }

  lemma {:induction false} StateAfterParameterList(before: seq<FixupEvent>, after: seq<FixupEvent>)
    ensures FixupState(before + [ParameterListVisit] + after) == FixupState(after)
  {
    var s := before + [ParameterListVisit] + after;
    if after == [] {
      assert s[..|s| - 1] == before;
    } else {
      var n := |after| - 1;
      assert s[..|s| - 1] == before + [ParameterListVisit] + after[..n];
      StateAfterParameterList(before, after[..n]);
    }
  }

  /**
   * Renames never carry over a parameter list: what the pass does after a parameter
   * list does not depend on anything visited before it.
   */
  lemma ParameterListForgetsRenames(before: seq<FixupEvent>, after: seq<FixupEvent>, k: nat)
    requires k < |after|
    ensures |FixupPass(before + [ParameterListVisit] + after)| == |before| + 1 + |after|
    ensures FixupPass(before + [ParameterListVisit] + after)[|before| + 1 + k] == FixupPass(after)[k]
  {
    var s := before + [ParameterListVisit] + after;
    var i := |before| + 1 + k;
    FixupPassAt(s, i);
    FixupPassAt(after, k);
    assert s[..i] == before + [ParameterListVisit] + after[..k];
    StateAfterParameterList(before, after[..k]);
  }
}
