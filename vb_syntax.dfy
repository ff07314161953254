/**
 * The parts of a Visual Basic syntax tree that the proxy rewriter reads and
 * writes, as plain values. Identifiers and types are their text.
 */
module VisualBasicSyntax {
  import opened Wrappers

  /** Modifier keywords of parameters and declarations. */
  datatype Modifier =
    | OutKeyword
    | ByRefKeyword
    | ByValKeyword
    | OptionalKeyword
    | ParamArrayKeyword
    | ReadOnlyKeyword
    | OtherModifier(text: string)

  /** A parameter: its modifiers, its identifier and the type of its `As` clause, if any. */
  datatype Parameter = Parameter(modifiers: seq<Modifier>, identifier: string, asType: Option<string>)

  /**
   * A call of the behavior pipeline as the generator writes it: the return type
   * (none for a call whose result is dropped) and the parameters it forwards.
   * Any other expression is opaque text.
   */
  datatype Expression =
    | ExecutePipeline(returnType: Option<string>, arguments: seq<Parameter>)
    | OtherExpression(text: string)

  datatype Statement =
    | ReturnStatement(expression: Expression)
    | ExpressionStatement(expression: Expression)
    | OtherStatement(text: string)

  /**
   * A `Sub` or `Function` statement; `asType` is the return type of a `Function`.
   * A statement written without parentheses (`Sub Foo`) has no parameter list.
   */
  datatype MethodStatement = MethodStatement(
    modifiers: seq<Modifier>,
    identifier: string,
    parameterList: Option<seq<Parameter>>,
    asType: Option<string>)

  datatype MethodBlock = MethodBlock(statement: MethodStatement, statements: seq<Statement>)

  /** A `Property` statement; `implements` lists the members of its `Implements` clause as written. */
  datatype PropertyStatement = PropertyStatement(
    modifiers: seq<Modifier>,
    identifier: string,
    parameters: seq<Parameter>,
    asType: Option<string>,
    implements: seq<string>)

  /** A property block; `getter` and `setter` hold the statements of its accessors, when it has them. */
  datatype PropertyBlock = PropertyBlock(
    statement: PropertyStatement,
    getter: Option<seq<Statement>>,
    setter: Option<seq<Statement>>)

  /** An `Event` statement; `isCustom` records the `Custom` keyword. */
  datatype EventStatement = EventStatement(
    modifiers: seq<Modifier>,
    identifier: string,
    asType: Option<string>,
    isCustom: bool)

  datatype AccessorKind = AddHandlerAccessor | RemoveHandlerAccessor | RaiseEventAccessor

  datatype AccessorBlock = AccessorBlock(kind: AccessorKind, parameters: seq<Parameter>, statements: seq<Statement>)

  /** The members of a class block. */
  datatype Member =
    | EventStatementMember(event: EventStatement)
    | EventBlockMember(eventStatement: EventStatement, accessors: seq<AccessorBlock>)
    | MethodMember(block: MethodBlock)
    | PropertyMember(property: PropertyBlock)
    | OtherMember(text: string)

  datatype ClassBlock = ClassBlock(identifier: string, members: seq<Member>)

  /** The statement that opens a method block: a `Sub`/`Function` statement or another kind. */
  datatype BlockStatement =
    | SubOrFunctionStatement(statement: MethodStatement)
    | OtherBlockStatement(text: string)

  /** A simple argument of a call, as its text. */
  datatype SimpleArgument = SimpleArgument(text: string)
}
