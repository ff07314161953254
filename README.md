# Stunts generator and Visual Basic proxy rewriter, in Dafny

This project models two pieces of the code-generation side of the repository.

**Stunt generation** (`StuntGenerator.cs`, module `Stunts`, file `stunt_generator.dfy`).
- The generator takes a flat list of document processors and files each one under
  every language it supports, then under its phase.
- `ApplyProcessors` runs the document of a language through the Prepare, Scaffold,
  Rewrite and Fixup buckets. Each processor receives the previous one's output.
- `CreateStunt` builds the empty stunt class. It collects the containing namespaces
  of every type in the base type's and the interfaces' type trees into a set of
  imports, through the recursive `AddImports`.
- `AsSyntaxNode` writes a type name from a type symbol.

Processors, documents and type symbols are abstract values. Running one processor
is a parameter `process`. The language of a document is a parameter `languageOf`.

**Visual Basic proxy rewriting** (`VisualBasicProxyRewriter.cs`, module `ProxyRewrite`,
file `vb_proxy_rewriter.dfy`, over the syntax values of `vb_syntax.dfy`).
- The class visitor replaces each event statement with a custom event block at the
  end of the class.
- The method visitor chooses the out/ByRef form of `ImplementMethod`.
- The property visitor generates the getter and setter that call the behavior pipeline.
- The `VisualBasicParameterFixup` visitor renames a parameter whose name clashes,
  ignoring case, with its method's name, and rewrites the arguments that refer to it.
  It is a class with the `renamedParameters` dictionary. It is driven over an explicit
  sequence of visit events: parameter-list start, parameter, argument.
- The SyntaxGenerator extension calls `ImplementMethod` and `InspectProperty`, and the
  shared `ProxySyntaxRewriter` (`VisitClass`, `VisitBehaviorsProperty`), are
  function-valued fields of `Generator` and `ProxySyntaxRewriter`. Nothing is assumed
  about what they return. `ExecutePipeline` is a syntax value that records its return
  type and the parameters it forwards.
- Four other generator calls are read as the syntax accessors they stand for:
  - `GetType(node)` is the `As` type of the method or property statement;
  - `GetParameters(node)` is the property statement's parameters;
  - `WithGetAccessorStatements` and `WithSetAccessorStatements` give the accessor
    exactly the statements passed, creating the accessor when it is missing. The
    setter's pipeline call is passed as a bare expression and is recorded wrapped
    in an `ExpressionStatement`.
- Two member visits throw, and the model returns each throw as a `Failure`:
  - a method statement written without parentheses has no parameter list, and
    reading its parameters throws a null reference exception;
  - a writable property without an `As` clause has no type, and building the
    setter's `value` parameter with `SimpleAsClause(null)` throws an argument-null
    exception.
- A failure ends the visit of the whole class.

`sequences.dfy` gives order-preserving filtering and the subsequence relation used to
state "keeps the relative order".

## Model

| member | source | states |
|---|---|---|
| Stunts.StuntGenerator.constructor | src/Stunts/Stunts.Sdk/StuntGenerator.cs:77-91 | The processor table is the language-then-phase grouping of the input processors. |
| Stunts.Group | src/Stunts/Stunts.Sdk/StuntGenerator.cs:81-90 | Every bucket of the table is non-empty and equals the reference bucket: the given processors of that phase that list the language, in input order. |
| Stunts.GroupBuckets | src/Stunts/Stunts.Sdk/StuntGenerator.cs:81-90 | A language is a key exactly when some processor lists it. A phase is a key under it exactly when that bucket is non-empty. Every bucket equals the reference bucket: the input processors of that language and phase, in input order. |
| Stunts.ProcessorBuckets | src/Stunts/Stunts.Sdk/StuntGenerator.cs:81-90 | A processor is in `table[lang][phase]` if and only if it was given, lists `lang`, and has that phase. |
| Stunts.BucketMembership | src/Stunts/Stunts.Sdk/StuntGenerator.cs:82-90 | Membership in the reference bucket is exactly "given, lists the language, has the phase". |
| Stunts.BucketKeepsOrder | src/Stunts/Stunts.Sdk/StuntGenerator.cs:83-90 | When no processor lists a language twice, a bucket is the input filtered by language and phase, so it keeps the processors' relative order. |
| Stunts.FoldConcat | src/Stunts/Stunts.Sdk/StuntGenerator.cs:226-256 | Running two processor sequences in a row is running their concatenation. |
| Stunts.FoldIsLeftFold | src/Stunts/Stunts.Sdk/StuntGenerator.cs:228-231 | The first processor gets the input document and the rest get its output: a left fold. |
| Stunts.RunPhaseIsBucketFold | src/Stunts/Stunts.Sdk/StuntGenerator.cs:226-232 | A phase runs its bucket as a left fold. A phase with no bucket leaves the document as it was. |
| Stunts.ApplyInPhaseOrder | src/Stunts/Stunts.Sdk/StuntGenerator.cs:222-258 | Whatever the registration order, processing is one left fold over the Prepare, Scaffold, Rewrite and Fixup buckets, in that order. A language with no entry leaves the document unchanged. |
| Stunts.SwapAcrossPhases | src/Stunts/Stunts.Sdk/StuntGenerator.cs:81-90 | Swapping two neighbouring processors of different phases in the input does not change the result of processing. |
| Stunts.StuntGenerator.ApplyProcessors | src/Stunts/Stunts.Sdk/StuntGenerator.cs:213-259 | The four loops return the phase-ordered fold of the table for the document's language, and the input document when the language has no entry. |
| Stunts.ImportsAreTreeNamespaces | src/Stunts/Stunts.Sdk/StuntGenerator.cs:187-199 | The imports of a symbol are exactly the referenceable containing namespaces of the types in its type tree. |
| Stunts.StuntGenerator.AddImports | src/Stunts/Stunts.Sdk/StuntGenerator.cs:187-199 | The set only grows, by the symbol's imports; a null symbol adds nothing, and adding again changes nothing. |
| Stunts.ImportSet.Add | src/Stunts/Stunts.Sdk/StuntGenerator.cs:190 | Adding a name to the import set adds exactly that name. |
| Stunts.StuntImportsAreTypeNamespaces | src/Stunts/Stunts.Sdk/StuntGenerator.cs:159-166 | A stunt's imports are exactly the referenceable namespaces of all types its declaration mentions. |
| Stunts.StuntGenerator.CreateStunt | src/Stunts/Stunts.Sdk/StuntGenerator.cs:156-185 | The imports are the union of the base type's and every interface's imports. The class is a partial class with the given name in the naming convention's namespace. Its base type and each interface are written by `AsSyntaxNode`, as the program writes them. |
| Stunts.StuntTypeNamesQualifiedIff | src/Stunts/Stunts.Sdk/StuntGenerator.cs:176-178 | The stunt's base type and interfaces are written with their qualified names exactly when no type its declaration mentions is a non-generic type nested in another type. |
| Stunts.AsSyntaxNode | src/Stunts/Stunts.Sdk/StuntGenerator.cs:201-208 | As written: a generic type is named `Containing.Name`, with one argument per type argument; a non-generic type gets its bare `Name`, without the containing type. |
| Stunts.AsSyntaxNodeAgreesIff | src/Stunts/Stunts.Sdk/StuntGenerator.cs:201-208 | The type name as written agrees with the qualified one exactly when no non-generic type of the tree is nested in another type. |
| Stunts.AsSyntaxNodeDropsContainingType | src/Stunts/Stunts.Sdk/StuntGenerator.cs:207 | The nested non-generic type `Outer.Inner` is written as `Inner`. |
| Stunts.QualifiedSyntaxNode | src/Stunts/Stunts.Sdk/StuntGenerator.cs:201-208 | Corrected: every type is named `Containing.Name`, generic or not, with one argument per type argument. |
| Stunts.QualifiedNamesCoverTypeTree | src/Stunts/Stunts.Sdk/StuntGenerator.cs:201-208 | The corrected type name names every type of the tree, each prefixed by its containing type, and nothing else. |
| Stunts.WrittenNamesCoverTypeTree | src/Stunts/Stunts.Sdk/StuntGenerator.cs:201-208 | The type name as written names every type of the tree and nothing else: a generic type prefixed by its containing type, any other type by its bare name. |
| ProxyRewrite.ParametersWithModifier | src/Proxy/Proxy.Generator/Rewrite/VisualBasicProxyRewriter.cs:77-78 | The out (ByRef) parameters are exactly those with the Out (ByRef) modifier, in declaration order. |
| ProxyRewrite.ByReferenceIff | src/Proxy/Proxy.Generator/Rewrite/VisualBasicProxyRewriter.cs:77-80 | At least one of the out and ByRef lists is non-empty exactly when some parameter is Out or ByRef. |
| ProxyRewrite.VisitMethodBlock | src/Proxy/Proxy.Generator/Rewrite/VisualBasicProxyRewriter.cs:75-86 | A method without a parameter list throws a null reference exception. Otherwise the out/ref form of `ImplementMethod`, with both lists and the method's type, is used exactly when some parameter is Out or ByRef, and the plain form when none is. |
| ProxyRewrite.VisitPropertyBlock | src/Proxy/Proxy.Generator/Rewrite/VisualBasicProxyRewriter.cs:88-121 | A property implementing `IProxy.Behaviors` goes to the shared rewriter with only `ReadOnly` as modifier, and the generator is not consulted. Any other property keeps its statement. It gets a getter returning the pipeline's result iff it can be read. A writable property without an `As` clause throws. Otherwise the property gets a setter iff it can be written, holding one expression statement that forwards its parameters plus a trailing `value` of the property type. An accessor that is not generated is left as it was. |
| ProxyRewrite.VisitClassBlock | src/Proxy/Proxy.Generator/Rewrite/VisualBasicProxyRewriter.cs:35-73 | After the shared rewriter's visit, the members are the non-event members followed by one custom event block per event statement, each then visited. The class visit throws exactly when a member visit does. |
| ProxyRewrite.VisitMembersFailsIff | src/Proxy/Proxy.Generator/Rewrite/VisualBasicProxyRewriter.cs:72 | Visiting the members throws exactly when some member's own visit throws: a method without a parameter list, or a writable property without an `As` type. Otherwise every member is visited in place and the count is kept. |
| ProxyRewrite.ReshapeKeepsThrowingMembers | src/Proxy/Proxy.Generator/Rewrite/VisualBasicProxyRewriter.cs:40-70 | Moving the events keeps exactly the members whose visit throws; a custom event block never throws. |
| ProxyRewrite.ClassBlockFailsIff | src/Proxy/Proxy.Generator/Rewrite/VisualBasicProxyRewriter.cs:35-73 | Visiting a class throws exactly when one of the members the shared rewriter's `VisitClass` returned is a method without a parameter list or a writable property without an `As` type. The custom event blocks never throw. |
| ProxyRewrite.EventsAreFiltered | src/Proxy/Proxy.Generator/Rewrite/VisualBasicProxyRewriter.cs:40 | The events collected are the event-statement members, in order. |
| ProxyRewrite.EventsPartition | src/Proxy/Proxy.Generator/Rewrite/VisualBasicProxyRewriter.cs:40-41 | Every member is either kept or removed as an event statement. |
| ProxyRewrite.CustomEventsReshape | src/Proxy/Proxy.Generator/Rewrite/VisualBasicProxyRewriter.cs:40-70 | No event statement remains and the member count is unchanged. Every non-event member is kept, in order, at the front. The custom blocks follow, in the events' original order. |
| ProxyRewrite.CustomEventBlock | src/Proxy/Proxy.Generator/Rewrite/VisualBasicProxyRewriter.cs:45-68 | Each custom block is the event marked Custom, with AddHandler, RemoveHandler and RaiseEvent accessors in that order. The first two take `value` of the event's type and run the pipeline with it. RaiseEvent takes `sender As Object, args As EventArgs` and has no statements. |
| ProxyRewrite.VisualBasicParameterFixup.VisitParameterList | src/Proxy/Proxy.Generator/Rewrite/VisualBasicProxyRewriter.cs:134-138 | The rename dictionary becomes empty. |
| ProxyRewrite.VisualBasicParameterFixup.VisitParameter | src/Proxy/Proxy.Generator/Rewrite/VisualBasicProxyRewriter.cs:140-151 | A clashing parameter becomes `"_" + name` and is recorded as such. Any other parameter and the dictionary are unchanged. Every entry stays `t -> "_" + t`. |
| ProxyRewrite.VisualBasicParameterFixup.VisitSimpleArgument | src/Proxy/Proxy.Generator/Rewrite/VisualBasicProxyRewriter.cs:153-160 | An argument whose text is a key becomes `"_" + text`. Every other argument is returned unchanged. |
| ProxyRewrite.ApplyParameterFixup | src/Proxy/Proxy.Generator/Rewrite/VisualBasicProxyRewriter.cs:127-161 | Running the fixup visitor over the visit events yields the specified fixup pass. |
| ProxyRewrite.FixupPassAt | src/Proxy/Proxy.Generator/Rewrite/VisualBasicProxyRewriter.cs:127-161 | The pass returns one node per visited node, each computed from the dictionary as left by the nodes before it. |
| ProxyRewrite.FixupStateIsScope | src/Proxy/Proxy.Generator/Rewrite/VisualBasicProxyRewriter.cs:136-146 | The dictionary maps exactly the clashing parameters seen since the last parameter list, each `t` to `"_" + t`. |
| ProxyRewrite.ParameterRenamedIff | src/Proxy/Proxy.Generator/Rewrite/VisualBasicProxyRewriter.cs:142-150 | A parameter is renamed to `"_" + name` iff its method's name equals its own under ordinal ignore-case. Otherwise it is unchanged. |
| ProxyRewrite.OnlyMethodParametersRenamed | src/Proxy/Proxy.Generator/Rewrite/VisualBasicProxyRewriter.cs:142-144 | A parameter outside a method block, or in a block not opened by a Sub or Function statement, is never renamed. |
| ProxyRewrite.ArgumentRewrittenIff | src/Proxy/Proxy.Generator/Rewrite/VisualBasicProxyRewriter.cs:155-159 | An argument is rewritten to `"_" + text` iff its text, compared case-sensitively, names a clashing parameter seen since the last parameter list. Otherwise it is unchanged. |
| ProxyRewrite.StateAfterParameterList | src/Proxy/Proxy.Generator/Rewrite/VisualBasicProxyRewriter.cs:136 | After a parameter list, the dictionary depends only on what follows it. |
| ProxyRewrite.ParameterListForgetsRenames | src/Proxy/Proxy.Generator/Rewrite/VisualBasicProxyRewriter.cs:134-138 | Renames never carry over a parameter list: the output after it does not depend on anything visited before it. |

## Left out

- `GenerateDocumentAsync` and `EnsureTargetDirectory` (StuntGenerator.cs:100-148, 261-272) are left out. They are I/O: temporary files, workspace and project document insertion, and the target directory.
- async/await and `CancellationToken` are left out. The phase loops are sequential code, and cancellation and the debugger check are ignored.
- `NamingConvention.GetName` and `ValidateGeneratorTypes` are not part of this model. `CreateStunt` receives the stunt's name, base type and interfaces as their results.
- The default processors and their behaviour are not part of this model. Processing a document is the parameter `process`.
- Roslyn's `SyntaxGenerator` builds syntax the model only records: a compilation unit with a set of imports, a namespace and a class declaration. Attributes, whitespace normalisation and import order are left out; imports come from a `HashSet`, whose order is unspecified.
- Stunts.BucketKeepsOrder assumes no processor lists a language twice. In that case the grouping puts the processor in the bucket once per listing, which `Bucket` models.
- ProxyRewrite.ClashesWithMethodName compares names with ordinal ignore-case for ASCII letters only. Other case mappings and escaped (`[bracketed]`) identifiers are not modelled.
- Roslyn's tree walk is left out. The fixup runs over an explicit sequence of visit events; each parameter carries the statement of its nearest enclosing method block.
- The base visitors' traversal below the member level is left out, including nested classes. `VisitClassBlock` visits the methods and properties of the class itself.
- `ExecutePipeline`, `ImplementMethod`, `InspectProperty`, `VisitClass` and `VisitBehaviorsProperty` are uninterpreted: the model states only which of them is called, and with what.
- ProxyRewrite.VisitPropertyBlock takes the property statement's parameters and `As` type for `GetParameters` and `GetType`. A property statement without a parameter list has no parameters there, which is what `GetParameters` returns. A property without an `As` clause has no type: its getter calls the pipeline with no return type, and if it is writable the visit fails as `SimpleAsClause(null)` does (VisualBasicProxyRewriter.cs:115).
- The generated mock sample and the `IProxyBehavior` interface hold no logic to model.

## Findings

| source | as written | input that shows it | evidently intended | confidence | as-written member | corrected member |
|---|---|---|---|---|---|---|
| src/Stunts/Stunts.Sdk/StuntGenerator.cs:207 | `IdentifierName(prefix = symbol.Name)` assigns the prefix instead of concatenating it, so a non-generic nested type loses its containing type | a non-generic type `Inner` nested in `Outer` is written `Inner` | `Outer.Inner`, like the generic case on line 205 | not executed | Stunts.AsSyntaxNodeDropsContainingType (with Stunts.AsSyntaxNode and Stunts.AsSyntaxNodeAgreesIff) | Stunts.QualifiedSyntaxNode, with Stunts.QualifiedNamesCoverTypeTree |
