/**
 * The main code generator of the Stunts SDK (StuntGenerator.cs): how the document
 * processors given to the generator are split by language and then by phase, how
 * ApplyProcessors runs them over a document, and how CreateStunt collects the
 * namespaces and the type names a generated stunt class needs.
 *
 * Roslyn's documents are a type parameter `D`; what a processor does to a document
 * is the parameter `process`, so nothing is assumed about it.
 */
module Stunts {
  import opened Wrappers
  import opened Sequences

  // ------------------------------------------------------------------ processors

  /** The phases in which document processors run. */
  datatype ProcessorPhase = Prepare | Scaffold | Rewrite | Fixup

  /**
   * An IDocumentProcessor: the languages it declares and its phase. `name` stands
   * for the processor's identity.
   */
  datatype DocumentProcessor = DocumentProcessor(name: string, languages: seq<string>, phase: ProcessorPhase)

  /** One element of the SelectMany over processors: a processor paired with one of its languages. */
  datatype Registration = Registration(processor: DocumentProcessor, language: string)

  /** The generator's `processors` dictionary: by language, then by phase. */
  type ProcessorTable = map<string, map<ProcessorPhase, seq<DocumentProcessor>>>

  function Pairs(processor: DocumentProcessor, languages: seq<string>): seq<Registration>
  {
    if languages == [] then [] else [Registration(processor, languages[0])] + Pairs(processor, languages[1..])
  }

  /** `processors.SelectMany(p => p.Languages.Select(lang => (p, lang)))`, in enumeration order. */
  function Registrations(processors: seq<DocumentProcessor>): seq<Registration>
  {
    if processors == [] then [] else Pairs(processors[0], processors[0].languages) + Registrations(processors[1..])
  }

  /** The processors of one language group and one phase group, in enumeration order. */
  function Selected(regs: seq<Registration>, language: string, phase: ProcessorPhase): seq<DocumentProcessor>
  {
    if regs == [] then []
    else (if regs[0].language == language && regs[0].processor.phase == phase then [regs[0].processor] else [])
         + Selected(regs[1..], language, phase)
  }

  /**
   * The table the constructor builds: a key for every language some registration
   * has, and under it a key for every phase some registration of that language has.
   */
  function Group(processors: seq<DocumentProcessor>): (table: ProcessorTable)
    ensures forall language, phase :: language in table && phase in table[language]
              ==> table[language][phase] == Bucket(processors, language, phase) && table[language][phase] != []
  {
    var regs := Registrations(processors);
    SelectedAreBuckets(processors);
    SelectedNonEmpty(regs);
    map language | language in LanguageKeys(regs) ::
      map phase | phase in PhaseKeys(regs, language) :: Selected(regs, language, phase)
  }

  /** The keys of the GroupBy on language. */
  function LanguageKeys(regs: seq<Registration>): set<string>
  {
    set reg | reg in regs :: reg.language
  }

  /** The keys of the GroupBy on phase within the group of `language`. */
  function PhaseKeys(regs: seq<Registration>, language: string): set<ProcessorPhase>
  {
    set reg | reg in regs && reg.language == language :: reg.processor.phase
  }

  function Count(languages: seq<string>, language: string): nat
  {
    if languages == [] then 0 else (if languages[0] == language then 1 else 0) + Count(languages[1..], language)
  }

  function Repeat(processor: DocumentProcessor, n: nat): seq<DocumentProcessor>
  {
    if n == 0 then [] else [processor] + Repeat(processor, n - 1)
  }

  /**
   * Reference definition of a bucket, processor by processor in input order: each
   * processor of the phase, once per time it lists the language.
   */
  function Bucket(processors: seq<DocumentProcessor>, language: string, phase: ProcessorPhase): seq<DocumentProcessor>
  {
    if processors == [] then []
    else (if processors[0].phase == phase then Repeat(processors[0], Count(processors[0].languages, language)) else [])
         + Bucket(processors[1..], language, phase)
  }

  /** Whether a processor belongs to the bucket of `language` and `phase`. */
  function Handles(language: string, phase: ProcessorPhase): DocumentProcessor -> bool
  {
    (p: DocumentProcessor) => p.phase == phase && language in p.languages
  }

  predicate Distinct(languages: seq<string>)
  {
    forall i, j :: 0 <= i < j < |languages| ==> languages[i] != languages[j]
  }

  lemma {:induction false} SelectedConcat(a: seq<Registration>, b: seq<Registration>, language: string, phase: ProcessorPhase)
    ensures Selected(a + b, language, phase) == Selected(a, language, phase) + Selected(b, language, phase)
  {
    if a == [] {
      assert a + b == b;
    } else {
      assert (a + b)[1..] == a[1..] + b;
      SelectedConcat(a[1..], b, language, phase);
    }
  }

  lemma {:induction false} SelectedPairs(p: DocumentProcessor, languages: seq<string>, language: string, phase: ProcessorPhase)
    ensures Selected(Pairs(p, languages), language, phase)
         == if p.phase == phase then Repeat(p, Count(languages, language)) else []
  {
    if languages != [] {
      SelectedConcat([Registration(p, languages[0])], Pairs(p, languages[1..]), language, phase);
      SelectedPairs(p, languages[1..], language, phase);
    }
  }

  /** The grouping of the constructor yields exactly the reference buckets. */
  lemma {:induction false} SelectedIsBucket(processors: seq<DocumentProcessor>, language: string, phase: ProcessorPhase)
    ensures Selected(Registrations(processors), language, phase) == Bucket(processors, language, phase)
  {
    if processors != [] {
      SelectedConcat(Pairs(processors[0], processors[0].languages), Registrations(processors[1..]), language, phase);
      SelectedPairs(processors[0], processors[0].languages, language, phase);
      SelectedIsBucket(processors[1..], language, phase);
    }
  }

  lemma SelectedAreBuckets(processors: seq<DocumentProcessor>)
    ensures forall language, phase :: Selected(Registrations(processors), language, phase) == Bucket(processors, language, phase)
  {
    forall language, phase {
      SelectedIsBucket(processors, language, phase);
    }
  }

  /** A phase group that has a key is not empty. */
  lemma {:induction false} SelectedNonEmpty(regs: seq<Registration>)
    ensures forall language, phase :: phase in PhaseKeys(regs, language) ==> Selected(regs, language, phase) != []
  {
    if regs != [] {
      SelectedNonEmpty(regs[1..]);
      forall language, phase | phase in PhaseKeys(regs, language)
        ensures Selected(regs, language, phase) != []
      {
        var reg :| reg in regs && reg.language == language && reg.processor.phase == phase;
        if reg != regs[0] {
          assert reg in regs[1..];
          assert phase in PhaseKeys(regs[1..], language);
        }
      }
    }
  }

  lemma {:induction false} PairsMembership(p: DocumentProcessor, languages: seq<string>, reg: Registration)
    ensures reg in Pairs(p, languages) <==> reg.processor == p && reg.language in languages
  {
    if languages != [] {
      PairsMembership(p, languages[1..], reg);
      assert languages == [languages[0]] + languages[1..];
    }
  }

  lemma {:induction false} RegistrationMembership(processors: seq<DocumentProcessor>, reg: Registration)
    ensures reg in Registrations(processors) <==> reg.processor in processors && reg.language in reg.processor.languages
  {
    if processors != [] {
      PairsMembership(processors[0], processors[0].languages, reg);
      RegistrationMembership(processors[1..], reg);
      assert processors == [processors[0]] + processors[1..];
    }
  }

  lemma {:induction false} CountPositive(languages: seq<string>, language: string)
    ensures Count(languages, language) > 0 <==> language in languages
  {
    if languages != [] {
      CountPositive(languages[1..], language);
      assert languages == [languages[0]] + languages[1..];
    }
  }

  lemma {:induction false} RepeatMembership(p: DocumentProcessor, n: nat, q: DocumentProcessor)
    ensures q in Repeat(p, n) <==> n > 0 && q == p
  {
    if n > 0 {
      RepeatMembership(p, n - 1, q);
    }
  }

  /** A processor is in a bucket exactly when it was given, lists the language and has the phase. */
  lemma {:induction false} BucketMembership(processors: seq<DocumentProcessor>, language: string, phase: ProcessorPhase, p: DocumentProcessor)
    ensures p in Bucket(processors, language, phase) <==> p in processors && language in p.languages && p.phase == phase
  {
    if processors != [] {
      var head := processors[0];
      BucketMembership(processors[1..], language, phase, p);
      RepeatMembership(head, Count(head.languages, language), p);
      CountPositive(head.languages, language);
      assert processors == [head] + processors[1..];
    }
  }

  lemma {:induction false} BucketConcat(a: seq<DocumentProcessor>, b: seq<DocumentProcessor>, language: string, phase: ProcessorPhase)
    ensures Bucket(a + b, language, phase) == Bucket(a, language, phase) + Bucket(b, language, phase)
  {
    if a == [] {
      assert a + b == b;
    } else {
      assert (a + b)[1..] == a[1..] + b;
      BucketConcat(a[1..], b, language, phase);
    }
  }

  /**
   * The table's keys and buckets: a language has an entry exactly when some processor
   * lists it, a phase has a bucket under it exactly when that bucket would not be
   * empty, and the bucket is the reference bucket.
   */
  lemma GroupBuckets(processors: seq<DocumentProcessor>, language: string, phase: ProcessorPhase)
    ensures language in Group(processors) <==> exists p :: p in processors && language in p.languages
    ensures (language in Group(processors) && phase in Group(processors)[language])
        <==> Bucket(processors, language, phase) != []
    ensures language in Group(processors) && phase in Group(processors)[language]
        ==> Group(processors)[language][phase] == Bucket(processors, language, phase)
  {
    var regs := Registrations(processors);
    var table := Group(processors);
    SelectedIsBucket(processors, language, phase);
    if exists p :: p in processors && language in p.languages {
      var p :| p in processors && language in p.languages;
      RegistrationMembership(processors, Registration(p, language));
      assert language in table;
    }
    if language in table {
      var reg :| reg in regs && reg.language == language;
      RegistrationMembership(processors, reg);
    }
    if language in table && phase in table[language] {
      var reg :| reg in regs && reg.language == language && reg.processor.phase == phase;
      RegistrationMembership(processors, reg);
      BucketMembership(processors, language, phase, reg.processor);
    }
    if Bucket(processors, language, phase) != [] {
      var p := Bucket(processors, language, phase)[0];
      BucketMembership(processors, language, phase, p);
      RegistrationMembership(processors, Registration(p, language));
      assert Registration(p, language) in regs;
    }
  }

  /**
   * Each processor sits in `table[lang][p.phase]` for every language it lists, and in
   * no other bucket.
   */
  lemma ProcessorBuckets(processors: seq<DocumentProcessor>, p: DocumentProcessor, language: string, phase: ProcessorPhase)
    ensures (language in Group(processors) && phase in Group(processors)[language] && p in Group(processors)[language][phase])
        <==> (p in processors && language in p.languages && p.phase == phase)
  {
    GroupBuckets(processors, language, phase);
    BucketMembership(processors, language, phase, p);
  }

  lemma {:induction false} CountDistinct(languages: seq<string>, language: string)
    requires Distinct(languages)
    ensures Count(languages, language) == if language in languages then 1 else 0
  {
    if languages != [] {
      CountDistinct(languages[1..], language);
      assert languages == [languages[0]] + languages[1..];
    }
  }

  /**
   * When no processor lists a language twice, a bucket is the input filtered by
   * language and phase: the processors keep their relative order from the input.
   */
  lemma {:induction false} BucketKeepsOrder(processors: seq<DocumentProcessor>, language: string, phase: ProcessorPhase)
    requires forall i :: 0 <= i < |processors| ==> Distinct(processors[i].languages)
    ensures Bucket(processors, language, phase) == Filter(processors, Handles(language, phase))
    ensures IsSubsequence(Bucket(processors, language, phase), processors)
  {
    if processors != [] {
      var head := processors[0];
      BucketKeepsOrder(processors[1..], language, phase);
      CountDistinct(head.languages, language);
      assert Handles(language, phase)(head) == (head.phase == phase && language in head.languages);
      if head.phase == phase && language in head.languages {
        assert Repeat(head, Count(head.languages, language)) == [head];
      }
    }
    FilterIsSubsequence(processors, Handles(language, phase));
  }

  // ------------------------------------------------------------------ applying processors

  /** The document after running `processors` one after the other, each on the previous one's output. */
  function Fold<D>(processors: seq<DocumentProcessor>, document: D, process: (DocumentProcessor, D) -> D): D
  {
    if processors == [] then document
    else process(processors[|processors| - 1], Fold(processors[..|processors| - 1], document, process))
  }

  /** Running `a ++ b` is running `a` and then running `b` on the result. */
  lemma {:induction false} FoldConcat<D>(a: seq<DocumentProcessor>, b: seq<DocumentProcessor>, document: D, process: (DocumentProcessor, D) -> D)
    ensures Fold(a + b, document, process) == Fold(b, Fold(a, document, process), process)
  {
    if b == [] {
      assert a + b == a;
    } else {
      assert (a + b)[..|a + b| - 1] == a + b[..|b| - 1];
      FoldConcat(a, b[..|b| - 1], document, process);
    }
  }

  /** The first processor receives the input document and the rest receive its output. */
  lemma FoldIsLeftFold<D>(p: DocumentProcessor, rest: seq<DocumentProcessor>, document: D, process: (DocumentProcessor, D) -> D)
    ensures Fold([p] + rest, document, process) == Fold(rest, process(p, document), process)
  {
    FoldConcat([p], rest, document, process);
    assert [p][..0] == [];
  }

  /** One phase: the phase's bucket folded over the document, or the document unchanged when there is none. */
  function RunPhase<D>(buckets: map<ProcessorPhase, seq<DocumentProcessor>>, phase: ProcessorPhase, document: D,
                       process: (DocumentProcessor, D) -> D): D
  {
    if phase in buckets then Fold(buckets[phase], document, process) else document
  }

  /** What ApplyProcessors computes from the table, the document's language and the document. */
  function Applied<D>(table: ProcessorTable, language: string, document: D, process: (DocumentProcessor, D) -> D): D
  {
    if language !in table then document
    else
      var buckets := table[language];
      var prepared := RunPhase(buckets, Prepare, document, process);
      var scaffolded := RunPhase(buckets, Scaffold, prepared, process);
      var rewritten := RunPhase(buckets, Rewrite, scaffolded, process);
      RunPhase(buckets, Fixup, rewritten, process)
  }

  lemma RunPhaseIsBucketFold<D>(processors: seq<DocumentProcessor>, language: string, phase: ProcessorPhase,
                                document: D, process: (DocumentProcessor, D) -> D)
    requires language in Group(processors)
    ensures RunPhase(Group(processors)[language], phase, document, process)
         == Fold(Bucket(processors, language, phase), document, process)
  {
    GroupBuckets(processors, language, phase);
  }

  /**
   * Whatever order the processors were registered in, the generator runs every
   * Prepare processor of the language, then every Scaffold, Rewrite and Fixup one,
   * each phase in input order, as one chain.
   */
  lemma ApplyInPhaseOrder<D>(processors: seq<DocumentProcessor>, language: string, document: D,
                             process: (DocumentProcessor, D) -> D)
    ensures Applied(Group(processors), language, document, process)
         == Fold(Bucket(processors, language, Prepare) + Bucket(processors, language, Scaffold)
                 + Bucket(processors, language, Rewrite) + Bucket(processors, language, Fixup), document, process)
  {
    var p, s, r, f := Bucket(processors, language, Prepare), Bucket(processors, language, Scaffold),
                      Bucket(processors, language, Rewrite), Bucket(processors, language, Fixup);
    FoldConcat(p + s + r, f, document, process);
    FoldConcat(p + s, r, document, process);
    FoldConcat(p, s, document, process);
    if language in Group(processors) {
      RunPhaseIsBucketFold(processors, language, Prepare, document, process);
      RunPhaseIsBucketFold(processors, language, Scaffold, Fold(p, document, process), process);
      RunPhaseIsBucketFold(processors, language, Rewrite, Fold(s, Fold(p, document, process), process), process);
      RunPhaseIsBucketFold(processors, language, Fixup, Fold(r, Fold(s, Fold(p, document, process), process), process), process);
    } else {
      GroupBuckets(processors, language, Prepare);
      GroupBuckets(processors, language, Scaffold);
      GroupBuckets(processors, language, Rewrite);
      GroupBuckets(processors, language, Fixup);
    }
  }

  lemma SwapBucket(before: seq<DocumentProcessor>, p: DocumentProcessor, q: DocumentProcessor,
                   after: seq<DocumentProcessor>, language: string, phase: ProcessorPhase)
    requires p.phase != q.phase
    ensures Bucket(before + [p, q] + after, language, phase) == Bucket(before + [q, p] + after, language, phase)
  {
    assert before + [p, q] + after == before + ([p] + [q]) + after;
    assert before + [q, p] + after == before + ([q] + [p]) + after;
    BucketConcat(before + ([p] + [q]), after, language, phase);
    BucketConcat(before + ([q] + [p]), after, language, phase);
    BucketConcat(before, [p] + [q], language, phase);
    BucketConcat(before, [q] + [p], language, phase);
    BucketConcat([p], [q], language, phase);
    BucketConcat([q], [p], language, phase);
    assert Bucket([p], language, phase) == [] || Bucket([q], language, phase) == [];
  }

  /** Swapping two neighbouring processors of different phases in the input changes nothing. */
  lemma SwapAcrossPhases<D>(before: seq<DocumentProcessor>, p: DocumentProcessor, q: DocumentProcessor,
                            after: seq<DocumentProcessor>, language: string, document: D,
                            process: (DocumentProcessor, D) -> D)
    requires p.phase != q.phase
    ensures Applied(Group(before + [p, q] + after), language, document, process)
         == Applied(Group(before + [q, p] + after), language, document, process)
  {
    forall phase: ProcessorPhase
      ensures Bucket(before + [p, q] + after, language, phase) == Bucket(before + [q, p] + after, language, phase)
    {
      SwapBucket(before, p, q, after, language, phase);
    }
    ApplyInPhaseOrder(before + [p, q] + after, language, document, process);
    ApplyInPhaseOrder(before + [q, p] + after, language, document, process);
  }

  // ------------------------------------------------------------------ type symbols

  datatype NamespaceSymbol = NamespaceSymbol(displayString: string, canBeReferencedByName: bool)

  /** Named types (possibly generic, with their type arguments) and every other kind of type. */
  datatype TypeKind = NamedType(isGenericType: bool, typeArguments: seq<TypeSymbol>) | OtherType

  /** An ITypeSymbol: its name, containing namespace, the name of its containing type, and its kind. */
  datatype TypeSymbol = TypeSymbol(
    name: string,
    containingNamespace: Option<NamespaceSymbol>,
    containingType: Option<string>,
    kind: TypeKind)

  predicate IsGenericNamedType(symbol: TypeSymbol)
  {
    symbol.kind.NamedType? && symbol.kind.isGenericType
  }

  predicate HasReferenceableNamespace(symbol: TypeSymbol)
  {
    symbol.containingNamespace.Some? && symbol.containingNamespace.value.canBeReferencedByName
  }

  /** The import a symbol contributes by itself. */
  function OwnImport(symbol: TypeSymbol): set<string>
  {
    if HasReferenceableNamespace(symbol) then {symbol.containingNamespace.value.displayString} else {}
  }

  /** The namespaces AddImports adds for a symbol. */
  function Imports(symbol: TypeSymbol): set<string>
  {
    OwnImport(symbol) +
    if IsGenericNamedType(symbol) then
      var args := symbol.kind.typeArguments;
      set i, name | 0 <= i < |args| && name in Imports(args[i]) :: name
    else {}
  }

  /** The imports of the first `n` symbols. */
  function ImportsUpTo(symbols: seq<TypeSymbol>, n: nat): set<string>
    requires n <= |symbols|
  {
    set j, name | 0 <= j < n && name in Imports(symbols[j]) :: name
  }

  lemma ImportsUpToStep(symbols: seq<TypeSymbol>, n: nat)
    requires n < |symbols|
    ensures ImportsUpTo(symbols, n + 1) == ImportsUpTo(symbols, n) + Imports(symbols[n])
  {
    forall name | name in Imports(symbols[n])
      ensures name in ImportsUpTo(symbols, n + 1)
    {
      assert 0 <= n < n + 1 && name in Imports(symbols[n]);
    }
  }

  function ImportsOf(symbol: Option<TypeSymbol>): set<string>
  {
    if symbol.Some? then Imports(symbol.value) else {}
  }

  /** The symbol and, for a generic named type, the trees of its type arguments. */
  function TypeTree(symbol: TypeSymbol): set<TypeSymbol>
  {
    {symbol} +
    if IsGenericNamedType(symbol) then
      var args := symbol.kind.typeArguments;
      set i, t | 0 <= i < |args| && t in TypeTree(args[i]) :: t
    else {}
  }

  function ReferenceableNamespaces(symbols: set<TypeSymbol>): set<string>
  {
    set t | t in symbols && HasReferenceableNamespace(t) :: t.containingNamespace.value.displayString
  }

  /**
   * The imports of a symbol are exactly the referenceable containing namespaces of
   * the types in its tree.
   */
  lemma {:induction false} ImportsAreTreeNamespaces(symbol: TypeSymbol)
    ensures Imports(symbol) == ReferenceableNamespaces(TypeTree(symbol))
  {
    if IsGenericNamedType(symbol) {
      var args := symbol.kind.typeArguments;
      forall i | 0 <= i < |args| {
        ImportsAreTreeNamespaces(args[i]);
      }
      forall name | name in Imports(symbol)
        ensures name in ReferenceableNamespaces(TypeTree(symbol))
      {
        if name !in OwnImport(symbol) {
          var i :| 0 <= i < |args| && name in Imports(args[i]);
          var t :| t in TypeTree(args[i]) && HasReferenceableNamespace(t) && t.containingNamespace.value.displayString == name;
          assert t in TypeTree(symbol);
        }
      }
      forall name | name in ReferenceableNamespaces(TypeTree(symbol))
        ensures name in Imports(symbol)
      {
        var t :| t in TypeTree(symbol) && HasReferenceableNamespace(t) && t.containingNamespace.value.displayString == name;
        if t != symbol {
          var i :| 0 <= i < |args| && t in TypeTree(args[i]);
          assert name in ReferenceableNamespaces(TypeTree(args[i]));
        }
      }
    } else {
      assert TypeTree(symbol) == {symbol};
    }
  }

  /** The HashSet that CreateStunt fills. */
  class ImportSet {
    var elements: set<string>

    constructor()
      ensures elements == {}
    {
      elements := {};
    }

    method Add(name: string)
      modifies this
      ensures elements == old(elements) + {name}
    {
      elements := elements + {name};
    }
  }

  // ------------------------------------------------------------------ type names

  /** The type syntax the generator builds: a plain identifier or a generic name with arguments. */
  datatype TypeSyntax = IdentifierName(identifier: string) | GenericName(identifier: string, typeArguments: seq<TypeSyntax>)

  /** `ContainingType.Name + "."`, or nothing for a top-level type. */
  function Prefix(symbol: TypeSymbol): string
  {
    match symbol.containingType
    case None => ""
    case Some(containing) => containing + "."
  }

  function QualifiedName(symbol: TypeSymbol): string
  {
    Prefix(symbol) + symbol.name
  }

  /**
   * The type name as the generator writes it: a generic type is named with its
   * containing type's prefix and one argument per type argument, a non-generic type
   * gets its bare name.
   */
  function AsSyntaxNode(symbol: TypeSymbol): (r: TypeSyntax)
    ensures r.GenericName? <==> IsGenericNamedType(symbol)
    ensures r.identifier == if IsGenericNamedType(symbol) then QualifiedName(symbol) else symbol.name
    ensures r.GenericName? ==> |r.typeArguments| == |symbol.kind.typeArguments|
  {
    if IsGenericNamedType(symbol) then
      var args := symbol.kind.typeArguments;
      GenericName(QualifiedName(symbol), seq(|args|, i requires 0 <= i < |args| => AsSyntaxNode(args[i])))
    else
      IdentifierName(symbol.name)
  }

  /** The type name with the containing type's prefix kept for every type, generic or not. */
  function QualifiedSyntaxNode(symbol: TypeSymbol): (r: TypeSyntax)
    ensures r.GenericName? <==> IsGenericNamedType(symbol)
    ensures r.identifier == QualifiedName(symbol)
    ensures r.GenericName? ==> |r.typeArguments| == |symbol.kind.typeArguments|
  {
    if IsGenericNamedType(symbol) then
      var args := symbol.kind.typeArguments;
      GenericName(QualifiedName(symbol), seq(|args|, i requires 0 <= i < |args| => QualifiedSyntaxNode(args[i])))
    else
      IdentifierName(QualifiedName(symbol))
  }

  /** Every identifier that occurs in a type syntax tree. */
  function Identifiers(syntax: TypeSyntax): set<string>
  {
    match syntax
    case IdentifierName(id) => {id}
    case GenericName(id, args) => {id} + set i, x | 0 <= i < |args| && x in Identifiers(args[i]) :: x
  }

  /**
   * The corrected type name names every type of the symbol's tree, each qualified by
   * its containing type, and nothing else.
   */
  lemma {:induction false} QualifiedNamesCoverTypeTree(symbol: TypeSymbol)
    ensures Identifiers(QualifiedSyntaxNode(symbol)) == set t | t in TypeTree(symbol) :: QualifiedName(t)
  {
    if IsGenericNamedType(symbol) {
      var args := symbol.kind.typeArguments;
      var nodes := seq(|args|, i requires 0 <= i < |args| => QualifiedSyntaxNode(args[i]));
      assert QualifiedSyntaxNode(symbol) == GenericName(QualifiedName(symbol), nodes);
      forall i | 0 <= i < |args| {
        QualifiedNamesCoverTypeTree(args[i]);
      }
      forall x | x in Identifiers(QualifiedSyntaxNode(symbol))
        ensures x in set t | t in TypeTree(symbol) :: QualifiedName(t)
      {
        if x != QualifiedName(symbol) {
          var i :| 0 <= i < |nodes| && x in Identifiers(nodes[i]);
          var t :| t in TypeTree(args[i]) && QualifiedName(t) == x;
          assert t in TypeTree(symbol);
        }
      }
      forall x | x in set t | t in TypeTree(symbol) :: QualifiedName(t)
        ensures x in Identifiers(QualifiedSyntaxNode(symbol))
      {
        var t :| t in TypeTree(symbol) && QualifiedName(t) == x;
        if t != symbol {
          var i :| 0 <= i < |args| && t in TypeTree(args[i]);
          assert x in Identifiers(nodes[i]);
        }
      }
    } else {
      assert TypeTree(symbol) == {symbol};
    }
  }

  /** The name the generator writes for one type: qualified when generic, bare otherwise. */
  function WrittenName(symbol: TypeSymbol): string
  {
    if IsGenericNamedType(symbol) then QualifiedName(symbol) else symbol.name
  }

  /**
   * The type name as written names every type of the symbol's tree, the generic ones
   * qualified by their containing type and the others bare, and nothing else.
   */
  lemma {:induction false} WrittenNamesCoverTypeTree(symbol: TypeSymbol)
    ensures Identifiers(AsSyntaxNode(symbol)) == set t | t in TypeTree(symbol) :: WrittenName(t)
  {
    if IsGenericNamedType(symbol) {
      var args := symbol.kind.typeArguments;
      var nodes := seq(|args|, i requires 0 <= i < |args| => AsSyntaxNode(args[i]));
      assert AsSyntaxNode(symbol) == GenericName(WrittenName(symbol), nodes);
      forall i | 0 <= i < |args| {
        WrittenNamesCoverTypeTree(args[i]);
      }
      forall x | x in Identifiers(AsSyntaxNode(symbol))
        ensures x in set t | t in TypeTree(symbol) :: WrittenName(t)
      {
        if x != WrittenName(symbol) {
          var i :| 0 <= i < |nodes| && x in Identifiers(nodes[i]);
          var t :| t in TypeTree(args[i]) && WrittenName(t) == x;
          assert t in TypeTree(symbol);
        }
      }
      forall x | x in set t | t in TypeTree(symbol) :: WrittenName(t)
        ensures x in Identifiers(AsSyntaxNode(symbol))
      {
        var t :| t in TypeTree(symbol) && WrittenName(t) == x;
        if t != symbol {
          var i :| 0 <= i < |args| && t in TypeTree(args[i]);
          assert x in Identifiers(nodes[i]);
        }
      }
    } else {
      assert TypeTree(symbol) == {symbol};
      assert WrittenName(symbol) in set t | t in TypeTree(symbol) :: WrittenName(t);
    }
  }

  /** A non-generic type of the tree that is nested in another type. */
  predicate HasNestedLeaf(symbol: TypeSymbol)
  {
    exists t :: t in TypeTree(symbol) && !IsGenericNamedType(t) && t.containingType.Some?
  }

  /**
   * The generator's type name and the corrected one agree exactly when no
   * non-generic type of the tree is nested in another type.
   */
  lemma {:induction false} AsSyntaxNodeAgreesIff(symbol: TypeSymbol)
    ensures AsSyntaxNode(symbol) == QualifiedSyntaxNode(symbol) <==> !HasNestedLeaf(symbol)
  {
    if IsGenericNamedType(symbol) {
      var args := symbol.kind.typeArguments;
      var written := seq(|args|, i requires 0 <= i < |args| => AsSyntaxNode(args[i]));
      var qualified := seq(|args|, i requires 0 <= i < |args| => QualifiedSyntaxNode(args[i]));
      assert AsSyntaxNode(symbol) == GenericName(QualifiedName(symbol), written);
      assert QualifiedSyntaxNode(symbol) == GenericName(QualifiedName(symbol), qualified);
      forall i | 0 <= i < |args| {
        AsSyntaxNodeAgreesIff(args[i]);
      }
      forall i | 0 <= i < |args| && HasNestedLeaf(args[i])
        ensures HasNestedLeaf(symbol)
      {
        var t :| t in TypeTree(args[i]) && !IsGenericNamedType(t) && t.containingType.Some?;
        assert t in TypeTree(symbol);
      }
      if HasNestedLeaf(symbol) {
        var t :| t in TypeTree(symbol) && !IsGenericNamedType(t) && t.containingType.Some?;
        var i :| 0 <= i < |args| && t in TypeTree(args[i]);
        assert HasNestedLeaf(args[i]);
        assert written[i] != qualified[i];
      } else {
        assert written == qualified;
      }
    } else {
      assert TypeTree(symbol) == {symbol};
      if symbol.containingType.Some? {
        assert |QualifiedName(symbol)| > |symbol.name|;
      }
    }
  }

  /** A nested non-generic type, `Outer.Inner`, is written as the bare `Inner`. */
  lemma AsSyntaxNodeDropsContainingType()
    ensures var inner := TypeSymbol("Inner", Some(NamespaceSymbol("Sample", true)), Some("Outer"), NamedType(false, []));
            AsSyntaxNode(inner) == IdentifierName("Inner")
            && QualifiedSyntaxNode(inner) == IdentifierName("Outer.Inner")
  {
  }

  // ------------------------------------------------------------------ the generator

  datatype ClassDeclaration = ClassDeclaration(
    name: string,
    isPartial: bool,
    baseType: Option<TypeSyntax>,
    interfaceTypes: seq<TypeSyntax>)

  /** The stunt's compilation unit: namespace imports, then the namespace holding the class. */
  datatype CompilationUnit = CompilationUnit(imports: set<string>, namespace: string, declaration: ClassDeclaration)

  /** The namespace of generated types; `GetName` is not part of this model. */
  datatype NamingConvention = NamingConvention(namespace: string)

  /** The imports of a stunt: those of its base type and of every interface it implements. */
  function StuntImports(baseType: Option<TypeSymbol>, implementedInterfaces: seq<TypeSymbol>): set<string>
  {
    ImportsOf(baseType) + ImportsUpTo(implementedInterfaces, |implementedInterfaces|)
  }

  /** Every type a stunt's declaration mentions, with their type arguments. */
  function StuntTypes(baseType: Option<TypeSymbol>, implementedInterfaces: seq<TypeSymbol>): set<TypeSymbol>
  {
    (if baseType.Some? then TypeTree(baseType.value) else {})
    + set i, t | 0 <= i < |implementedInterfaces| && t in TypeTree(implementedInterfaces[i]) :: t
  }

  /**
   * A stunt imports exactly the referenceable containing namespaces of the types its
   * declaration mentions.
   */
  lemma StuntImportsAreTypeNamespaces(baseType: Option<TypeSymbol>, implementedInterfaces: seq<TypeSymbol>)
    ensures StuntImports(baseType, implementedInterfaces) == ReferenceableNamespaces(StuntTypes(baseType, implementedInterfaces))
  {
    if baseType.Some? {
      ImportsAreTreeNamespaces(baseType.value);
    }
    forall i | 0 <= i < |implementedInterfaces| {
      ImportsAreTreeNamespaces(implementedInterfaces[i]);
    }
    var types := StuntTypes(baseType, implementedInterfaces);
    forall name | name in ReferenceableNamespaces(types)
      ensures name in StuntImports(baseType, implementedInterfaces)
    {
      var t :| t in types && HasReferenceableNamespace(t) && t.containingNamespace.value.displayString == name;
      if baseType.Some? && t in TypeTree(baseType.value) {
        assert name in ReferenceableNamespaces(TypeTree(baseType.value));
      } else {
        var i :| 0 <= i < |implementedInterfaces| && t in TypeTree(implementedInterfaces[i]);
        assert name in ReferenceableNamespaces(TypeTree(implementedInterfaces[i]));
      }
    }
    forall name | name in StuntImports(baseType, implementedInterfaces)
      ensures name in ReferenceableNamespaces(types)
    {
      if baseType.Some? && name in Imports(baseType.value) {
        var t :| t in TypeTree(baseType.value) && HasReferenceableNamespace(t) && t.containingNamespace.value.displayString == name;
        assert t in types;
      } else {
        var i :| 0 <= i < |implementedInterfaces| && name in Imports(implementedInterfaces[i]);
        var t :| t in TypeTree(implementedInterfaces[i]) && HasReferenceableNamespace(t) && t.containingNamespace.value.displayString == name;
        assert t in types;
      }
    }
  }

  /**
   * The stunt's base type and interfaces are written with their qualified names
   * exactly when none of the types its declaration mentions is a non-generic type
   * nested in another type.
   */
  lemma StuntTypeNamesQualifiedIff(baseType: Option<TypeSymbol>, implementedInterfaces: seq<TypeSymbol>)
    ensures ((baseType.Some? ==> AsSyntaxNode(baseType.value) == QualifiedSyntaxNode(baseType.value))
             && forall i :: 0 <= i < |implementedInterfaces|
                  ==> AsSyntaxNode(implementedInterfaces[i]) == QualifiedSyntaxNode(implementedInterfaces[i]))
        <==> forall t :: t in StuntTypes(baseType, implementedInterfaces) ==> IsGenericNamedType(t) || t.containingType.None?
  {
    if baseType.Some? {
      AsSyntaxNodeAgreesIff(baseType.value);
    }
    forall i | 0 <= i < |implementedInterfaces| {
      AsSyntaxNodeAgreesIff(implementedInterfaces[i]);
    }
    var types := StuntTypes(baseType, implementedInterfaces);
    if exists t :: t in types && !IsGenericNamedType(t) && t.containingType.Some? {
      var t :| t in types && !IsGenericNamedType(t) && t.containingType.Some?;
      if baseType.Some? && t in TypeTree(baseType.value) {
        assert HasNestedLeaf(baseType.value);
      } else {
        var i :| 0 <= i < |implementedInterfaces| && t in TypeTree(implementedInterfaces[i]);
        assert HasNestedLeaf(implementedInterfaces[i]);
      }
    }
  }

  class StuntGenerator {
    const naming: NamingConvention
    const processors: ProcessorTable

    /** Splits the processors by supported language and then by phase. */
    constructor(naming: NamingConvention, processors: seq<DocumentProcessor>)
      ensures this.naming == naming && this.processors == Group(processors)
    {
      this.naming := naming;
      this.processors := Group(processors);
    }

    /**
     * Runs the processors of the document's language, phase by phase in the order
     * Prepare, Scaffold, Rewrite, Fixup, each on the previous one's output.
     */
    method ApplyProcessors<D>(document: D, languageOf: D -> string, process: (DocumentProcessor, D) -> D) returns (result: D)
      ensures result == Applied(processors, languageOf(document), document, process)
      ensures languageOf(document) !in processors ==> result == document
    {
      var language := languageOf(document);
      if language !in processors {
        return document;
      }
      var supportedProcessors := processors[language];
      result := document;

      if Prepare in supportedProcessors {
        var prepares := supportedProcessors[Prepare];
        for i := 0 to |prepares|
          invariant result == Fold(prepares[..i], document, process)
        {
          assert prepares[..i + 1][..i] == prepares[..i];
          result := process(prepares[i], result);
        }
        assert prepares[..|prepares|] == prepares;
      }
      ghost var prepared := result;

      if Scaffold in supportedProcessors {
        var scaffolds := supportedProcessors[Scaffold];
        for i := 0 to |scaffolds|
          invariant result == Fold(scaffolds[..i], prepared, process)
        {
          assert scaffolds[..i + 1][..i] == scaffolds[..i];
          result := process(scaffolds[i], result);
        }
        assert scaffolds[..|scaffolds|] == scaffolds;
      }
      ghost var scaffolded := result;

      if Rewrite in supportedProcessors {
        var rewriters := supportedProcessors[Rewrite];
        for i := 0 to |rewriters|
          invariant result == Fold(rewriters[..i], scaffolded, process)
        {
          assert rewriters[..i + 1][..i] == rewriters[..i];
          result := process(rewriters[i], result);
        }
        assert rewriters[..|rewriters|] == rewriters;
      }
      ghost var rewritten := result;

      if Fixup in supportedProcessors {
        var fixups := supportedProcessors[Fixup];
        for i := 0 to |fixups|
          invariant result == Fold(fixups[..i], rewritten, process)
        {
          assert fixups[..i + 1][..i] == fixups[..i];
          result := process(fixups[i], result);
        }
        assert fixups[..|fixups|] == fixups;
      }
    }

    /** Adds to `imports` the namespaces `symbol` needs; a null symbol adds nothing. */
    method AddImports(imports: ImportSet, symbol: Option<TypeSymbol>)
      modifies imports
      ensures imports.elements == old(imports.elements) + ImportsOf(symbol)
      ensures ImportsOf(symbol) <= old(imports.elements) ==> imports.elements == old(imports.elements)
      // each recursive call is on a type argument, which lies strictly below the symbol's kind
      decreases if symbol.Some? then symbol.value.kind else OtherType
    {
      if symbol.Some? && HasReferenceableNamespace(symbol.value) {
        imports.Add(symbol.value.containingNamespace.value.displayString);
      }
      if symbol.Some? && IsGenericNamedType(symbol.value) {
        var typeArguments := symbol.value.kind.typeArguments;
        for i := 0 to |typeArguments|
          invariant imports.elements == old(imports.elements) + OwnImport(symbol.value) + ImportsUpTo(typeArguments, i)
        {
          AddImports(imports, Some(typeArguments[i]));
          ImportsUpToStep(typeArguments, i);
        }
        assert Imports(symbol.value) == OwnImport(symbol.value) + ImportsUpTo(typeArguments, |typeArguments|);
      }
    }

    /**
     * The empty stunt for the validated base type and interfaces, named `name`: its
     * imports, its namespace and its partial class declaration.
     */
    method CreateStunt(name: string, baseType: Option<TypeSymbol>, implementedInterfaces: seq<TypeSymbol>)
      returns (stuntName: string, syntax: CompilationUnit)
      ensures stuntName == name
      ensures syntax.imports == StuntImports(baseType, implementedInterfaces)
      ensures syntax.namespace == naming.namespace
      ensures syntax.declaration.name == name && syntax.declaration.isPartial
      ensures syntax.declaration.baseType == if baseType.Some? then Some(AsSyntaxNode(baseType.value)) else None
      ensures |syntax.declaration.interfaceTypes| == |implementedInterfaces|
      ensures forall i :: 0 <= i < |implementedInterfaces|
                ==> syntax.declaration.interfaceTypes[i] == AsSyntaxNode(implementedInterfaces[i])
    {
      var imports := new ImportSet();
      AddImports(imports, baseType);
      for i := 0 to |implementedInterfaces|
        invariant imports.elements == ImportsOf(baseType) + ImportsUpTo(implementedInterfaces, i)
      {
        AddImports(imports, Some(implementedInterfaces[i]));
        ImportsUpToStep(implementedInterfaces, i);
      }
      var baseSyntax := if baseType.Some? then Some(AsSyntaxNode(baseType.value)) else None;
      var interfaceSyntax := seq(|implementedInterfaces|, i requires 0 <= i < |implementedInterfaces|
                                   => AsSyntaxNode(implementedInterfaces[i]));
      stuntName := name;
      syntax := CompilationUnit(imports.elements, naming.namespace,
                                ClassDeclaration(name, true, baseSyntax, interfaceSyntax));
    }
  }
}
