# Implementor core: contexts, signatures and inherited methods

This project models the core of the Implementor. Given an abstract class or interface, the Implementor generates a concrete subclass whose every abstract method has a stub. The core decides which stubs the generated class must declare, or why no such class can exist. It works in four parts:

- **Generic contexts** (`GenericContexts`, module `Contexts`). A store maps each raw supertype of the analysed type to its context: a map from that type's type-parameter names to the actual type arguments, as seen from the analysed type.
- **Type utilities** (`GenericUtils`). They render a type in a context and erase it (section 4.6 of the Java Language Specification). They decide same signature, subsignature and override-equivalence (section 8.4.2) and raw types (section 4.8), and they fill the store by walking the supertype graph depth first.
- **Method utilities** (`MethodUtils`). They compute the methods each supertype inherits (sections 8.4.8 and 9.4.1) and decide overriding from a type (sections 8.4.8.1 and 9.4.1.1). They partition the member methods greedily into override-equivalence classes. Then they build one stub signature per class holding an abstract method, rejecting a type whose stubs would clash by erasure or that has a package-private abstract method the subclass cannot reach.
- **Stub signatures** (`ImplementationMethodSignature`). A stub gets the common access level, the least free type-parameter names `Var<k>` with bounds rewritten to the new names, the most specific return type, and a reference method whose signature it copies.

Reflection is modelled by the `JavaTypes` module. A `Hierarchy` holds tables of classes and type variables, identified by index; supertypes, enclosing classes and the first bounds of type variables always have smaller indices. A `Type` is one of `Class`, `Parameterized`, `Var`, `Wildcard` and `GenericArray`. Modifiers are `bv32` bit sets with the constants of `java.lang.reflect.Modifier`.

Code that updates state keeps that form:
- `GenericContexts` is a class whose map field the methods reassign.
- `GeneratedTypeVariable` owns an array of bounds that is rewritten in place.
- `fillContexts` writes into the shared store as it recurses.
- The loops of `isSameSignature`, `makeQuotientSet`, `isOverridingDeclarationFrom`, `getInheritedMethods`, `getCommonMethodSignature` and `getMethodSignatures` are methods with loop invariants.

Each such method is proved equal to a function or predicate that states its result, and the properties are proved about those definitions.

The module `OverridingCycle` works one concrete hierarchy of three packages through the model, for the finding about `isOverridingDeclarationFrom` below.

## Model

| member | source | states |
|---|---|---|
| Contexts.GenericContexts.constructor | info.kgeorgiy.ja.eliseev.implementor/info/kgeorgiy/ja/eliseev/implementor/GenericContexts.java:27-29 | A new store holds no context for any raw type. |
| Contexts.GenericContexts.AddContext | info.kgeorgiy.ja.eliseev.implementor/info/kgeorgiy/ja/eliseev/implementor/GenericContexts.java:37-39 | After the call the store maps the raw type to the given context; the context of every other raw type is unchanged. |
| Contexts.GenericContexts.GetContext | info.kgeorgiy.ja.eliseev.implementor/info/kgeorgiy/ja/eliseev/implementor/GenericContexts.java:48-50 | Returns the stored context of the raw type, or an empty context when none was added; the store is not changed. |
| Contexts.LastWriteWins | info.kgeorgiy.ja.eliseev.implementor/info/kgeorgiy/ja/eliseev/implementor/GenericContexts.java:37-50 | Two `put`s for the same raw type followed by a read give the second context. |
| Contexts.WriteIsLocal | info.kgeorgiy.ja.eliseev.implementor/info/kgeorgiy/ja/eliseev/implementor/GenericContexts.java:37-50 | After a `put` for one raw type, a read for another raw type gives what the store held for it before. |
| GenericUtils.RenderEmptyIsPlain | info.kgeorgiy.ja.eliseev.implementor/info/kgeorgiy/ja/eliseev/implementor/utils/GenericUtils.java:32-82 | With an empty context, a type is rendered exactly as its plain type name. |
| GenericUtils.RenderCases | info.kgeorgiy.ja.eliseev.implementor/info/kgeorgiy/ja/eliseev/implementor/utils/GenericUtils.java:36-78 | Lists each case of the rendering. An ignored name prints as itself. A bound variable whose replacement is a variable prints as that variable's name; an unbound one prints as its own name. A wildcard with lower bounds prints as `? super ` and the rendered lower bounds joined by ` & `. A wildcard with only upper bounds, other than a lone `Object`, prints as `? extends ` and the rendered upper bounds joined by ` & `. An unbounded wildcard prints as `?`. A generic array prints as its component followed by `[]`. |
| GenericUtils.RenderAsWrittenDiverges | info.kgeorgiy.ja.eliseev.implementor/info/kgeorgiy/ja/eliseev/implementor/utils/GenericUtils.java:50-60 | For `abstract class A<T> implements Comparable<List<T>>`, rendering `compareTo`'s parameter in Comparable's context never finishes as written, whatever the fuel. |
| GenericUtils.RenderSubstitutesOnce | info.kgeorgiy.ja.eliseev.implementor/info/kgeorgiy/ja/eliseev/implementor/utils/GenericUtils.java:50-60 | With a single substitution, the same input renders as `List<T>`. |
| GenericUtils.RenderAsWrittenResubstitutes | info.kgeorgiy.ja.eliseev.implementor/info/kgeorgiy/ja/eliseev/implementor/utils/GenericUtils.java:50-60 | For `abstract class A<U> implements I<List<U>, String>`, I's `T` renders as written as `List<String>`: A's `U` is replaced again by I's `String`. Substituting once, it renders as `List<U>`. |
| GenericUtils.RenderAsWrittenUntouched | info.kgeorgiy.ja.eliseev.implementor/info/kgeorgiy/ja/eliseev/implementor/utils/GenericUtils.java:32-82 | A type that mentions no bound variable renders, as written, to its plain name. |
| GenericUtils.RenderAgreesWhenCaptureFree | info.kgeorgiy.ja.eliseev.implementor/info/kgeorgiy/ja/eliseev/implementor/utils/GenericUtils.java:32-82 | When no replacement mentions a bound variable, the code as written finishes and agrees with the corrected rendering. |
| GenericUtils.EraseCases | info.kgeorgiy.ja.eliseev.implementor/info/kgeorgiy/ja/eliseev/implementor/utils/GenericUtils.java:93-113 | Lists each case of erasure. A parameterized type erases as its raw class, and a generic array as the array of its component's erasure. An unbound or ignored variable erases as its first bound. A class erases to itself. |
| GenericUtils.EraseAsWrittenDiverges | info.kgeorgiy.ja.eliseev.implementor/info/kgeorgiy/ja/eliseev/implementor/utils/GenericUtils.java:99-107 | For `abstract class A<T> implements Comparable<T[]>`, erasing `compareTo`'s parameter in Comparable's context never finishes as written. |
| GenericUtils.EraseSubstitutesOnce | info.kgeorgiy.ja.eliseev.implementor/info/kgeorgiy/ja/eliseev/implementor/utils/GenericUtils.java:99-107 | With A's `T` bounded by `Object` and a single substitution, the same input erases to `Object[]`. |
| GenericUtils.ErasureMentionsNothing | info.kgeorgiy.ja.eliseev.implementor/info/kgeorgiy/ja/eliseev/implementor/utils/GenericUtils.java:93-113 | Erasing a type with nothing to look up never reaches a bound variable. |
| GenericUtils.EraseAsWrittenUntouched | info.kgeorgiy.ja.eliseev.implementor/info/kgeorgiy/ja/eliseev/implementor/utils/GenericUtils.java:93-113 | A type whose erasure reaches no bound variable erases, as written, to its context-free erasure. |
| GenericUtils.EraseAgreesWhenCaptureFree | info.kgeorgiy.ja.eliseev.implementor/info/kgeorgiy/ja/eliseev/implementor/utils/GenericUtils.java:93-113 | When erasing any replacement reaches no bound variable, the code as written finishes and agrees with the corrected erasure. |
| GenericUtils.EraseIgnoresNamesWithoutContext | info.kgeorgiy.ja.eliseev.implementor/info/kgeorgiy/ja/eliseev/implementor/utils/GenericUtils.java:93-113 | In an empty context the set of names left alone does not change any erasure. |
| GenericUtils.HasSameErasureWithoutContext | info.kgeorgiy.ja.eliseev.implementor/info/kgeorgiy/ja/eliseev/implementor/utils/GenericUtils.java:159-169 | In an empty context, two methods have the same erasure exactly when they have the same name and the same context-free parameter erasures. So `hasSameErasure` is reflexive and symmetric there. |
| GenericUtils.RendersAlikeAtEachPosition | info.kgeorgiy.ja.eliseev.implementor/info/kgeorgiy/ja/eliseev/implementor/utils/GenericUtils.java:231-241 | The loop's running comparison holds exactly when every position renders alike in the two contexts. |
| GenericUtils.PairwiseAlikeAtEachPosition | info.kgeorgiy.ja.eliseev.implementor/info/kgeorgiy/ja/eliseev/implementor/utils/GenericUtils.java:209-229 | A pairwise comparison of type parameters holds exactly when it holds at every position. |
| GenericUtils.BoundsAlikeAtEachPosition | info.kgeorgiy.ja.eliseev.implementor/info/kgeorgiy/ja/eliseev/implementor/utils/GenericUtils.java:209-229 | The bounds comparison holds exactly when every pair of type parameters has equally many bounds that render alike. |
| GenericUtils.CompareBounds | info.kgeorgiy.ja.eliseev.implementor/info/kgeorgiy/ja/eliseev/implementor/utils/GenericUtils.java:212-227 | The inner bounds loop answers yes exactly when the two type parameters have the same number of bounds, all rendering alike. |
| GenericUtils.AliasTypeParameters | info.kgeorgiy.ja.eliseev.implementor/info/kgeorgiy/ja/eliseev/implementor/utils/GenericUtils.java:205-207 | Returns the second method's context in which each of its type-parameter names maps to the first method's parameter at the same position. |
| GenericUtils.IsSameSignature | info.kgeorgiy.ja.eliseev.implementor/info/kgeorgiy/ja/eliseev/implementor/utils/GenericUtils.java:181-244 | Answers yes exactly when the two methods have the same signature: same name, same parameter and type-parameter counts, and bounds and parameters that render alike once the type parameters are renamed. |
| GenericUtils.CompareAllBounds | info.kgeorgiy.ja.eliseev.implementor/info/kgeorgiy/ja/eliseev/implementor/utils/GenericUtils.java:209-229 | Answers yes exactly when every pair of type parameters has bounds that render alike. |
| GenericUtils.CompareParams | info.kgeorgiy.ja.eliseev.implementor/info/kgeorgiy/ja/eliseev/implementor/utils/GenericUtils.java:231-241 | Answers yes exactly when every pair of parameter types renders alike. |
| GenericUtils.SameSignatureNeedsEqualShapes | info.kgeorgiy.ja.eliseev.implementor/info/kgeorgiy/ja/eliseev/implementor/utils/GenericUtils.java:182-195 | Methods with the same signature agree on name, parameter count, type-parameter count and the bound count of each type parameter, which are the early exits. |
| GenericUtils.RenderUnderAliases | info.kgeorgiy.ja.eliseev.implementor/info/kgeorgiy/ja/eliseev/implementor/utils/GenericUtils.java:201-207 | Rendering that leaves the ignored names alone equals rendering in a context that maps each ignored name to a variable of that name. |
| GenericUtils.AliasedToSelf | info.kgeorgiy.ja.eliseev.implementor/info/kgeorgiy/ja/eliseev/implementor/utils/GenericUtils.java:205-207 | Aliasing a method's type parameters to themselves maps each of their names to a variable of that name and keeps every other entry. |
| GenericUtils.SameSignatureReflexive | info.kgeorgiy.ja.eliseev.implementor/info/kgeorgiy/ja/eliseev/implementor/utils/GenericUtils.java:181-244 | Every method has the same signature as itself. |
| GenericUtils.ErasedParamsIdempotent | info.kgeorgiy.ja.eliseev.implementor/info/kgeorgiy/ja/eliseev/implementor/utils/GenericUtils.java:264-267 | Every erased parameter type is a plain class, and erasing the erased parameters again gives them back unchanged. |
| GenericUtils.SubSignatureCases | info.kgeorgiy.ja.eliseev.implementor/info/kgeorgiy/ja/eliseev/implementor/utils/GenericUtils.java:257-268 | Methods with different names are never subsignatures. Having the same signature implies being a subsignature. Otherwise a method is a subsignature exactly when it has no type parameters and its parameters are the other's erased parameters. |
| GenericUtils.OverrideEquivalentReflexive | info.kgeorgiy.ja.eliseev.implementor/info/kgeorgiy/ja/eliseev/implementor/utils/GenericUtils.java:281-285 | Every method is a subsignature of itself, and so override-equivalent to itself. |
| GenericUtils.OverrideEquivalentSymmetric | info.kgeorgiy.ja.eliseev.implementor/info/kgeorgiy/ja/eliseev/implementor/utils/GenericUtils.java:281-285 | Override-equivalence does not depend on the order of the two methods. |
| GenericUtils.RawArrayIffRawBase | info.kgeorgiy.ja.eliseev.implementor/info/kgeorgiy/ja/eliseev/implementor/utils/GenericUtils.java:294-302 | An array type is raw exactly when its innermost component class is raw. |
| GenericUtils.RawIffNestedInGeneric | info.kgeorgiy.ja.eliseev.implementor/info/kgeorgiy/ja/eliseev/implementor/utils/GenericUtils.java:294-302 | A class is raw exactly when it is generic or is a non-static member class of a generic class, at any depth. |
| GenericUtils.ArgContextMaps | info.kgeorgiy.ja.eliseev.implementor/info/kgeorgiy/ja/eliseev/implementor/utils/GenericUtils.java:349-356 | If the parameter names are distinct, the built context maps exactly those names. Each maps to the parent's entry for its argument's name, or to the argument itself. |
| GenericUtils.SuperContext | info.kgeorgiy.ja.eliseev.implementor/info/kgeorgiy/ja/eliseev/implementor/utils/GenericUtils.java:349-356 | The loop builds the context of a parameterized supertype: each type parameter bound to its argument, read through the parent context. |
| GenericUtils.FillContexts | info.kgeorgiy.ja.eliseev.implementor/info/kgeorgiy/ja/eliseev/implementor/utils/GenericUtils.java:336-364 | The store afterwards is the old store with each direct supertype visited in order, depth first, as `Fill` defines. |
| GenericUtils.VisitSupertype | info.kgeorgiy.ja.eliseev.implementor/info/kgeorgiy/ja/eliseev/implementor/utils/GenericUtils.java:342-363 | One pass of the loop. A parameterized supertype writes its context and passes it upward; a plain class passes on an empty context. |
| GenericUtils.GetContexts | info.kgeorgiy.ja.eliseev.implementor/info/kgeorgiy/ja/eliseev/implementor/utils/GenericUtils.java:322-326 | Returns a fresh store filled from the root with an empty parent context. |
| GenericUtils.FillFrame | info.kgeorgiy.ja.eliseev.implementor/info/kgeorgiy/ja/eliseev/implementor/utils/GenericUtils.java:336-364 | Filling from a root writes only the contexts of the root's proper ancestors. Every other raw type keeps its entry or its absence, including the root itself. |
| GenericUtils.SuperclassContextWins | info.kgeorgiy.ja.eliseev.implementor/info/kgeorgiy/ja/eliseev/implementor/utils/GenericUtils.java:336-364 | The superclass is visited last, so the context of a parameterized superclass is the one left in the store. |
| GenericUtils.NonObjectBounds | info.kgeorgiy.ja.eliseev.implementor/info/kgeorgiy/ja/eliseev/implementor/utils/GenericUtils.java:377-380 | The result holds exactly the bounds other than `Object`, and is the input itself when `Object` is not among them. |
| GenericUtils.NonObjectBoundsCounts | info.kgeorgiy.ja.eliseev.implementor/info/kgeorgiy/ja/eliseev/implementor/utils/GenericUtils.java:377-380 | Every bound other than `Object` is kept as many times as it occurs, and `Object` not at all. |
| GenericUtils.NonObjectBoundsAppend | info.kgeorgiy.ja.eliseev.implementor/info/kgeorgiy/ja/eliseev/implementor/utils/GenericUtils.java:377-380 | Dropping `Object` distributes over concatenation, so the kept bounds stay in their order. |
| GenericUtils.TypeVariableRepresentation | info.kgeorgiy.ja.eliseev.implementor/info/kgeorgiy/ja/eliseev/implementor/utils/GenericUtils.java:375-385 | When every bound renders to non-empty text, as every Java type name does: the result is the bare name exactly when all bounds are `Object`. Otherwise it is the name, ` extends ` and the non-`Object` bounds rendered in order and joined by ` & `. |
| GenericUtils.TypeParametersToString | info.kgeorgiy.ja.eliseev.implementor/info/kgeorgiy/ja/eliseev/implementor/utils/GenericUtils.java:396-404 | Empty exactly when there are no variables. Otherwise it is `<`, then the representations of the variables in order joined by `, `, then `>`. |
| GenericUtils.UnboundedTypeParameters | info.kgeorgiy.ja.eliseev.implementor/info/kgeorgiy/ja/eliseev/implementor/utils/GenericUtils.java:396-404 | Variables bounded only by `Object` print as `<`, their names joined by `, `, and `>`. |
| MethodUtils.PackagePrivateIffNoAccessBits | info.kgeorgiy.ja.eliseev.implementor/info/kgeorgiy/ja/eliseev/implementor/utils/MethodUtils.java:397-399 | A method is package-private exactly when none of the three access bits is set. |
| MethodUtils.AccessibleFromDeclaringType | info.kgeorgiy.ja.eliseev.implementor/info/kgeorgiy/ja/eliseev/implementor/utils/MethodUtils.java:276-282 | Every method is accessible from the type that declares it. |
| MethodUtils.PrivateOnlyFromDeclaringType | info.kgeorgiy.ja.eliseev.implementor/info/kgeorgiy/ja/eliseev/implementor/utils/MethodUtils.java:276-282 | A private method is accessible from a type exactly when that type declares it. |
| MethodUtils.AllMethodsDeclaredAbove | info.kgeorgiy.ja.eliseev.implementor/info/kgeorgiy/ja/eliseev/implementor/utils/MethodUtils.java:136-146 | A method is collected exactly when the type or one of its ancestors declares it. |
| MethodUtils.OverridesFromRequiresMembership | info.kgeorgiy.ja.eliseev.implementor/info/kgeorgiy/ja/eliseev/implementor/utils/MethodUtils.java:319-386 | A yes answer implies the facts the early tests establish. `from` is neither `Object` nor primitive, and does not declare the overridden method. The overrider is a non-static member of `from`, and the overridden method's type is a supertype of `from`. The overrider is a subsignature, and no class method is overridden from an interface. |
| MethodUtils.IsOverridingDeclarationFrom | info.kgeorgiy.ja.eliseev.implementor/info/kgeorgiy/ja/eliseev/implementor/utils/MethodUtils.java:319-386 | The method with its loops answers exactly as the recursive definition of overriding from a type. |
| MethodUtils.WalkAsWrittenStuck | info.kgeorgiy.ja.eliseev.implementor/info/kgeorgiy/ja/eliseev/implementor/utils/MethodUtils.java:363-380 | In Java's order of calls, a question that reaches the superclass walk gets no answer when the first superclass does not answer yes directly and the inner loop there gets no answer. |
| MethodUtils.BridgeLoopAsWrittenStuck | info.kgeorgiy.ja.eliseev.implementor/info/kgeorgiy/ja/eliseev/implementor/utils/MethodUtils.java:369-376 | In Java's order of calls, the inner loop gets no answer when it reaches a candidate and every first question it asks gets none. |
| OverridingCycle.H3AllMethods | info.kgeorgiy.ja.eliseev.implementor/info/kgeorgiy/ja/eliseev/implementor/utils/MethodUtils.java:136-146 | For the classes `A`, `B`, `C` of the finding below, `getAllMethods(C)` is `{A.f, B.f, C.f}`. |
| OverridingCycle.H3InheritsNothing | info.kgeorgiy.ja.eliseev.implementor/info/kgeorgiy/ja/eliseev/implementor/utils/MethodUtils.java:158-267 | There, no type inherits anything: the package-private abstract `A.f` and `B.f` are not accessible from the next package. |
| OverridingCycle.H3SubSignatures | info.kgeorgiy.ja.eliseev.implementor/info/kgeorgiy/ja/eliseev/implementor/utils/GenericUtils.java:257-268 | There, `C.f` is a subsignature of `A.f` and of `B.f`. |
| OverridingCycle.AsWrittenNeverAnswers | info.kgeorgiy.ja.eliseev.implementor/info/kgeorgiy/ja/eliseev/implementor/utils/MethodUtils.java:319-386 | There, as written and in any order of the methods, neither "does `C.f` override `B.f` from `C`" nor "does `C.f` override `A.f` from `C`" ever gets an answer. |
| OverridingCycle.OverridingCycleAsWritten | info.kgeorgiy.ja.eliseev.implementor/info/kgeorgiy/ja/eliseev/implementor/utils/MethodUtils.java:363-380 | As written, the engine's question whether `C.f` overrides `B.f` from `C` gets no answer for any bound on the recursion, in any order of `getAllMethods(C)`. |
| OverridingCycle.BfNotOverriddenAbove | info.kgeorgiy.ja.eliseev.implementor/info/kgeorgiy/ja/eliseev/implementor/utils/MethodUtils.java:319-386 | No method overrides `B.f` from `B`, from `A` or from `Object`. |
| OverridingCycle.BfNotOverriddenFromC | info.kgeorgiy.ja.eliseev.implementor/info/kgeorgiy/ja/eliseev/implementor/utils/MethodUtils.java:319-386 | No method overrides `B.f` from `C`, whatever the bound on the walk. |
| OverridingCycle.OverridingCycleUnoverridable | info.kgeorgiy.ja.eliseev.implementor/info/kgeorgiy/ja/eliseev/implementor/utils/MethodUtils.java:55-77 | `B.f` is package-private, abstract, in another package than `C`, and overridden from neither `C` nor `B`. |
| OverridingCycle.OverridingCycleRejected | info.kgeorgiy.ja.eliseev.implementor/info/kgeorgiy/ja/eliseev/implementor/utils/MethodUtils.java:35-79 | The engine refuses to implement `C`. |
| MethodUtils.AnyBridge | info.kgeorgiy.ja.eliseev.implementor/info/kgeorgiy/ja/eliseev/implementor/utils/MethodUtils.java:369-377 | The inner loop finds a bridging method exactly when some method of `all` bridges the two. |
| MethodUtils.BridgesVia | info.kgeorgiy.ja.eliseev.implementor/info/kgeorgiy/ja/eliseev/implementor/utils/MethodUtils.java:370-376 | One candidate bridges exactly when it is neither method and sits on an overriding chain from `from` through the superclass. |
| MethodUtils.FromInterfacesMembers | info.kgeorgiy.ja.eliseev.implementor/info/kgeorgiy/ja/eliseev/implementor/utils/MethodUtils.java:180-207 | A method comes from the superinterfaces exactly when one of them has it as a member and passes it on. |
| MethodUtils.OwnInheritedShape | info.kgeorgiy.ja.eliseev.implementor/info/kgeorgiy/ja/eliseev/implementor/utils/MethodUtils.java:174-265 | Each inherited method is a member of a direct supertype, and nothing the type declares has a subsignature of it. When the type is an interface, or the method is not accessible from it, the method is abstract or default. |
| MethodUtils.InheritedKeys | info.kgeorgiy.ja.eliseev.implementor/info/kgeorgiy/ja/eliseev/implementor/utils/MethodUtils.java:158-267 | The returned map has entries for exactly the type and all its supertypes, so `getMemberMethods` never looks up a missing type. |
| MethodUtils.InheritedConsistent | info.kgeorgiy.ja.eliseev.implementor/info/kgeorgiy/ja/eliseev/implementor/utils/MethodUtils.java:167-173 | Whatever the starting type, the map's entry for a type is what that type's own computation stores, so the `putIfAbsent` merges never choose between two different answers. |
| MethodUtils.InheritedDeclaredAbove | info.kgeorgiy.ja.eliseev.implementor/info/kgeorgiy/ja/eliseev/implementor/utils/MethodUtils.java:158-267 | Every inherited method is declared in a proper supertype. |
| MethodUtils.FilterMethods | info.kgeorgiy.ja.eliseev.implementor/info/kgeorgiy/ja/eliseev/implementor/utils/MethodUtils.java:209-231 | Returns exactly the methods of the set that pass the test. |
| MethodUtils.PutAllAbsent | info.kgeorgiy.ja.eliseev.implementor/info/kgeorgiy/ja/eliseev/implementor/utils/MethodUtils.java:168-172 | The keys are the union of both key sets; existing entries win and new keys take their value from the merged map. |
| MethodUtils.InheritedFromInterface | info.kgeorgiy.ja.eliseev.implementor/info/kgeorgiy/ja/eliseev/implementor/utils/MethodUtils.java:233-262 | Picks exactly the members of one superinterface that the type inherits from it. |
| MethodUtils.InheritFromInterfaces | info.kgeorgiy.ja.eliseev.implementor/info/kgeorgiy/ja/eliseev/implementor/utils/MethodUtils.java:176-207 | Collects exactly what the type inherits from all its direct superinterfaces. |
| MethodUtils.InheritedByType | info.kgeorgiy.ja.eliseev.implementor/info/kgeorgiy/ja/eliseev/implementor/utils/MethodUtils.java:174-265 | Computes exactly the set the definition gives the type, in both the interface branch and the class branch. |
| MethodUtils.GetInheritedMethods | info.kgeorgiy.ja.eliseev.implementor/info/kgeorgiy/ja/eliseev/implementor/utils/MethodUtils.java:158-267 | Returns exactly the map of the recursive definition. |
| MethodUtils.FindClass | info.kgeorgiy.ja.eliseev.implementor/info/kgeorgiy/ja/eliseev/implementor/utils/MethodUtils.java:116-122 | Returns the first class holding a method related to `m`, or the count of classes when there is none. |
| MethodUtils.MakeQuotientSet | info.kgeorgiy.ja.eliseev.implementor/info/kgeorgiy/ja/eliseev/implementor/utils/MethodUtils.java:113-128 | The classes partition the methods, and each method of a class of two or more has a related partner in it. When the relation is an equivalence, two methods are related exactly when they share a class. |
| MethodUtils.OverrideEquivalenceReflexiveSymmetric | info.kgeorgiy.ja.eliseev.implementor/info/kgeorgiy/ja/eliseev/implementor/utils/MethodUtils.java:93-98 | The relation used for the partition is reflexive and symmetric. |
| MethodUtils.GetQuotientSetOfMemberMethods | info.kgeorgiy.ja.eliseev.implementor/info/kgeorgiy/ja/eliseev/implementor/utils/MethodUtils.java:93-98 | Partitions the member methods by override-equivalence. The classes are exact when the relation is transitive on them. |
| MethodUtils.Enumerate | info.kgeorgiy.ja.eliseev.implementor/info/kgeorgiy/ja/eliseev/implementor/utils/MethodUtils.java:39-44 | Iterating a set lists each of its methods exactly once. |
| MethodUtils.WithAbstract | info.kgeorgiy.ja.eliseev.implementor/info/kgeorgiy/ja/eliseev/implementor/utils/MethodUtils.java:39-44 | Keeps exactly the classes that hold an abstract method. |
| MethodUtils.SuperclassChainStep | info.kgeorgiy.ja.eliseev.implementor/info/kgeorgiy/ja/eliseev/implementor/utils/MethodUtils.java:55-77 | Each type in the chain is followed by its superclass. The chain ends exactly at the first type that has no superclass. |
| MethodUtils.AnyOverrides | info.kgeorgiy.ja.eliseev.implementor/info/kgeorgiy/ja/eliseev/implementor/utils/MethodUtils.java:65-67 | Answers yes exactly when some method overrides the declaration from some type of the chain so far. |
| MethodUtils.UnoverridableDeclared | info.kgeorgiy.ja.eliseev.implementor/info/kgeorgiy/ja/eliseev/implementor/utils/MethodUtils.java:62-74 | Returns a package-private abstract method of the type that nothing overrides, or `None` when the type declares none. |
| MethodUtils.IsUnoverridable | info.kgeorgiy.ja.eliseev.implementor/info/kgeorgiy/ja/eliseev/implementor/utils/MethodUtils.java:63-67 | Decides exactly whether one declaration is package-private, abstract and never overridden. |
| MethodUtils.UnoverridableAt | info.kgeorgiy.ja.eliseev.implementor/info/kgeorgiy/ja/eliseev/implementor/utils/MethodUtils.java:60-75 | Searches only a superclass in another package, and finds an unoverridable method there exactly when one exists. |
| MethodUtils.CheckOverridable | info.kgeorgiy.ja.eliseev.implementor/info/kgeorgiy/ja/eliseev/implementor/utils/MethodUtils.java:55-77 | Returns `None` exactly when no superclass in another package has an unoverridable method. Otherwise it returns a rejection that names one such method and its owner. |
| MethodUtils.ClassSignature | info.kgeorgiy.ja.eliseev.implementor/info/kgeorgiy/ja/eliseev/implementor/utils/MethodUtils.java:39-44 | Each failure comes with its reason's conditions. A success is the common signature of the class's methods, and then no failure reason holds: no method has a raw parameter type, the chosen return type is not raw, and a reference method exists. |
| MethodUtils.StubSignatures | info.kgeorgiy.ja.eliseev.implementor/info/kgeorgiy/ja/eliseev/implementor/utils/MethodUtils.java:39-44 | On success there is one common signature per class holding an abstract method, and no such class meets any failure reason, so no stub needs a raw type or an unchecked cast. A failure names a class whose enumerated methods fail for that reason. |
| MethodUtils.GetMethodSignatures | info.kgeorgiy.ja.eliseev.implementor/info/kgeorgiy/ja/eliseev/implementor/utils/MethodUtils.java:35-79 | The classes partition the member methods. On success there is one common signature per abstract class, no such class meets any failure reason (no raw types, no unchecked casts), no stub clashes by erasure with a member, and no unoverridable method remains. Each rejection comes with a witness for its reason. |
| ImplementationMethodSignature.IndexOf | info.kgeorgiy.ja.eliseev.implementor/info/kgeorgiy/ja/eliseev/implementor/ImplementationMethodSignature.java:32-42 | Returns the first position of the element, or -1 exactly when it is absent. |
| ImplementationMethodSignature.MostAccessible | info.kgeorgiy.ja.eliseev.implementor/info/kgeorgiy/ja/eliseev/implementor/ImplementationMethodSignature.java:218-221 | Picks a method of the list whose access rank is at most that of every other. |
| ImplementationMethodSignature.CommonAccessModifierAdmitsAll | info.kgeorgiy.ja.eliseev.implementor/info/kgeorgiy/ja/eliseev/implementor/ImplementationMethodSignature.java:218-221 | The common access level is one method's own and at least as accessible as every method's. It is public when any method is public, private only when all are, and package-private only when no method is public or protected. |
| ImplementationMethodSignature.OrderedRank | info.kgeorgiy.ja.eliseev.implementor/info/kgeorgiy/ja/eliseev/implementor/ImplementationMethodSignature.java:32-33 | The order is public, protected, package-private, then private. Any other bit pattern is absent. |
| ImplementationMethodSignature.CommonTypeParameters | info.kgeorgiy.ja.eliseev.implementor/info/kgeorgiy/ja/eliseev/implementor/ImplementationMethodSignature.java:201-208 | Empty exactly when some method is not generic; otherwise the first method's type parameters. |
| ImplementationMethodSignature.NatStrInjective | info.kgeorgiy.ja.eliseev.implementor/info/kgeorgiy/ja/eliseev/implementor/ImplementationMethodSignature.java:121-129 | Distinct numbers have distinct decimal texts, so distinct indices give distinct generated names. |
| ImplementationMethodSignature.NextFreeIndex | info.kgeorgiy.ja.eliseev.implementor/info/kgeorgiy/ja/eliseev/implementor/ImplementationMethodSignature.java:124-126 | Returns the first index from the start whose name `Var<k>` is not forbidden. The loop ends because the forbidden set is finite. |
| ImplementationMethodSignature.FreshTypeParameterNames | info.kgeorgiy.ja.eliseev.implementor/info/kgeorgiy/ja/eliseev/implementor/ImplementationMethodSignature.java:121-129 | Returns the requested number of names, each `Var<k>` and not forbidden, with increasing indices and no two alike. Every free `Var<k>` below a chosen name is chosen earlier, so these are the least free names. |
| ImplementationMethodSignature.FreshNamesDetermined | info.kgeorgiy.ja.eliseev.implementor/info/kgeorgiy/ja/eliseev/implementor/ImplementationMethodSignature.java:121-129 | Two lists of least free names of the same length, for the same forbidden names, are equal: the generated names are determined. |
| ImplementationMethodSignature.GeneratedTypeVariable.constructor | info.kgeorgiy.ja.eliseev.implementor/info/kgeorgiy/ja/eliseev/implementor/ImplementationMethodSignature.java:330-333 | The new variable has the given name and a fresh copy of the given bounds. |
| ImplementationMethodSignature.GeneratedTypeVariable.SetBound | info.kgeorgiy.ja.eliseev.implementor/info/kgeorgiy/ja/eliseev/implementor/ImplementationMethodSignature.java:342-344 | Replaces one bound and leaves the others unchanged. |
| ImplementationMethodSignature.RewrittenBoundCases | info.kgeorgiy.ja.eliseev.implementor/info/kgeorgiy/ja/eliseev/implementor/ImplementationMethodSignature.java:141-151 | A bound equal to reference parameter `k`, and to no earlier one, becomes generated variable `k`. A bound equal to no reference parameter is unchanged. |
| ImplementationMethodSignature.MatchingParameter | info.kgeorgiy.ja.eliseev.implementor/info/kgeorgiy/ja/eliseev/implementor/ImplementationMethodSignature.java:144-149 | Returns the first reference type parameter equal to the bound, or the count when none is. |
| ImplementationMethodSignature.RewriteBoundsOf | info.kgeorgiy.ja.eliseev.implementor/info/kgeorgiy/ja/eliseev/implementor/ImplementationMethodSignature.java:142-150 | The variable's bound array afterwards is its old content with every bound rewritten. |
| ImplementationMethodSignature.RewriteAllBounds | info.kgeorgiy.ja.eliseev.implementor/info/kgeorgiy/ja/eliseev/implementor/ImplementationMethodSignature.java:141-151 | Every generated variable's bounds are rewritten in place. |
| ImplementationMethodSignature.RewrittenBoundsFreeOfReferences | info.kgeorgiy.ja.eliseev.implementor/info/kgeorgiy/ja/eliseev/implementor/ImplementationMethodSignature.java:141-151 | After rewriting, no bound is a bare reference type parameter. |
| ImplementationMethodSignature.IsAssignable | info.kgeorgiy.ja.eliseev.implementor/info/kgeorgiy/ja/eliseev/implementor/ImplementationMethodSignature.java:232-270 | Corrected: a type is assignable to itself, and a variable never accepts a class. Between classes, assignability is exactly subclassing. |
| ImplementationMethodSignature.IsAssignableAsWritten | info.kgeorgiy.ja.eliseev.implementor/info/kgeorgiy/ja/eliseev/implementor/ImplementationMethodSignature.java:232-270 | As written, a type is assignable to itself. |
| ImplementationMethodSignature.GenericArrayLikeArrayClass | info.kgeorgiy.ja.eliseev.implementor/info/kgeorgiy/ja/eliseev/implementor/ImplementationMethodSignature.java:250-256 | Corrected: an array class accepts a generic array of a class exactly as it accepts the array of that class. |
| ImplementationMethodSignature.AsWrittenRejectsObjectArray | info.kgeorgiy.ja.eliseev.implementor/info/kgeorgiy/ja/eliseev/implementor/ImplementationMethodSignature.java:253 | As written, `Object[]` rejects `T[]` for a variable bounded by `Object`; corrected, it accepts it. |
| ImplementationMethodSignature.ReturnChoiceIndex | info.kgeorgiy.ja.eliseev.implementor/info/kgeorgiy/ja/eliseev/implementor/ImplementationMethodSignature.java:156-166 | The held return type is one no later method's return type is assignable to. |
| ImplementationMethodSignature.ChooseReturnType | info.kgeorgiy.ja.eliseev.implementor/info/kgeorgiy/ja/eliseev/implementor/ImplementationMethodSignature.java:156-166 | The loop chooses the return type of the definition, which is some method's own return type. |
| ImplementationMethodSignature.FindReference | info.kgeorgiy.ja.eliseev.implementor/info/kgeorgiy/ja/eliseev/implementor/ImplementationMethodSignature.java:167-177 | Returns the first method with the chosen return type and the common number of type parameters, or `None` exactly when there is none. |
| ImplementationMethodSignature.ChosenMethodIsReference | info.kgeorgiy.ja.eliseev.implementor/info/kgeorgiy/ja/eliseev/implementor/ImplementationMethodSignature.java:156-177 | When all methods have the same number of type parameters, some method can serve as the reference, so the unchecked-cast failure cannot occur. |
| ImplementationMethodSignature.GetCommonMethodSignature | info.kgeorgiy.ja.eliseev.implementor/info/kgeorgiy/ja/eliseev/implementor/ImplementationMethodSignature.java:116-185 | Each failure occurs exactly under its own conditions: no methods, a raw parameter, a raw chosen return type, or no reference method. A success has the common access level and, as type parameters, the least free names `Var<k>` with rewritten bounds. It also has the first method's name and parameters, the chosen return type and the first reference method. |
| ImplementationMethodSignature.NoFailureReason | info.kgeorgiy.ja.eliseev.implementor/info/kgeorgiy/ja/eliseev/implementor/ImplementationMethodSignature.java:116-185 | When the methods are non-empty, none has a raw parameter type, the chosen return type is not raw and a reference method exists, then none of the four failure reasons holds. |
| ImplementationMethodSignature.SignatureWithoutRawParameters | info.kgeorgiy.ja.eliseev.implementor/info/kgeorgiy/ja/eliseev/implementor/ImplementationMethodSignature.java:121-184 | Once no parameter is raw, the outcome is the raw-return failure, the unchecked-cast failure or the common signature (least free names included), each exactly under its conditions. |
| ImplementationMethodSignature.AssembleSignature | info.kgeorgiy.ja.eliseev.implementor/info/kgeorgiy/ja/eliseev/implementor/ImplementationMethodSignature.java:121-184 | Once the return type and the reference are chosen, the result is the common signature, whose type parameters have the least free names `Var<k>`. |
| ImplementationMethodSignature.RenderInStub | info.kgeorgiy.ja.eliseev.implementor/info/kgeorgiy/ja/eliseev/implementor/ImplementationMethodSignature.java:152-155 | The method context aliases the reference type parameters to the generated variables, and the return and parameter types are rendered in it. |
| ImplementationMethodSignature.GenerateTypeVariables | info.kgeorgiy.ja.eliseev.implementor/info/kgeorgiy/ja/eliseev/implementor/ImplementationMethodSignature.java:134-151 | Each generated variable takes its name and the rewritten bounds of the reference type parameter at its position. |
| ImplementationMethodSignature.StubTypeVariables | info.kgeorgiy.ja.eliseev.implementor/info/kgeorgiy/ja/eliseev/implementor/ImplementationMethodSignature.java:121-151 | One variable per reference type parameter, with the least free names `Var<k>` in order and the rewritten bounds. |
| ImplementationMethodSignature.ModifierString | info.kgeorgiy.ja.eliseev.implementor/info/kgeorgiy/ja/eliseev/implementor/ImplementationMethodSignature.java:299 | Gives the keyword of each access level, or nothing for package-private. |
| ImplementationMethodSignature.AliasedSendsToPosition | info.kgeorgiy.ja.eliseev.implementor/info/kgeorgiy/ja/eliseev/implementor/ImplementationMethodSignature.java:152-155 | If the names are distinct, the method context sends each reference type parameter to the generated variable at its position. |
| ImplementationMethodSignature.ReferenceParameterRendersGenerated | info.kgeorgiy.ja.eliseev.implementor/info/kgeorgiy/ja/eliseev/implementor/ImplementationMethodSignature.java:152-155 | In the method context, a reference type parameter prints as the generated variable at its position, wherever it occurs. |
| ImplementationMethodSignature.AsWrittenBoundNamesUndeclaredVariable | info.kgeorgiy.ja.eliseev.implementor/info/kgeorgiy/ja/eliseev/implementor/ImplementationMethodSignature.java:298-305 | For `<T extends Comparable<T>>` the header as written is `<Var0 extends Comparable<T>>`, which names an undeclared `T`. Corrected, it is `<Var0 extends Comparable<Var0>>`. |
| ImplementationMethodSignature.GeneratedBoundShadowed | info.kgeorgiy.ja.eliseev.implementor/info/kgeorgiy/ja/eliseev/implementor/utils/GenericUtils.java:36-58 | Take a generated variable whose name is one of the stub's type parameters and which the context binds to a non-variable type. As written, it prints as that type, because its `getTypeName` is not its name. Corrected, it prints as its own name. |
| ImplementationMethodSignature.GeneratedBoundAgrees | info.kgeorgiy.ja.eliseev.implementor/info/kgeorgiy/ja/eliseev/implementor/utils/GenericUtils.java:36-58 | When the context binds none of the generated names, a bound prints the same as written and corrected. |
| ImplementationMethodSignature.GeneratedParametersAgree | info.kgeorgiy.ja.eliseev.implementor/info/kgeorgiy/ja/eliseev/implementor/utils/GenericUtils.java:375-404 | When the context binds none of the generated names, the type-parameter list as written is the corrected `typeParametersToString`. |
| ImplementationMethodSignature.AsWrittenBoundTakesContextBinding | info.kgeorgiy.ja.eliseev.implementor/info/kgeorgiy/ja/eliseev/implementor/ImplementationMethodSignature.java:298-305 | Take `interface I<Var0> { <T, U extends T> void f(); }` with `Var0` bound to `String`. As written the header declares `<Var0, Var1 extends java.lang.String>`; corrected it declares `<Var0, Var1 extends Var0>`. |
| ImplementationMethodSignature.BoundRendering | info.kgeorgiy.ja.eliseev.implementor/info/kgeorgiy/ja/eliseev/implementor/ImplementationMethodSignature.java:298-305 | A stub whose generated variable is bounded by `Comparable<T>` prints its type-parameter list with `T` rendered in the given context. |

## Left out

- Reflection itself (`getDeclaredMethods`, `getGenericInterfaces`, `getBounds`, `isAssignableFrom`, package names) is abstracted into the `JavaTypes` tables. Annotations, `getGenericDeclaration` and the other `TypeVariable` methods of `GeneratedTypeVariable` are not modelled; only its name, bounds and `setBound` are.
- The iteration order of a `HashSet` is left open. Sets of methods are iterated in an order chosen by the model (`Enumerate`, `:|`). `findAny` is the first method of that order, so the signature contracts hold for every order.
- `makeQuotientSet` keeps its classes in insertion order (a `seq` of sets); the source's `Set<Set<Method>>` has no order.
- The `null` key that `getInheritedMethods` puts for an interface's missing superclass is dropped, since no caller reads it. `getAllMethods(null)` is the empty set, and the model has no `null` type.
- MethodUtils.OverridesFrom: the recursion of `isOverridingDeclarationFrom` through another method with the same `from` (info.kgeorgiy.ja.eliseev.implementor/info/kgeorgiy/ja/eliseev/implementor/utils/MethodUtils.java:370-374) has no decreasing measure in the source, and can recurse without end (see Findings). A `fuel` parameter bounds it, and an exhausted bound reads as "does not override"; the other recursive calls consume no fuel. The candidate test is a conjunction without order, so a candidate that does not itself override the target from the superclass is rejected without asking the first question; Java asks the first question first. `OverridesFromAsWritten` keeps Java's order.
- ImplementationMethodSignature.ChooseReturnType, ImplementationMethodSignature.GetCommonMethodSignature, GenericUtils.IsSameSignature, GenericUtils.SubSignature, MethodUtils.Clash and MethodUtils.GetMethodSignatures follow the corrected rendering, erasure and assignability (`Render`, `Erase`, `IsAssignable`) of the Findings, not the source as written. On the inputs of those rows the source recurses without end or gives other text, types or answers.
- The subsignature test and the per-type step of `getInheritedMethods` are passed to the inheritance definitions as function values. `SubSignatureOf` and `OwnStepOf` are the instances the engine uses.
- Access bits that match no entry of `ORDERED_ACCESS_MODIFIERS` get rank -1, as `indexOf` gives; such bits cannot come from reflection.
- The `AssertionError("Unreachable")` branches of `getTypeErasure` (wildcard) and `isAssignable` are not modelled as errors: a wildcard erases to `Object`, and the types make the other branch impossible.
- `ImplerException` messages are modelled as values: `Failure` for `getCommonMethodSignature` and `Rejection` for `getMethodSignatures`; the message text is not modelled.
- In `getCommonMethodSignature` the source creates the generated type variables before it chooses the return type. The model creates them after the return-type checks; the difference cannot be observed, since a failure discards them.
- ImplementationMethodSignature.IsAssignableAsWritten: its contract states only reflexivity. Its other cases are stated through `AsWrittenRejectsObjectArray`, which exhibits the finding below.
- The `Signature` value also stores the method context used to render the return and parameter types, so that the corrected `toString` can use it. The source keeps only the declaring type's context.
- String formatting is modelled as `seq<char>` concatenation. `Modifier.toString` is modelled for the access bits only, the only bits the signature holds.
- `Implementor` (file output, compilation, jar packaging) and `IOUtils` are not part of this model.
- OverridingCycle.H3AllMethods: the hierarchy of the overriding-cycle finding gives `java.lang.Object` no methods. Each of Object's methods has a different name from `f`, so the inner loop of `isOverridingDeclarationFrom` rejects it at its first test, before any recursion.

## Findings

| source | as written | input that shows it | evidently intended | confidence | as-written member | corrected member |
|---|---|---|---|---|---|---|
| info.kgeorgiy.ja.eliseev.implementor/info/kgeorgiy/ja/eliseev/implementor/utils/GenericUtils.java:50-60 | A context replacement that is not a type variable is rendered again in the same context. | `abstract class A<T> implements Comparable<java.util.List<T>>`: Comparable's `T` maps to `List<T>`, so rendering `compareTo`'s parameter recurses without end. With `interface I<T, U>` and `abstract class A<U> implements I<java.util.List<U>, String>`, rendering I's `T` ends but gives `java.util.List<java.lang.String>` (`RenderAsWrittenResubstitutes`). | Substitute the replacement once, as the comment at line 53 says. The parameter renders as `java.util.List<T>`, and I's `T` as `java.util.List<U>`. | not executed | GenericUtils.RenderAsWrittenDiverges | GenericUtils.RenderSubstitutesOnce |
| info.kgeorgiy.ja.eliseev.implementor/info/kgeorgiy/ja/eliseev/implementor/utils/GenericUtils.java:99-107 | A replacement is erased again in the same context. | `abstract class A<T> implements Comparable<T[]>`: Comparable's `T` maps to `T[]`, so erasing `compareTo`'s parameter recurses without end. | Erase the replacement once, which gives `Object[]`. | not executed | GenericUtils.EraseAsWrittenDiverges | GenericUtils.EraseSubstitutesOnce |
| info.kgeorgiy.ja.eliseev.implementor/info/kgeorgiy/ja/eliseev/implementor/ImplementationMethodSignature.java:253 | A class target meets a generic array through `clazz.arrayType()`, the array of the array class. | `isAssignable(Object[].class, T[])` for `T` bounded by `Object` is false, although `Object[]` accepts `T[]`. | Compare the generic component with `clazz.getComponentType()`, as the symmetric case at line 240 does. | not executed | ImplementationMethodSignature.AsWrittenRejectsObjectArray | ImplementationMethodSignature.GenericArrayLikeArrayClass |
| info.kgeorgiy.ja.eliseev.implementor/info/kgeorgiy/ja/eliseev/implementor/ImplementationMethodSignature.java:299-300 | `toString` renders the generated variables' bounds in the declaring type's context. That context does not rename the reference method's type parameters. | A method `<T extends Comparable<T>> void m(T t)`: the rewritten bound `Comparable<T>` prints as `<Var0 extends Comparable<T>>`, naming an undeclared `T`. | Render the bounds in the method context, as the return and parameter types are: `<Var0 extends Comparable<Var0>>`. | not executed | ImplementationMethodSignature.AsWrittenBoundNamesUndeclaredVariable | ImplementationMethodSignature.ReferenceParameterRendersGenerated |
| info.kgeorgiy.ja.eliseev.implementor/info/kgeorgiy/ja/eliseev/implementor/utils/MethodUtils.java:363-380 | The walk over superclasses asks whether `overriding` overrides another method `m` from the same `from`, before asking whether `m` overrides `overridden` from the superclass. That question can ask the first one again. | `package p1; public abstract class A { abstract Object f(); }`, `package p2; public abstract class B extends A { abstract Object f(); }`, `package p3; public abstract class C extends B { Object f() { return null; } }`. Whether `C.f` overrides `B.f` from `C` asks whether `C.f` overrides `A.f` from `C`, which asks the first question again: the stack overflows. | Answer no: neither `A.f` nor `B.f` can be overridden outside its package, so `C` cannot be implemented and is rejected. | not executed | OverridingCycle.OverridingCycleAsWritten | OverridingCycle.OverridingCycleUnoverridable |
| info.kgeorgiy.ja.eliseev.implementor/info/kgeorgiy/ja/eliseev/implementor/utils/GenericUtils.java:36-37 | A type whose `getTypeName` is in `ignore` prints as that name. A generated variable does not override `getTypeName` (ImplementationMethodSignature.java:312-385), so it is never shielded by the type-parameter names. When a supertype binds a name such as `Var0`, a bound that is the stub's own `Var0` prints as the supertype's argument. | `interface I<Var0> { <T, U extends T> void f(); }` and `abstract class A implements I<String>`: the header declares `<Var0, Var1 extends java.lang.String>`, although `Var1` is bounded by the stub's `Var0`. | Let the type-parameter names shield the generated variables too: `<Var0, Var1 extends Var0>`. | not executed | ImplementationMethodSignature.AsWrittenBoundTakesContextBinding | ImplementationMethodSignature.GeneratedBoundShadowed |
