/**
 * Members, inheritance and overriding of methods (sections 8.4.8 and 9.4.1 of the Java
 * Language Specification) as the engine decides them, the greedy partition of a type's
 * member methods into override-equivalence classes, and the checks that decide whether a
 * concrete subclass can be generated at all.
 */
module MethodUtils {
  import opened JavaTypes
  import opened Contexts
  import opened GenericUtils
  import Sig = ImplementationMethodSignature

  /** What `getInheritedMethods` returns: for each type reached, the methods it inherits. */
  type InheritedMap = map<ClassId, set<Method>>

  // ---------------------------------------------------------------- access

  /** `isPackagePrivate`: none of private, public, protected. */
  predicate IsPackagePrivate(mods: bv32) {
    !(IsPrivate(mods) || IsPublic(mods) || IsProtected(mods))
  }

  lemma PackagePrivateIffNoAccessBits(mods: bv32)
    ensures IsPackagePrivate(mods) <==> mods & ACCESS_MODIFIERS == 0
  {
  }

  /**
   * `isAccessibleFrom`: public or protected; package-private and declared in the token's
   * package; or private and declared in the token itself.
   */
  predicate IsAccessibleFrom(h: Hierarchy, m: Method, token: ClassId) {
    || IsPublic(m.modifiers)
    || IsProtected(m.modifiers)
    || (IsPackagePrivate(m.modifiers) && PackageOf(h, m.declaring) == PackageOf(h, token))
    || (IsPrivate(m.modifiers) && m.declaring == token)
  }

  /** Every method is accessible from the type that declares it, whatever its access level. */
  lemma AccessibleFromDeclaringType(h: Hierarchy, m: Method)
    ensures IsAccessibleFrom(h, m, m.declaring)
  {
  }

  /** A private method (with no other access bit) is accessible from its declaring type only. */
  lemma PrivateOnlyFromDeclaringType(h: Hierarchy, m: Method, token: ClassId)
    requires IsPrivate(m.modifiers) && !IsPublic(m.modifiers) && !IsProtected(m.modifiers)
    ensures IsAccessibleFrom(h, m, token) <==> token == m.declaring
  {
  }

  // ---------------------------------------------------------------- members

  /** `inheritedMethodsMap.get(token)`, read as empty where the map has no entry. */
  function InheritedOf(inh: InheritedMap, c: ClassId): set<Method> {
    if c in inh then inh[c] else {}
  }

  /** `getMemberMethods`: the declared methods and the inherited ones. */
  function Members(h: Hierarchy, inh: InheritedMap, c: ClassId): set<Method> {
    DeclaredSet(h, c) + InheritedOf(inh, c)
  }

  /** `getAllMethods`: the methods declared in the type and in everything above it. */
  function AllMethods(h: Hierarchy, c: ClassId): set<Method>
    requires Wf(h)
    decreases c
  {
    SuperIdsBelow(h, c);
    DeclaredSet(h, c) + set s, m | s in SuperIds(h, c) && m in AllMethods(h, s) :: m
  }

  /** A method is collected by `getAllMethods` exactly when some ancestor (or the type) declares it. */
  lemma AllMethodsDeclaredAbove(h: Hierarchy, c: ClassId, m: Method)
    requires Wf(h)
    ensures m in AllMethods(h, c) <==> exists a :: a in AncestorsOrSelf(h, c) && m in Declared(h, a)
  {
    if m in AllMethods(h, c) {
      var a := CollectedIsDeclaredAbove(h, c, m);
    }
    if exists a :: a in AncestorsOrSelf(h, c) && m in Declared(h, a) {
      var a :| a in AncestorsOrSelf(h, c) && m in Declared(h, a);
      DeclaredAboveIsCollected(h, c, a, m);
    }
  }

  /** The ancestor (or the type) that declares a method `getAllMethods` collected. */
  lemma {:induction false} CollectedIsDeclaredAbove(h: Hierarchy, c: ClassId, m: Method) returns (a: ClassId)
    requires Wf(h) && m in AllMethods(h, c)
    ensures a in AncestorsOrSelf(h, c) && m in Declared(h, a)
    decreases c
  {
    SuperIdsBelow(h, c);
    if m in Declared(h, c) {
      a := c;
    } else {
      var s :| s in SuperIds(h, c) && m in AllMethods(h, s);
      a := CollectedIsDeclaredAbove(h, s, m);
    }
  }

  /** A method declared in an ancestor (or the type) is collected by `getAllMethods`. */
  lemma {:induction false} DeclaredAboveIsCollected(h: Hierarchy, c: ClassId, a: ClassId, m: Method)
    requires Wf(h) && a in AncestorsOrSelf(h, c) && m in Declared(h, a)
    ensures m in AllMethods(h, c)
    decreases c
  {
    SuperIdsBelow(h, c);
    if a != c {
      var s :| s in SuperIds(h, c) && a in AncestorsOrSelf(h, s);
      DeclaredAboveIsCollected(h, s, a, m);
    }
  }

  // ---------------------------------------------------------------- isOverridingDeclarationFrom

  /**
   * `isOverridingDeclarationFrom(overriding, overridden, from)`: whether `overriding`
   * overrides, from the type `from`, the declaration of `overridden` (sections 8.4.8.1 and
   * 9.4.1.1). Package-private declarations are decided by walking up from `from`'s
   * superclass. That walk asks the same question for the same `from` and another
   * overridden method; `fuel` bounds the depth of such questions and reads an exhausted
   * bound as "does not override".
   */
  predicate OverridesFrom(h: Hierarchy, sub: (Method, Method) -> bool, inh: InheritedMap, all: set<Method>,
                          overriding: Method, overridden: Method, from: ClassId, fuel: nat)
    requires Wf(h)
    decreases fuel, from, 1, 0
  {
    if from == ObjectId || IsPrimitive(h, from) then false
    else if from == overridden.declaring then false
    else if overriding !in Members(h, inh, from) || IsStatic(overriding)
            || !ClassAssignable(h, Named(overridden.declaring), Named(from))
            || !sub(overriding, overridden) then false
    else if IsInterface(h, overridden.declaring) then
      IsInterface(h, from) || overridden.isDefault || IsAbstract(overridden)
    else if IsInterface(h, from) then false
    else if overridden in InheritedOf(inh, from) then false
    else if IsPublic(overridden.modifiers) || IsProtected(overridden.modifiers) then true
    else if IsPrivate(overridden.modifiers) then false
    else if PackageOf(h, overridden.declaring) == PackageOf(h, from)
            && (overriding.declaring == from
                || (SuperclassOf(h, from).Some? && overridden in Members(h, inh, SuperclassOf(h, from).value)))
    then true
    else
      SuperclassBelow(h, from);
      OverridesViaSuperclasses(h, sub, inh, all, overriding, overridden, from, SuperclassOf(h, from), fuel)
  }

  /**
   * The `while` loop of the package-access case: from `superclass` upwards, either
   * `overriding` overrides `overridden` from there, or it overrides from `from` some other
   * method that itself overrides `overridden` from there.
   */
  predicate OverridesViaSuperclasses(h: Hierarchy, sub: (Method, Method) -> bool, inh: InheritedMap, all: set<Method>,
                                     overriding: Method, overridden: Method, from: ClassId,
                                     superclass: Option<ClassId>, fuel: nat)
    requires Wf(h)
    requires superclass.Some? ==> superclass.value < from
    decreases fuel, from, 0, if superclass.Some? then superclass.value + 1 else 0
  {
    if superclass.None? then false
    else
      var s := superclass.value;
      || OverridesFrom(h, sub, inh, all, overriding, overridden, s, fuel)
      || (exists m :: m in all && Bridges(h, sub, inh, all, overriding, overridden, m, from, s, fuel))
      || (SuperclassBelow(h, s);
          OverridesViaSuperclasses(h, sub, inh, all, overriding, overridden, from, SuperclassOf(h, s), fuel))
  }

  /** The inner loop's test for one candidate `m` between `overriding` and `overridden`. */
  predicate Bridges(h: Hierarchy, sub: (Method, Method) -> bool, inh: InheritedMap, all: set<Method>,
                    overriding: Method, overridden: Method, m: Method, from: ClassId, superclass: ClassId, fuel: nat)
    requires Wf(h) && superclass < from
    decreases fuel, from, 0, superclass
  {
    && m != overridden
    && m != overriding
    && fuel > 0
    && OverridesFrom(h, sub, inh, all, overriding, m, from, fuel - 1)
    && OverridesFrom(h, sub, inh, all, m, overridden, superclass, fuel)
  }

  lemma SuperclassBelow(h: Hierarchy, c: ClassId)
    requires Wf(h)
    ensures SuperclassOf(h, c).Some? ==> SuperclassOf(h, c).value < c
  {
    if c < |h.classes| {
      assert WfClass(h, c);
    }
  }
  /**
   * Whether `isOverridingDeclarationFrom` gets past all of its tests to the `while` loop of
   * the package-access case.
   */
  predicate ReachesWalk(h: Hierarchy, sub: (Method, Method) -> bool, inh: InheritedMap,
                        overriding: Method, overridden: Method, from: ClassId)
    requires Wf(h)
  {
    && from != ObjectId && !IsPrimitive(h, from)
    && from != overridden.declaring
    && overriding in Members(h, inh, from) && !IsStatic(overriding)
    && ClassAssignable(h, Named(overridden.declaring), Named(from))
    && sub(overriding, overridden)
    && !IsInterface(h, overridden.declaring) && !IsInterface(h, from)
    && overridden !in InheritedOf(inh, from)
    && IsPackagePrivate(overridden.modifiers)
    && !(PackageOf(h, overridden.declaring) == PackageOf(h, from)
         && (overriding.declaring == from
             || (SuperclassOf(h, from).Some? && overridden in Members(h, inh, SuperclassOf(h, from).value))))
  }

  /**
   * `isOverridingDeclarationFrom` as written, with `all` in the order the loop visits it and
   * the calls made in Java's order: the inner loop asks `overriding` against the candidate
   * from `from` first and stops at the first answer yes. The answer before the loop is the
   * one `OverridesFrom` gives, which reads neither `all` nor the fuel. `fuel` bounds the
   * depth of nested loops; `None` means it ran out, where the source recurses without end.
   */
  function OverridesFromAsWritten(h: Hierarchy, sub: (Method, Method) -> bool, inh: InheritedMap, all: seq<Method>,
                                  overriding: Method, overridden: Method, from: ClassId, fuel: nat): Option<bool>
    requires Wf(h)
    decreases fuel, 0, 0
  {
    if !ReachesWalk(h, sub, inh, overriding, overridden, from) then
      Some(OverridesFrom(h, sub, inh, {}, overriding, overridden, from, 0))
    else if fuel == 0 then None
    else
      SuperclassBelow(h, from);
      WalkAsWritten(h, sub, inh, all, overriding, overridden, from, SuperclassOf(h, from), fuel - 1)
  }

  /** The `while` loop as written, from `superclass` upwards. */
  function WalkAsWritten(h: Hierarchy, sub: (Method, Method) -> bool, inh: InheritedMap, all: seq<Method>,
                         overriding: Method, overridden: Method, from: ClassId, superclass: Option<ClassId>,
                         fuel: nat): Option<bool>
    requires Wf(h)
    decreases fuel, 2, if superclass.Some? then superclass.value + 1 else 0
  {
    if superclass.None? then Some(false)
    else
      var s := superclass.value;
      var direct := OverridesFromAsWritten(h, sub, inh, all, overriding, overridden, s, fuel);
      if direct != Some(false) then direct
      else
        var bridged := BridgeLoopAsWritten(h, sub, inh, all, overriding, overridden, from, s, 0, fuel);
        if bridged != Some(false) then bridged
        else
          SuperclassBelow(h, s);
          WalkAsWritten(h, sub, inh, all, overriding, overridden, from, SuperclassOf(h, s), fuel)
  }

  /** The inner `for` loop as written, from the `j`-th method of `all` on. */
  function BridgeLoopAsWritten(h: Hierarchy, sub: (Method, Method) -> bool, inh: InheritedMap, all: seq<Method>,
                               overriding: Method, overridden: Method, from: ClassId, superclass: ClassId,
                               j: nat, fuel: nat): Option<bool>
    requires Wf(h) && j <= |all|
    decreases fuel, 1, |all| - j
  {
    if j == |all| then Some(false)
    else
      var m := all[j];
      if m == overridden || m == overriding then
        BridgeLoopAsWritten(h, sub, inh, all, overriding, overridden, from, superclass, j + 1, fuel)
      else
        var first := OverridesFromAsWritten(h, sub, inh, all, overriding, m, from, fuel);
        if first.None? then None
        else if !first.value then
          BridgeLoopAsWritten(h, sub, inh, all, overriding, overridden, from, superclass, j + 1, fuel)
        else
          var second := OverridesFromAsWritten(h, sub, inh, all, m, overridden, superclass, fuel);
          if second != Some(false) then second
          else BridgeLoopAsWritten(h, sub, inh, all, overriding, overridden, from, superclass, j + 1, fuel)
  }

  /**
   * As written, a question that reaches the walk gets no answer when the first superclass
   * does not answer yes directly and the inner loop there gets no answer.
   */
  lemma WalkAsWrittenStuck(h: Hierarchy, sub: (Method, Method) -> bool, inh: InheritedMap, all: seq<Method>,
                           overriding: Method, overridden: Method, from: ClassId, s: ClassId, fuel: nat)
    requires Wf(h) && ReachesWalk(h, sub, inh, overriding, overridden, from)
    requires fuel > 0 && SuperclassOf(h, from) == Some(s)
    requires OverridesFromAsWritten(h, sub, inh, all, overriding, overridden, s, fuel - 1) == Some(false)
    requires BridgeLoopAsWritten(h, sub, inh, all, overriding, overridden, from, s, 0, fuel - 1).None?
    ensures OverridesFromAsWritten(h, sub, inh, all, overriding, overridden, from, fuel).None?
  {
  }

  /**
   * The inner loop as written never finishes when it reaches a candidate and the first
   * question about every candidate it reaches never finishes either.
   */
  lemma {:induction false} BridgeLoopAsWrittenStuck(h: Hierarchy, sub: (Method, Method) -> bool, inh: InheritedMap,
                                                    all: seq<Method>, overriding: Method, overridden: Method,
                                                    from: ClassId, superclass: ClassId, j: nat, fuel: nat)
    requires Wf(h) && j <= |all|
    requires exists k :: j <= k < |all| && all[k] != overridden && all[k] != overriding
    requires forall k :: j <= k < |all| && all[k] != overridden && all[k] != overriding
                         ==> OverridesFromAsWritten(h, sub, inh, all, overriding, all[k], from, fuel).None?
    ensures BridgeLoopAsWritten(h, sub, inh, all, overriding, overridden, from, superclass, j, fuel).None?
    decreases |all| - j
  {
    if all[j] == overridden || all[j] == overriding {
      BridgeLoopAsWrittenStuck(h, sub, inh, all, overriding, overridden, from, superclass, j + 1, fuel);
    }
  }

  /** What the first tests of `isOverridingDeclarationFrom` establish whenever it answers yes. */
  lemma OverridesFromRequiresMembership(h: Hierarchy, sub: (Method, Method) -> bool, inh: InheritedMap, all: set<Method>,
                                        overriding: Method, overridden: Method, from: ClassId, fuel: nat)
    requires Wf(h)
    requires OverridesFrom(h, sub, inh, all, overriding, overridden, from, fuel)
    ensures from != ObjectId && !IsPrimitive(h, from) && from != overridden.declaring
    ensures overriding in Members(h, inh, from) && !IsStatic(overriding)
    ensures ClassAssignable(h, Named(overridden.declaring), Named(from))
    ensures sub(overriding, overridden)
    ensures IsInterface(h, from) && !IsInterface(h, overridden.declaring) ==> false
    ensures !IsInterface(h, overridden.declaring) ==> !IsPrivate(overridden.modifiers) || IsPublic(overridden.modifiers) || IsProtected(overridden.modifiers)
  {
  }

  /** `isOverridingDeclarationFrom`, with its `while` loop over the superclasses of `from`. */
  method IsOverridingDeclarationFrom(h: Hierarchy, sub: (Method, Method) -> bool, inh: InheritedMap, all: set<Method>,
                                     overriding: Method, overridden: Method, from: ClassId, fuel: nat)
    returns (overrides: bool)
    requires Wf(h)
    ensures overrides == OverridesFrom(h, sub, inh, all, overriding, overridden, from, fuel)
    decreases fuel, from, 1, 0
  {
    if from == ObjectId || IsPrimitive(h, from) {
      return false;
    }
    var declaring := overridden.declaring;
    if from == declaring {
      return false;
    }
    if overriding !in Members(h, inh, from) || IsStatic(overriding)
       || !ClassAssignable(h, Named(declaring), Named(from)) || !sub(overriding, overridden) {
      return false;
    } else if IsInterface(h, declaring) {
      if IsInterface(h, from) {
        return true;
      } else {
        return overridden.isDefault || IsAbstract(overridden);
      }
    } else if IsInterface(h, from) {
      return false;
    } else if overridden in InheritedOf(inh, from) {
      return false;
    } else if IsPublic(overridden.modifiers) || IsProtected(overridden.modifiers) {
      return true;
    } else if IsPrivate(overridden.modifiers) {
      return false;
    } else if PackageOf(h, declaring) == PackageOf(h, from)
              && (overriding.declaring == from
                  || (SuperclassOf(h, from).Some? && overridden in Members(h, inh, SuperclassOf(h, from).value))) {
      return true;
    }
    SuperclassBelow(h, from);
    var superclass := SuperclassOf(h, from);
    while superclass.Some?
      invariant superclass.Some? ==> superclass.value < from
      invariant OverridesFrom(h, sub, inh, all, overriding, overridden, from, fuel)
                == OverridesViaSuperclasses(h, sub, inh, all, overriding, overridden, from, superclass, fuel)
      decreases if superclass.Some? then superclass.value + 1 else 0
    {
      var s := superclass.value;
      var direct := IsOverridingDeclarationFrom(h, sub, inh, all, overriding, overridden, s, fuel);
      if direct {
        return true;
      }
      var bridged := AnyBridge(h, sub, inh, all, overriding, overridden, from, s, fuel);
      if bridged {
        return true;
      }
      SuperclassBelow(h, s);
      superclass := SuperclassOf(h, s);
    }
    return false;
  }

  /** The `for` loop over all methods inside the `while` loop of `isOverridingDeclarationFrom`. */
  method AnyBridge(h: Hierarchy, sub: (Method, Method) -> bool, inh: InheritedMap, all: set<Method>,
                   overriding: Method, overridden: Method, from: ClassId, superclass: ClassId, fuel: nat)
    returns (found: bool)
    requires Wf(h) && superclass < from
    ensures found == exists m :: m in all
                                 && Bridges(h, sub, inh, all, overriding, overridden, m, from, superclass, fuel)
    decreases fuel, from, 0, superclass, 1
  {
    var rest := all;
    while rest != {}
      invariant rest <= all
      invariant forall m :: m in all && m !in rest ==> !Bridges(h, sub, inh, all, overriding, overridden, m, from, superclass, fuel)
      decreases rest
    {
      var m :| m in rest;
      var bridge := BridgesVia(h, sub, inh, all, overriding, overridden, m, from, superclass, fuel);
      if bridge {
        return true;
      }
      rest := rest - {m};
    }
    return false;
  }

  /** One iteration of that loop: whether `m` bridges `overriding` and `overridden`. */
  method BridgesVia(h: Hierarchy, sub: (Method, Method) -> bool, inh: InheritedMap, all: set<Method>,
                    overriding: Method, overridden: Method, m: Method, from: ClassId, superclass: ClassId, fuel: nat)
    returns (bridge: bool)
    requires Wf(h) && superclass < from
    ensures bridge == Bridges(h, sub, inh, all, overriding, overridden, m, from, superclass, fuel)
    decreases fuel, from, 0, superclass, 0
  {
    bridge := false;
    if m != overridden && m != overriding && fuel > 0 {
      var first := IsOverridingDeclarationFrom(h, sub, inh, all, overriding, m, from, fuel - 1);
      if first {
        bridge := IsOverridingDeclarationFrom(h, sub, inh, all, m, overridden, superclass, fuel);
      }
    }
  }

  // ---------------------------------------------------------------- getInheritedMethods

  /** `noneMatch(method -> isSubSignature(method, m, contexts))` over `ms`. */
  predicate NoneSubSignature(h: Hierarchy, sub: (Method, Method) -> bool, ms: set<Method>, m: Method)
    requires Wf(h)
  {
    forall d :: d in ms ==> !sub(d, m)
  }

  /**
   * No member of a direct supertype `o` of the inheriting type, other than the one `m` is
   * taken from, overrides `m` from `o`.
   */
  predicate NoOtherOverrides(h: Hierarchy, sub: (Method, Method) -> bool, inh: InheritedMap, all: set<Method>,
                             others: seq<ClassId>, from: ClassId, m: Method, fuel: nat)
    requires Wf(h)
  {
    forall o, k :: o in others && o != from && k in Members(h, inh, o) ==> !OverridesFrom(h, sub, inh, all, k, m, o, fuel)
  }

  /**
   * Whether `c` inherits `m`, a member of its direct superinterface `iface`: `m` is abstract
   * or default, nothing declared in `c` and no concrete method `c` inherits has a
   * subsignature of it, and no member of another direct supertype overrides it.
   */
  predicate InheritsFromInterface(h: Hierarchy, sub: (Method, Method) -> bool, inh: InheritedMap, all: set<Method>,
                                  c: ClassId, others: seq<ClassId>, concrete: set<Method>,
                                  iface: ClassId, m: Method, fuel: nat)
    requires Wf(h)
  {
    && (m.isDefault || IsAbstract(m))
    && NoneSubSignature(h, sub, DeclaredSet(h, c), m)
    && NoneSubSignature(h, sub, concrete, m)
    && NoOtherOverrides(h, sub, inh, all, others, iface, m, fuel)
  }

  /** The members of the direct superinterface `iface` that `c` inherits from it. */
  function PassedOn(h: Hierarchy, sub: (Method, Method) -> bool, inh: InheritedMap, all: set<Method>,
                    c: ClassId, others: seq<ClassId>, concrete: set<Method>, iface: ClassId, fuel: nat): set<Method>
    requires Wf(h)
  {
    set m | m in Members(h, inh, iface) && InheritsFromInterface(h, sub, inh, all, c, others, concrete, iface, m, fuel)
  }

  /** For each direct superinterface of `c`, the members `c` inherits from it. */
  function PassedOnSets(h: Hierarchy, sub: (Method, Method) -> bool, inh: InheritedMap, all: set<Method>,
                        c: ClassId, others: seq<ClassId>, concrete: set<Method>, fuel: nat): (r: seq<set<Method>>)
    requires Wf(h)
    ensures |r| == |InterfacesOf(h, c)|
    ensures forall i :: 0 <= i < |r| ==> r[i] == PassedOn(h, sub, inh, all, c, others, concrete, InterfacesOf(h, c)[i], fuel)
  {
    var ifaces := InterfacesOf(h, c);
    seq(|ifaces|, i requires 0 <= i < |ifaces| => PassedOn(h, sub, inh, all, c, others, concrete, ifaces[i], fuel))
  }

  /** The methods `c` inherits from the first `n` of its direct superinterfaces. */
  function FromInterfaces(h: Hierarchy, sub: (Method, Method) -> bool, inh: InheritedMap, all: set<Method>,
                          c: ClassId, others: seq<ClassId>, concrete: set<Method>, n: nat, fuel: nat): set<Method>
    requires Wf(h) && n <= |InterfacesOf(h, c)|
  {
    UnionOf(PassedOnSets(h, sub, inh, all, c, others, concrete, fuel), n)
  }

  /**
   * A method comes from the superinterfaces exactly when one of the first `n` of them has it
   * as a member and passes it on to `c`.
   */
  lemma FromInterfacesMembers(h: Hierarchy, sub: (Method, Method) -> bool, inh: InheritedMap, all: set<Method>,
                              c: ClassId, others: seq<ClassId>, concrete: set<Method>, n: nat, fuel: nat)
    requires Wf(h) && n <= |InterfacesOf(h, c)|
    ensures forall m :: m in FromInterfaces(h, sub, inh, all, c, others, concrete, n, fuel)
                        ==> exists i :: 0 <= i < n && m in Members(h, inh, InterfacesOf(h, c)[i])
                                        && InheritsFromInterface(h, sub, inh, all, c, others, concrete, InterfacesOf(h, c)[i], m, fuel)
    ensures forall i, m :: (0 <= i < n && m in Members(h, inh, InterfacesOf(h, c)[i])
                            && InheritsFromInterface(h, sub, inh, all, c, others, concrete, InterfacesOf(h, c)[i], m, fuel))
                           ==> m in FromInterfaces(h, sub, inh, all, c, others, concrete, n, fuel)
  {
    var sets := PassedOnSets(h, sub, inh, all, c, others, concrete, fuel);
    UnionOfMembers(sets, n);
    forall m | m in FromInterfaces(h, sub, inh, all, c, others, concrete, n, fuel)
      ensures exists i :: 0 <= i < n && m in Members(h, inh, InterfacesOf(h, c)[i])
                          && InheritsFromInterface(h, sub, inh, all, c, others, concrete, InterfacesOf(h, c)[i], m, fuel)
    {
      var i :| 0 <= i < n && m in sets[i];
      assert m in PassedOn(h, sub, inh, all, c, others, concrete, InterfacesOf(h, c)[i], fuel);
    }
    forall i, m | 0 <= i < n && m in Members(h, inh, InterfacesOf(h, c)[i])
                  && InheritsFromInterface(h, sub, inh, all, c, others, concrete, InterfacesOf(h, c)[i], m, fuel)
      ensures m in FromInterfaces(h, sub, inh, all, c, others, concrete, n, fuel)
    {
      assert m in sets[i];
    }
  }

  /** The concrete members of the superclass that `c` inherits: accessible and not redeclared. */
  function ConcreteInherited(h: Hierarchy, sub: (Method, Method) -> bool, c: ClassId, superMembers: set<Method>): set<Method>
    requires Wf(h)
  {
    set m | m in superMembers && !IsAbstract(m) && IsAccessibleFrom(h, m, c)
                             && NoneSubSignature(h, sub, DeclaredSet(h, c), m)
  }

  /** The abstract members of the superclass that `c` inherits: also not implemented by an inherited concrete one. */
  function AbstractInherited(h: Hierarchy, sub: (Method, Method) -> bool, c: ClassId, superMembers: set<Method>,
                             concrete: set<Method>): set<Method>
    requires Wf(h)
  {
    set m | m in superMembers && IsAbstract(m) && IsAccessibleFrom(h, m, c)
                             && NoneSubSignature(h, sub, DeclaredSet(h, c), m) && NoneSubSignature(h, sub, concrete, m)
  }

  /** The members of the superclass of `c` (none when it has no superclass). */
  function SuperMembers(h: Hierarchy, inh: InheritedMap, c: ClassId): set<Method> {
    if SuperclassOf(h, c).Some? then Members(h, inh, SuperclassOf(h, c).value) else {}
  }

  /** The direct supertypes an overrider of an interface member may come from: the superclass, then the interfaces. */
  function ClassOthers(h: Hierarchy, c: ClassId): seq<ClassId> {
    (if SuperclassOf(h, c).Some? then [SuperclassOf(h, c).value] else []) + InterfacesOf(h, c)
  }

  /**
   * The set `getInheritedMethods` stores for `c` itself, computed from the map `inh` built
   * for its supertypes (sections 8.4.8 and 9.4.1 of the Java Language Specification).
   */
  function OwnInherited(h: Hierarchy, sub: (Method, Method) -> bool, all: set<Method>, c: ClassId,
                        inh: InheritedMap, fuel: nat): set<Method>
    requires Wf(h)
  {
    var n := |InterfacesOf(h, c)|;
    if IsInterface(h, c) then
      FromInterfaces(h, sub, inh, all, c, InterfacesOf(h, c), {}, n, fuel)
    else
      var superMembers := SuperMembers(h, inh, c);
      var concrete := ConcreteInherited(h, sub, c, superMembers);
      concrete + AbstractInherited(h, sub, c, superMembers, concrete)
        + FromInterfaces(h, sub, inh, all, c, ClassOthers(h, c), concrete, n, fuel)
  }

  /**
   * The step `getInheritedMethods` takes for one type: the set it stores for `c`, computed
   * from the map of the supertypes (`OwnInherited`, as a function value).
   */
  function OwnStepOf(h: Hierarchy, sub: (Method, Method) -> bool, all: set<Method>, fuel: nat): (ClassId, InheritedMap) -> set<Method> {
    (c: ClassId, inh: InheritedMap) => if Wf(h) then OwnInherited(h, sub, all, c, inh, fuel) else {}
  }

  /**
   * The recursion of `getInheritedMethods(c)`: `Object` and primitives inherit nothing;
   * otherwise the map of the superclass, merged with each superinterface's map by
   * `putIfAbsent`, and the set `own` gives for `c` itself.
   */
  function InheritedWith(h: Hierarchy, own: (ClassId, InheritedMap) -> set<Method>, c: ClassId): (r: InheritedMap)
    requires Wf(h)
    ensures c in r
    decreases c, 1, 0
  {
    if c == ObjectId || IsPrimitive(h, c) then map[c := {}]
    else
      var inh := MergedWith(h, own, c, |InterfacesOf(h, c)|);
      inh[c := own(c, inh)]
  }

  /** The map of the superclass after the `putIfAbsent` merges of the first `n` superinterfaces' maps. */
  function MergedWith(h: Hierarchy, own: (ClassId, InheritedMap) -> set<Method>, c: ClassId, n: nat): InheritedMap
    requires Wf(h) && n <= |InterfacesOf(h, c)|
    decreases c, 0, n
  {
    SuperIdsBelow(h, c);
    if n == 0 then
      if SuperclassOf(h, c).Some? then
        assert SuperclassOf(h, c).value in SuperIds(h, c);
        InheritedWith(h, own, SuperclassOf(h, c).value)
      else map[]
    else
      assert InterfacesOf(h, c)[n - 1] in SuperIds(h, c);
      InheritedWith(h, own, InterfacesOf(h, c)[n - 1]) + MergedWith(h, own, c, n - 1)
  }

  /** `getInheritedMethods(c)`. */
  function Inherited(h: Hierarchy, sub: (Method, Method) -> bool, all: set<Method>, c: ClassId, fuel: nat): InheritedMap
    requires Wf(h)
  {
    InheritedWith(h, OwnStepOf(h, sub, all, fuel), c)
  }

  /** The merged map `getInheritedMethods(c)` builds before adding the entry for `c`. */
  function Merged(h: Hierarchy, sub: (Method, Method) -> bool, all: set<Method>, c: ClassId, n: nat, fuel: nat): InheritedMap
    requires Wf(h) && n <= |InterfacesOf(h, c)|
  {
    MergedWith(h, OwnStepOf(h, sub, all, fuel), c, n)
  }

  /**
   * What `c` inherits is a member of one of its direct supertypes, is never something `c`
   * redeclares with a subsignature, and when `c` is an interface, or the method is not
   * accessible from `c`, is an abstract or default method of a superinterface.
   */
  lemma OwnInheritedShape(h: Hierarchy, sub: (Method, Method) -> bool, all: set<Method>, c: ClassId,
                          inh: InheritedMap, fuel: nat, m: Method)
    requires Wf(h)
    requires m in OwnInherited(h, sub, all, c, inh, fuel)
    ensures NoneSubSignature(h, sub, DeclaredSet(h, c), m)
    ensures exists s :: s in SuperIds(h, c) && m in Members(h, inh, s)
    ensures IsInterface(h, c) || !IsAccessibleFrom(h, m, c) ==> m.isDefault || IsAbstract(m)
  {
    var n := |InterfacesOf(h, c)|;
    var concrete := ConcreteInherited(h, sub, c, SuperMembers(h, inh, c));
    var others := if IsInterface(h, c) then InterfacesOf(h, c) else ClassOthers(h, c);
    var fromIfaces := if IsInterface(h, c) then {} else concrete;
    if m in FromInterfaces(h, sub, inh, all, c, others, fromIfaces, n, fuel) {
      FromInterfacesShape(h, sub, inh, all, c, others, fromIfaces, fuel, m);
    } else {
      assert !IsInterface(h, c);
      assert SuperclassOf(h, c).value in SuperIds(h, c);
    }
  }

  /** A method passed on by a superinterface is one of its members, abstract or default. */
  lemma FromInterfacesShape(h: Hierarchy, sub: (Method, Method) -> bool, inh: InheritedMap, all: set<Method>,
                            c: ClassId, others: seq<ClassId>, concrete: set<Method>, fuel: nat, m: Method)
    requires Wf(h)
    requires m in FromInterfaces(h, sub, inh, all, c, others, concrete, |InterfacesOf(h, c)|, fuel)
    ensures NoneSubSignature(h, sub, DeclaredSet(h, c), m)
    ensures exists s :: s in SuperIds(h, c) && m in Members(h, inh, s)
    ensures m.isDefault || IsAbstract(m)
  {
    var n := |InterfacesOf(h, c)|;
    var sets := PassedOnSets(h, sub, inh, all, c, others, concrete, fuel);
    UnionOfMembers(sets, n);
    var i :| 0 <= i < n && m in sets[i];
    assert m in PassedOn(h, sub, inh, all, c, others, concrete, InterfacesOf(h, c)[i], fuel);
    assert InterfacesOf(h, c)[i] in SuperIds(h, c);
  }

  /**
   * The map `getInheritedMethods(c)` returns has an entry for exactly `c` and its
   * supertypes, so `getMemberMethods` never looks up a missing type.
   */
  lemma InheritedKeys(h: Hierarchy, own: (ClassId, InheritedMap) -> set<Method>, c: ClassId)
    requires Wf(h)
    ensures InheritedWith(h, own, c).Keys == AncestorsOrSelf(h, c)
  {
    forall k ensures k in InheritedWith(h, own, c) <==> k in AncestorsOrSelf(h, c) {
      InheritedHasKey(h, own, c, k);
    }
  }

  /** `InheritedKeys` for one type `k`. */
  lemma {:induction false} InheritedHasKey(h: Hierarchy, own: (ClassId, InheritedMap) -> set<Method>, c: ClassId, k: ClassId)
    requires Wf(h)
    ensures k in InheritedWith(h, own, c) <==> k in AncestorsOrSelf(h, c)
    decreases c, 1, 0, 0
  {
    SuperIdsBelow(h, c);
    AncestorsSplit(h, c);
    if c == ObjectId || IsPrimitive(h, c) {
      assert WfClass(h, c);
      assert SuperIds(h, c) == [];
    } else {
      MergedHasKey(h, own, c, |InterfacesOf(h, c)|, k);
    }
  }

  /** The superclass and the first `n` superinterfaces of `c` put `k` in the merged map iff it is above one of them. */
  lemma {:induction false} MergedHasKey(h: Hierarchy, own: (ClassId, InheritedMap) -> set<Method>, c: ClassId, n: nat, k: ClassId)
    requires Wf(h) && n <= |InterfacesOf(h, c)|
    ensures k in MergedWith(h, own, c, n) <==> k in SuperclassAncestors(h, c) || k in InterfaceAncestors(h, c, n)
    decreases c, 0, n, 1
  {
    if n == 0 {
      SuperclassHasKey(h, own, c, k);
    } else {
      InterfaceHasKey(h, own, c, n, k);
    }
  }

  /** `MergedHasKey` before any superinterface: the superclass's map. */
  lemma {:induction false} SuperclassHasKey(h: Hierarchy, own: (ClassId, InheritedMap) -> set<Method>, c: ClassId, k: ClassId)
    requires Wf(h)
    ensures k in MergedWith(h, own, c, 0) <==> k in SuperclassAncestors(h, c) || k in InterfaceAncestors(h, c, 0)
    decreases c, 0, 0, 0
  {
    SuperIdsBelow(h, c);
    if SuperclassOf(h, c).Some? {
      assert SuperclassOf(h, c).value in SuperIds(h, c);
      InheritedHasKey(h, own, SuperclassOf(h, c).value, k);
    }
  }

  /** `MergedHasKey` for one more superinterface, whose map joins the earlier merge. */
  lemma {:induction false} InterfaceHasKey(h: Hierarchy, own: (ClassId, InheritedMap) -> set<Method>, c: ClassId, n: nat, k: ClassId)
    requires Wf(h) && 0 < n <= |InterfacesOf(h, c)|
    ensures k in MergedWith(h, own, c, n) <==> k in SuperclassAncestors(h, c) || k in InterfaceAncestors(h, c, n)
    decreases c, 0, n, 0
  {
    SuperIdsBelow(h, c);
    var i := InterfacesOf(h, c)[n - 1];
    assert i in SuperIds(h, c);
    InheritedHasKey(h, own, i, k);
    MergedHasKey(h, own, c, n - 1, k);
    MergedStepKeys(h, own, c, n, k);
    InterfaceAncestorsStep(h, c, n, k);
    ghost var inJoin, inNew, inOld := k in MergedWith(h, own, c, n), k in InheritedWith(h, own, i), k in MergedWith(h, own, c, n - 1);
    ghost var aboveNew, aboveSuper := k in AncestorsOrSelf(h, i), k in SuperclassAncestors(h, c);
    ghost var aboveOld, aboveAll := k in InterfaceAncestors(h, c, n - 1), k in InterfaceAncestors(h, c, n);
    JoinKeys(inJoin, inNew, inOld, aboveNew, aboveSuper, aboveOld, aboveAll);
  }

  /**
   * The key step of a merge: a map joined from two has a key when one of them does, each of
   * them has it exactly when it lies above the corresponding type, so the join has it when
   * it lies above either.
   */
  lemma JoinKeys(inJoin: bool, inNew: bool, inOld: bool, aboveNew: bool, aboveSuper: bool, aboveOld: bool, aboveAll: bool)
    requires inJoin <==> inNew || inOld
    requires inNew <==> aboveNew
    requires inOld <==> aboveSuper || aboveOld
    requires aboveAll <==> aboveOld || aboveNew
    ensures inJoin <==> aboveSuper || aboveAll
  {
  }

  /** One more superinterface: its map's keys join those of the earlier merge. */
  lemma MergedStepKeys(h: Hierarchy, own: (ClassId, InheritedMap) -> set<Method>, c: ClassId, n: nat, k: ClassId)
    requires Wf(h) && 0 < n <= |InterfacesOf(h, c)|
    ensures k in MergedWith(h, own, c, n)
            <==> k in InheritedWith(h, own, InterfacesOf(h, c)[n - 1]) || k in MergedWith(h, own, c, n - 1)
  {
    SuperIdsBelow(h, c);
    assert InterfacesOf(h, c)[n - 1] in SuperIds(h, c);
  }

  /** The classes above `c`: the ancestors of its direct supertypes. */
  ghost function Above(h: Hierarchy, c: ClassId): set<ClassId>
    requires Wf(h)
  {
    SuperIdsBelow(h, c);
    set s, a | s in SuperIds(h, c) && a in AncestorsOrSelf(h, s) :: a
  }

  /** The ancestors of the superclass of `c`, none when it has no superclass. */
  ghost function SuperclassAncestors(h: Hierarchy, c: ClassId): set<ClassId>
    requires Wf(h)
  {
    if SuperclassOf(h, c).Some? then AncestorsOrSelf(h, SuperclassOf(h, c).value) else {}
  }

  lemma AncestorsAreAbove(h: Hierarchy, c: ClassId)
    requires Wf(h)
    ensures AncestorsOrSelf(h, c) == {c} + Above(h, c)
  {
  }

  lemma AboveIsSuperclassOrInterfaces(h: Hierarchy, c: ClassId)
    requires Wf(h)
    ensures Above(h, c) <= SuperclassAncestors(h, c) + InterfaceAncestors(h, c, |InterfacesOf(h, c)|)
  {
    var n := |InterfacesOf(h, c)|;
    var sets := InterfaceAncestorSets(h, c);
    UnionOfMembers(sets, n);
    forall a | a in Above(h, c)
      ensures a in SuperclassAncestors(h, c) || a in UnionOf(sets, n)
    {
      var s :| s in SuperIds(h, c) && a in AncestorsOrSelf(h, s);
      var i :| 0 <= i < |SuperIds(h, c)| && SuperIds(h, c)[i] == s;
      if i < n {
        assert sets[i] == AncestorsOrSelf(h, s);
      }
    }
  }

  lemma InterfacesAreAbove(h: Hierarchy, c: ClassId)
    requires Wf(h)
    ensures InterfaceAncestors(h, c, |InterfacesOf(h, c)|) <= Above(h, c)
  {
    var n := |InterfacesOf(h, c)|;
    var sets := InterfaceAncestorSets(h, c);
    UnionOfMembers(sets, n);
    forall a | a in UnionOf(sets, n)
      ensures a in Above(h, c)
    {
      var i :| 0 <= i < n && a in sets[i];
      assert SuperIds(h, c)[i] == InterfacesOf(h, c)[i];
    }
  }

  lemma SuperclassIsAbove(h: Hierarchy, c: ClassId)
    requires Wf(h)
    ensures SuperclassAncestors(h, c) <= Above(h, c)
  {
    if SuperclassOf(h, c).Some? {
      assert SuperclassOf(h, c).value in SuperIds(h, c);
    }
  }

  /** The ancestors of `c` are `c`, the ancestors of its superclass and those of its superinterfaces. */
  lemma AncestorsSplit(h: Hierarchy, c: ClassId)
    requires Wf(h)
    ensures AncestorsOrSelf(h, c) == {c} + SuperclassAncestors(h, c) + InterfaceAncestors(h, c, |InterfacesOf(h, c)|)
  {
    AncestorsAreAbove(h, c);
    AboveIsSuperclassOrInterfaces(h, c);
    InterfacesAreAbove(h, c);
    SuperclassIsAbove(h, c);
  }

  /** The union of the first `n` sets of `sets`. */
  function UnionOf<T>(sets: seq<set<T>>, n: nat): set<T>
    requires n <= |sets|
  {
    if n == 0 then {} else UnionOf(sets, n - 1) + sets[n - 1]
  }

  lemma {:induction false} UnionOfMembers<T>(sets: seq<set<T>>, n: nat)
    requires n <= |sets|
    ensures forall a :: a in UnionOf(sets, n) <==> exists i :: 0 <= i < n && a in sets[i]
  {
    if n > 0 {
      UnionOfMembers(sets, n - 1);
    }
  }

  /** For each direct superinterface of `c`, that interface and its ancestors. */
  ghost function InterfaceAncestorSets(h: Hierarchy, c: ClassId): (r: seq<set<ClassId>>)
    requires Wf(h)
    ensures |r| == |InterfacesOf(h, c)|
    ensures forall i :: 0 <= i < |r| ==> r[i] == AncestorsOrSelf(h, InterfacesOf(h, c)[i])
  {
    seq(|InterfacesOf(h, c)|, i requires 0 <= i < |InterfacesOf(h, c)| => AncestorsOrSelf(h, InterfacesOf(h, c)[i]))
  }

  /** The classes the first `n` direct superinterfaces of `c` stand for, themselves included. */
  ghost function InterfaceAncestors(h: Hierarchy, c: ClassId, n: nat): set<ClassId>
    requires Wf(h) && n <= |InterfacesOf(h, c)|
  {
    UnionOf(InterfaceAncestorSets(h, c), n)
  }

  /** One more superinterface adds its ancestors (and itself). */
  lemma InterfaceAncestorsStep(h: Hierarchy, c: ClassId, n: nat, k: ClassId)
    requires Wf(h) && 0 < n <= |InterfacesOf(h, c)|
    ensures k in InterfaceAncestors(h, c, n) <==> k in InterfaceAncestors(h, c, n - 1) || k in AncestorsOrSelf(h, InterfacesOf(h, c)[n - 1])
  {
  }

  /**
   * Whichever root the map was built from, its entry for a type `k` is what
   * `getInheritedMethods(k)` stores for `k`: the `putIfAbsent` merges never meet two
   * different answers for the same type.
   */
  lemma {:induction false} InheritedConsistent(h: Hierarchy, own: (ClassId, InheritedMap) -> set<Method>, c: ClassId, k: ClassId)
    requires Wf(h) && k in InheritedWith(h, own, c)
    ensures InheritedWith(h, own, c)[k] == InheritedWith(h, own, k)[k]
    decreases c, 1, 0
  {
    if c != ObjectId && !IsPrimitive(h, c) && k != c {
      MergedConsistent(h, own, c, |InterfacesOf(h, c)|, k);
    }
  }

  lemma {:induction false} MergedConsistent(h: Hierarchy, own: (ClassId, InheritedMap) -> set<Method>, c: ClassId, n: nat, k: ClassId)
    requires Wf(h) && n <= |InterfacesOf(h, c)| && k in MergedWith(h, own, c, n)
    ensures MergedWith(h, own, c, n)[k] == InheritedWith(h, own, k)[k]
    decreases c, 0, n
  {
    SuperIdsBelow(h, c);
    if n == 0 {
      assert SuperclassOf(h, c).value in SuperIds(h, c);
      InheritedConsistent(h, own, SuperclassOf(h, c).value, k);
    } else if k in MergedWith(h, own, c, n - 1) {
      MergedConsistent(h, own, c, n - 1, k);
    } else {
      assert InterfacesOf(h, c)[n - 1] in SuperIds(h, c);
      InheritedConsistent(h, own, InterfacesOf(h, c)[n - 1], k);
    }
  }

  /** Every method a type inherits is declared in one of its proper supertypes. */
  lemma {:induction false} InheritedDeclaredAbove(h: Hierarchy, sub: (Method, Method) -> bool, all: set<Method>, c: ClassId,
                                                  fuel: nat, m: Method)
    requires Wf(h) && m in Inherited(h, sub, all, c, fuel)[c]
    ensures m in Declared(h, m.declaring)
    ensures m.declaring in AncestorsOrSelf(h, c) && m.declaring != c
    decreases c, 1
  {
    if c != ObjectId && !IsPrimitive(h, c) {
      OwnInheritedDeclaredAbove(h, sub, all, c, fuel, m);
    }
  }

  lemma {:induction false} OwnInheritedDeclaredAbove(h: Hierarchy, sub: (Method, Method) -> bool, all: set<Method>, c: ClassId,
                                                     fuel: nat, m: Method)
    requires Wf(h)
    requires m in OwnInherited(h, sub, all, c, Merged(h, sub, all, c, |InterfacesOf(h, c)|, fuel), fuel)
    ensures m in Declared(h, m.declaring)
    ensures m.declaring in AncestorsOrSelf(h, c) && m.declaring != c
    decreases c, 0
  {
    var n := |InterfacesOf(h, c)|;
    var inh := Merged(h, sub, all, c, n, fuel);
    OwnInheritedShape(h, sub, all, c, inh, fuel, m);
    var s :| s in SuperIds(h, c) && m in Members(h, inh, s);
    SuperIdsBelow(h, c);
    if m in DeclaredSet(h, s) {
      assert WfClass(h, s);
      AncestorsOrSelfStep(h, c, s, s);
    } else {
      MergedConsistent(h, OwnStepOf(h, sub, all, fuel), c, n, s);
      InheritedDeclaredAbove(h, sub, all, s, fuel, m);
      AncestorsOrSelfStep(h, c, s, m.declaring);
    }
  }

  lemma AncestorsOrSelfStep(h: Hierarchy, c: ClassId, s: ClassId, a: ClassId)
    requires Wf(h) && s in SuperIds(h, c) && a in AncestorsOrSelf(h, s)
    ensures a in AncestorsOrSelf(h, c) && a < c
  {
    SuperIdsBelow(h, c);
  }

  // ---------------------------------------------------------------- getInheritedMethods, as loops

  /** A `for` loop that adds to a fresh set each method of `s` passing the test `keep`. */
  method FilterMethods(s: set<Method>, keep: Method -> bool) returns (r: set<Method>)
    ensures r == set m | m in s && keep(m)
  {
    r := {};
    var rest := s;
    while rest != {}
      invariant rest <= s
      invariant r == set m | m in s - rest && keep(m)
      decreases rest
    {
      var m :| m in rest;
      if keep(m) {
        r := r + {m};
      }
      rest := rest - {m};
    }
  }

  /** `putIfAbsent` of every entry of `entries`: the entries already in `into` win. */
  method PutAllAbsent(into: InheritedMap, entries: InheritedMap) returns (r: InheritedMap)
    ensures r.Keys == into.Keys + entries.Keys
    ensures forall k :: k in into ==> r[k] == into[k]
    ensures forall k :: k in entries && k !in into ==> r[k] == entries[k]
    ensures r == entries + into
  {
    r := into;
    var rest := entries.Keys;
    while rest != {}
      invariant rest <= entries.Keys
      invariant r.Keys == into.Keys + (entries.Keys - rest)
      invariant forall k :: k in into ==> r[k] == into[k]
      invariant forall k :: k in entries && k !in rest && k !in into ==> r[k] == entries[k]
      decreases rest
    {
      var k :| k in rest;
      if k !in r {
        r := r[k := entries[k]];
      }
      rest := rest - {k};
    }
    assert r.Keys == (entries + into).Keys;
  }

  /** The inner stream over the members of one superinterface `iface`. */
  method InheritedFromInterface(h: Hierarchy, sub: (Method, Method) -> bool, inh: InheritedMap, all: set<Method>,
                                c: ClassId, others: seq<ClassId>, concrete: set<Method>, iface: ClassId, fuel: nat)
    returns (picked: set<Method>)
    requires Wf(h)
    ensures picked == PassedOn(h, sub, inh, all, c, others, concrete, iface, fuel)
  {
    picked := FilterMethods(Members(h, inh, iface),
                            m => InheritsFromInterface(h, sub, inh, all, c, others, concrete, iface, m, fuel));
  }

  /** The loop over the direct superinterfaces and their members. */
  method InheritFromInterfaces(h: Hierarchy, sub: (Method, Method) -> bool, inh: InheritedMap, all: set<Method>,
                               c: ClassId, others: seq<ClassId>, concrete: set<Method>, fuel: nat)
    returns (methods: set<Method>)
    requires Wf(h)
    ensures methods == FromInterfaces(h, sub, inh, all, c, others, concrete, |InterfacesOf(h, c)|, fuel)
  {
    var ifaces := InterfacesOf(h, c);
    methods := {};
    for i := 0 to |ifaces|
      invariant methods == FromInterfaces(h, sub, inh, all, c, others, concrete, i, fuel)
    {
      var picked := InheritedFromInterface(h, sub, inh, all, c, others, concrete, ifaces[i], fuel);
      methods := methods + picked;
    }
  }

  /** The set `getInheritedMethods` builds for `c` from the map `inh` of its supertypes. */
  method InheritedByType(h: Hierarchy, sub: (Method, Method) -> bool, all: set<Method>, c: ClassId,
                         inh: InheritedMap, fuel: nat)
    returns (methods: set<Method>)
    requires Wf(h)
    ensures methods == OwnInherited(h, sub, all, c, inh, fuel)
  {
    var declared := DeclaredSet(h, c);
    if IsInterface(h, c) {
      methods := InheritFromInterfaces(h, sub, inh, all, c, InterfacesOf(h, c), {}, fuel);
    } else {
      var superMembers := SuperMembers(h, inh, c);
      var concrete := FilterMethods(superMembers,
                                    m => !IsAbstract(m) && IsAccessibleFrom(h, m, c) && NoneSubSignature(h, sub, declared, m));
      assert concrete == ConcreteInherited(h, sub, c, superMembers);
      var abstractOnes := FilterMethods(superMembers,
                                        m => IsAbstract(m) && IsAccessibleFrom(h, m, c)
                                             && NoneSubSignature(h, sub, declared, m) && NoneSubSignature(h, sub, concrete, m));
      assert abstractOnes == AbstractInherited(h, sub, c, superMembers, concrete);
      var fromInterfaces := InheritFromInterfaces(h, sub, inh, all, c, ClassOthers(h, c), concrete, fuel);
      methods := concrete + abstractOnes + fromInterfaces;
    }
  }

  /** `getInheritedMethods`, recursive over the supertypes. */
  method GetInheritedMethods(h: Hierarchy, sub: (Method, Method) -> bool, all: set<Method>, c: ClassId, fuel: nat)
    returns (result: InheritedMap)
    requires Wf(h)
    ensures result == Inherited(h, sub, all, c, fuel)
    decreases c
  {
    if c == ObjectId || IsPrimitive(h, c) {
      return map[c := {}];
    }
    SuperIdsBelow(h, c);
    if SuperclassOf(h, c).Some? {
      assert SuperclassOf(h, c).value in SuperIds(h, c);
      result := GetInheritedMethods(h, sub, all, SuperclassOf(h, c).value, fuel);
    } else {
      result := map[];
    }
    var ifaces := InterfacesOf(h, c);
    for i := 0 to |ifaces|
      invariant result == Merged(h, sub, all, c, i, fuel)
    {
      assert ifaces[i] in SuperIds(h, c);
      var sub := GetInheritedMethods(h, sub, all, ifaces[i], fuel);
      result := PutAllAbsent(result, sub);
    }
    var methods := InheritedByType(h, sub, all, c, result, fuel);
    assert OwnStepOf(h, sub, all, fuel)(c, result) == methods;
    result := result[c := methods];
  }

  // ---------------------------------------------------------------- makeQuotientSet

  /** `classes` are non-empty, pairwise disjoint sets whose union is `s`. */
  ghost predicate Partition(classes: seq<set<Method>>, s: set<Method>) {
    && (forall i :: 0 <= i < |classes| ==> classes[i] != {})
    && (forall i, j :: 0 <= i < j < |classes| ==> classes[i] !! classes[j])
    && (forall m :: m in s <==> exists i :: 0 <= i < |classes| && m in classes[i])
  }

  /** `equiv` is reflexive, symmetric and transitive on `s`. */
  ghost predicate IsEquivalence(s: set<Method>, equiv: (Method, Method) -> bool) {
    && (forall a :: a in s ==> equiv(a, a))
    && (forall a, b :: a in s && b in s && equiv(a, b) ==> equiv(b, a))
    && (forall a, b, c :: a in s && b in s && c in s && equiv(a, b) && equiv(b, c) ==> equiv(a, c))
  }

  /** Two methods of `classes` are related exactly when they lie in the same class. */
  ghost predicate AreEquivalenceClasses(classes: seq<set<Method>>, equiv: (Method, Method) -> bool) {
    forall i, j, a, b :: 0 <= i < |classes| && 0 <= j < |classes| && a in classes[i] && b in classes[j]
                         ==> (equiv(a, b) <==> i == j)
  }

  /** Every method in a class of two or more has a related partner in that class. */
  ghost predicate Connected(classes: seq<set<Method>>, equiv: (Method, Method) -> bool) {
    forall i, m :: 0 <= i < |classes| && m in classes[i] && |classes[i]| > 1
                   ==> exists o :: o in classes[i] && o != m && (equiv(m, o) || equiv(o, m))
  }

  /**
   * The inner loop of `makeQuotientSet`: the first class holding a method related to `m`,
   * or `|classes|` when there is none.
   */
  method FindClass(classes: seq<set<Method>>, m: Method, equiv: (Method, Method) -> bool) returns (k: nat)
    ensures k <= |classes|
    ensures forall i, o :: 0 <= i < k && o in classes[i] ==> !equiv(m, o)
    ensures k < |classes| ==> exists o :: o in classes[k] && equiv(m, o)
  {
    k := 0;
    while k < |classes|
      invariant k <= |classes|
      invariant forall i, o :: 0 <= i < k && o in classes[i] ==> !equiv(m, o)
    {
      if exists o :: o in classes[k] && equiv(m, o) {
        return;
      }
      k := k + 1;
    }
  }

  /**
   * `makeQuotientSet`: each method joins the first class holding a method related to it,
   * or starts a class of its own. The result always partitions `methods`; when the relation
   * is an equivalence on them, the classes are exactly its equivalence classes.
   */
  method MakeQuotientSet(methods: set<Method>, equiv: (Method, Method) -> bool) returns (classes: seq<set<Method>>)
    ensures Partition(classes, methods)
    ensures Connected(classes, equiv)
    ensures IsEquivalence(methods, equiv) ==> AreEquivalenceClasses(classes, equiv)
  {
    classes := [];
    var rest := methods;
    while rest != {}
      invariant rest <= methods
      invariant Partition(classes, methods - rest)
      invariant Connected(classes, equiv)
      invariant IsEquivalence(methods, equiv) ==> AreEquivalenceClasses(classes, equiv)
      decreases rest
    {
      var m :| m in rest;
      var k := FindClass(classes, m, equiv);
      var before := classes;
      if k < |classes| {
        classes := classes[k := classes[k] + {m}];
        JoinKeepsClasses(methods, rest, before, classes, k, m, equiv);
      } else {
        classes := classes + [{m}];
        NewClassKeepsClasses(methods, rest, before, classes, m, equiv);
      }
      rest := rest - {m};
    }
    assert methods - rest == methods;
  }

  lemma JoinKeepsClasses(methods: set<Method>, rest: set<Method>, before: seq<set<Method>>, after: seq<set<Method>>,
                         k: nat, m: Method, equiv: (Method, Method) -> bool)
    requires rest <= methods && m in rest && k < |before|
    requires Partition(before, methods - rest) && Connected(before, equiv)
    requires IsEquivalence(methods, equiv) ==> AreEquivalenceClasses(before, equiv)
    requires exists o :: o in before[k] && equiv(m, o)
    requires after == before[k := before[k] + {m}]
    ensures Partition(after, methods - (rest - {m})) && Connected(after, equiv)
    ensures IsEquivalence(methods, equiv) ==> AreEquivalenceClasses(after, equiv)
  {
    var o :| o in before[k] && equiv(m, o);
    JoinPartition(methods, rest, before, after, k, m);
    JoinConnected(before, after, k, m, o, equiv);
    if IsEquivalence(methods, equiv) {
      JoinEquivalence(methods, rest, before, after, k, m, o, equiv);
    }
  }

  lemma JoinPartition(methods: set<Method>, rest: set<Method>, before: seq<set<Method>>, after: seq<set<Method>>,
                      k: nat, m: Method)
    requires rest <= methods && m in rest && k < |before|
    requires Partition(before, methods - rest)
    requires after == before[k := before[k] + {m}]
    ensures Partition(after, methods - (rest - {m}))
  {
    forall i | 0 <= i < |before|
      ensures m !in before[i]
    {
      assert m !in methods - rest;
    }
    forall x | x in methods - (rest - {m})
      ensures exists i :: 0 <= i < |after| && x in after[i]
    {
      if x == m {
        assert x in after[k];
      } else {
        assert x in methods - rest;
        var i :| 0 <= i < |before| && x in before[i];
        assert x in after[i];
      }
    }
    forall i, x | 0 <= i < |after| && x in after[i]
      ensures x in methods - (rest - {m})
    {
      if x != m {
        assert x in before[i];
        assert x in methods - rest;
      }
    }
  }

  lemma JoinConnected(before: seq<set<Method>>, after: seq<set<Method>>, k: nat, m: Method, o: Method,
                      equiv: (Method, Method) -> bool)
    requires k < |before| && Connected(before, equiv)
    requires o in before[k] && m !in before[k] && equiv(m, o)
    requires after == before[k := before[k] + {m}]
    ensures Connected(after, equiv)
  {
    forall i, x | 0 <= i < |after| && x in after[i] && |after[i]| > 1
      ensures exists y :: y in after[i] && y != x && (equiv(x, y) || equiv(y, x))
    {
      if i == k && x == m {
        assert o in after[i] && o != x;
      } else if i == k && x == o {
        assert m in after[i] && m != x && equiv(m, x);
      } else if i == k {
        TwoMembers(before[k], x, o);
        var y :| y in before[i] && y != x && (equiv(x, y) || equiv(y, x));
        assert y in after[i];
      } else {
        var y :| y in before[i] && y != x && (equiv(x, y) || equiv(y, x));
        assert y in after[i];
      }
    }
  }

  lemma JoinEquivalence(methods: set<Method>, rest: set<Method>, before: seq<set<Method>>, after: seq<set<Method>>,
                        k: nat, m: Method, o: Method, equiv: (Method, Method) -> bool)
    requires rest <= methods && m in rest && k < |before|
    requires Partition(before, methods - rest)
    requires IsEquivalence(methods, equiv) && AreEquivalenceClasses(before, equiv)
    requires o in before[k] && equiv(m, o)
    requires after == before[k := before[k] + {m}]
    ensures AreEquivalenceClasses(after, equiv)
  {
    forall i, j, a, b | 0 <= i < |after| && 0 <= j < |after| && a in after[i] && b in after[j]
      ensures equiv(a, b) <==> i == j
    {
      assert m in methods && o in methods - rest;
      if a == m && b == m {
      } else if a == m {
        assert b in before[j] && b in methods - rest;
        assert equiv(o, b) <==> k == j;
        assert equiv(o, m);
      } else if b == m {
        assert a in before[i] && a in methods - rest;
        assert equiv(a, o) <==> i == k;
        assert equiv(o, m);
      } else {
        assert a in before[i] && b in before[j];
      }
    }
  }

  lemma NewClassKeepsClasses(methods: set<Method>, rest: set<Method>, before: seq<set<Method>>, after: seq<set<Method>>,
                             m: Method, equiv: (Method, Method) -> bool)
    requires rest <= methods && m in rest
    requires Partition(before, methods - rest) && Connected(before, equiv)
    requires IsEquivalence(methods, equiv) ==> AreEquivalenceClasses(before, equiv)
    requires forall i, o :: 0 <= i < |before| && o in before[i] ==> !equiv(m, o)
    requires after == before + [{m}]
    ensures Partition(after, methods - (rest - {m})) && Connected(after, equiv)
    ensures IsEquivalence(methods, equiv) ==> AreEquivalenceClasses(after, equiv)
  {
    forall x | x in methods - (rest - {m})
      ensures exists i :: 0 <= i < |after| && x in after[i]
    {
      if x == m {
        assert x in after[|before|];
      } else {
        assert x in methods - rest;
        var i :| 0 <= i < |before| && x in before[i];
        assert x in after[i];
      }
    }
    forall i, x | 0 <= i < |after| && x in after[i]
      ensures x in methods - (rest - {m})
    {
      if i < |before| {
        assert x in before[i];
        assert x in methods - rest;
      }
    }
    forall i | 0 <= i < |before|
      ensures m !in before[i]
    {
      assert m !in methods - rest;
    }
    forall i, x | 0 <= i < |after| && x in after[i] && |after[i]| > 1
      ensures exists y :: y in after[i] && y != x && (equiv(x, y) || equiv(y, x))
    {
      assert i < |before|;
      var y :| y in before[i] && y != x && (equiv(x, y) || equiv(y, x));
      assert y in after[i];
    }
    if IsEquivalence(methods, equiv) {
      forall i, j, a, b | 0 <= i < |after| && 0 <= j < |after| && a in after[i] && b in after[j]
        ensures equiv(a, b) <==> i == j
      {
        if i < |before| && j == |before| {
          assert a in before[i] && a in methods - rest;
          assert b == m && !equiv(m, a);
        } else if i == |before| && j < |before| {
          assert a == m && !equiv(m, b);
        } else if i < |before| && j < |before| {
          assert a in before[i] && b in before[j];
        }
      }
    }
  }

  lemma TwoMembers(s: set<Method>, x: Method, o: Method)
    requires x in s && o in s && x != o
    ensures |s| > 1
  {
    var t := s - {x};
    assert o in t && s == t + {x};
  }

  // ---------------------------------------------------------------- getQuotientSetOfMemberMethods

  /** The relation `makeQuotientSet` partitions by: override-equivalence in the given contexts. */
  function OverrideEquivalence(h: Hierarchy, store: map<ClassId, Context>): (Method, Method) -> bool
    requires Wf(h)
  {
    (a, b) => OverrideEquivalent(h, store, a, b)
  }

  /** Override-equivalence is reflexive and symmetric on any set of methods. */
  lemma OverrideEquivalenceReflexiveSymmetric(h: Hierarchy, store: map<ClassId, Context>, s: set<Method>)
    requires Wf(h)
    ensures forall a :: a in s ==> OverrideEquivalence(h, store)(a, a)
    ensures forall a, b :: a in s && b in s && OverrideEquivalence(h, store)(a, b) ==> OverrideEquivalence(h, store)(b, a)
  {
    forall a | a in s
      ensures OverrideEquivalence(h, store)(a, a)
    {
      OverrideEquivalentReflexive(h, store, a);
    }
    forall a, b | a in s && b in s && OverrideEquivalence(h, store)(a, b)
      ensures OverrideEquivalence(h, store)(b, a)
    {
      OverrideEquivalentSymmetric(h, store, a, b);
    }
  }

  /** The store `getContexts(token)` fills. */
  function StoreOf(h: Hierarchy, token: ClassId): map<ClassId, Context>
    requires Wf(h)
  {
    Fill(h, map[], token, map[])
  }

  /**
   * `isSubSignature(m1, m2, contexts)` as a relation, the form in which the overriding and
   * inheritance decisions above take it.
   */
  function SubSignatureOf(h: Hierarchy, store: map<ClassId, Context>): (Method, Method) -> bool {
    (m1, m2) => Wf(h) && SubSignature(h, store, m1, m2)
  }

  /** What `getInheritedMethods(token, getAllMethods(token), contexts)` returns. */
  function InheritedFor(h: Hierarchy, token: ClassId, fuel: nat): InheritedMap
    requires Wf(h)
  {
    Inherited(h, SubSignatureOf(h, StoreOf(h, token)), AllMethods(h, token), token, fuel)
  }

  /** The member methods of `token`. */
  function MemberMethods(h: Hierarchy, token: ClassId, fuel: nat): set<Method>
    requires Wf(h)
  {
    Members(h, InheritedFor(h, token, fuel), token)
  }

  /**
   * `getQuotientSetOfMemberMethods`: the member methods of `token`, partitioned greedily by
   * override-equivalence.
   */
  method GetQuotientSetOfMemberMethods(h: Hierarchy, token: ClassId, fuel: nat) returns (classes: seq<set<Method>>)
    requires Wf(h)
    ensures Partition(classes, MemberMethods(h, token, fuel))
    ensures Connected(classes, OverrideEquivalence(h, StoreOf(h, token)))
    ensures IsEquivalence(MemberMethods(h, token, fuel), OverrideEquivalence(h, StoreOf(h, token)))
            ==> AreEquivalenceClasses(classes, OverrideEquivalence(h, StoreOf(h, token)))
  {
    var contexts := GetContexts(h, token);
    var all := AllMethods(h, token);
    var inherited := GetInheritedMethods(h, SubSignatureOf(h, contexts.rawTypeToContext), all, token, fuel);
    classes := MakeQuotientSet(Members(h, inherited, token), OverrideEquivalence(h, contexts.rawTypeToContext));
  }

  // ---------------------------------------------------------------- getMethodSignatures

  /** Why no concrete subclass can be generated. */
  datatype Rejection =
    | SignatureFailure(reason: Sig.Failure)           // a stub would need raw types or unchecked casts
    | NonAbstractImpossible                           // a stub clashes with a member of the same erasure
    | AbstractNotOverridable(owner: ClassId, name: string)  // a package-private abstract method out of reach

  datatype SignaturesOutcome = Signatures(signatures: seq<Sig.Signature>) | Rejected(rejection: Rejection)

  /** `ms` lists the methods of `s`, each once, in some order. */
  predicate Enumerates(ms: seq<Method>, s: set<Method>) {
    && (forall m :: m in ms ==> m in s)
    && (forall m :: m in s ==> m in ms)
    && (forall i, j :: 0 <= i < j < |ms| ==> ms[i] != ms[j])
  }

  /** Iterating a `HashSet`: its methods in an order the model leaves open. */
  method Enumerate(s: set<Method>) returns (ms: seq<Method>)
    ensures Enumerates(ms, s)
  {
    ms := [];
    var rest := s;
    while rest != {}
      invariant rest <= s
      invariant forall m :: m in ms <==> m in s - rest
      invariant forall i, j :: 0 <= i < j < |ms| ==> ms[i] != ms[j]
      decreases rest
    {
      var m :| m in rest;
      assert m !in ms;
      assert forall i :: 0 <= i < |ms| ==> ms[i] != m;
      ms := ms + [m];
      rest := rest - {m};
    }
  }

  predicate HasAbstract(s: set<Method>) {
    exists m :: m in s && IsAbstract(m)
  }

  /** The classes holding an abstract method, in their order. */
  function WithAbstract(classes: seq<set<Method>>): (r: seq<set<Method>>)
    ensures forall c :: c in r <==> c in classes && HasAbstract(c)
  {
    if |classes| == 0 then []
    else
      var init := classes[..|classes| - 1];
      assert forall c :: c in classes <==> c in init || c == classes[|classes| - 1];
      WithAbstract(init) + (if HasAbstract(classes[|classes| - 1]) then [classes[|classes| - 1]] else [])
  }

  /** The type parameters of the generated class: names no stub type parameter may take. */
  function ForbiddenNames(h: Hierarchy, token: ClassId): set<string> {
    TypeParamNames(h, TypeParamsOf(h, token))
  }

  /** The relation between the methods of one class, in a chosen order, and their common signature. */
  ghost function CommonSignatureOf(h: Hierarchy, store: map<ClassId, Context>, forbidden: set<string>)
    : (seq<Method>, Sig.Signature) -> bool
  {
    (ms: seq<Method>, sig: Sig.Signature) =>
      && Wf(h) && |ms| > 0
      && (forall f :: !Sig.FailsWith(h, ms, f))
      && Sig.IsCommonSignature(h, store, ms, forbidden, sig)
  }

  /** `sigs` and `orders` pair up entry by entry, each pair in relation `valid`. */
  ghost predicate Pairwise(orders: seq<seq<Method>>, sigs: seq<Sig.Signature>, valid: (seq<Method>, Sig.Signature) -> bool) {
    |orders| == |sigs| && forall i :: 0 <= i < |sigs| ==> valid(orders[i], sigs[i])
  }

  /** `orders` lists, entry by entry, the methods of the classes `abstractClasses`. */
  predicate EnumeratesAll(orders: seq<seq<Method>>, abstractClasses: seq<set<Method>>) {
    |orders| == |abstractClasses| && forall i :: 0 <= i < |orders| ==> Enumerates(orders[i], abstractClasses[i])
  }

  /**
   * One signature per class holding an abstract method: the common signature of that
   * class listed in the order `orders` gives.
   */
  ghost predicate SignaturesFor(h: Hierarchy, store: map<ClassId, Context>, classes: seq<set<Method>>,
                                forbidden: set<string>, orders: seq<seq<Method>>, sigs: seq<Sig.Signature>)
  {
    && EnumeratesAll(orders, WithAbstract(classes))
    && Pairwise(orders, sigs, CommonSignatureOf(h, store, forbidden))
  }

  /**
   * A stub clashes with a member: same name, not a subsignature of it, yet the same erasure
   * (section 8.4.8.3 of the Java Language Specification forbids such a pair).
   */
  predicate Clash(h: Hierarchy, store: map<ClassId, Context>, sig: Sig.Signature, m: Method)
    requires Wf(h)
  {
    && sig.name == m.name
    && !SubSignature(h, store, sig.referenceMethod, m)
    && HasSameErasure(h, sig.referenceMethod, m, ContextOf(store, sig.referenceMethod.declaring))
  }

  /** The type, its superclass, that one's superclass, and so on up to the top. */
  function SuperclassChain(h: Hierarchy, c: ClassId): (r: seq<ClassId>)
    requires Wf(h)
    ensures |r| > 0 && r[0] == c
    decreases c
  {
    SuperclassBelow(h, c);
    [c] + (if SuperclassOf(h, c).Some? then SuperclassChain(h, SuperclassOf(h, c).value) else [])
  }

  lemma {:induction false} SuperclassChainStep(h: Hierarchy, c: ClassId, i: nat)
    requires Wf(h) && i < |SuperclassChain(h, c)|
    ensures var chain := SuperclassChain(h, c);
            SuperclassOf(h, chain[i]).Some? <==> i + 1 < |chain|
    ensures var chain := SuperclassChain(h, c);
            i + 1 < |chain| ==> SuperclassOf(h, chain[i]) == Some(chain[i + 1])
    decreases c
  {
    SuperclassBelow(h, c);
    if i > 0 {
      SuperclassChainStep(h, SuperclassOf(h, c).value, i - 1);
    }
  }

  /**
   * The declaration `d` in the `i`-th type of the superclass chain, outside the token's
   * package, is package-private and abstract, and no method overrides it from that type
   * or from any type below it in the chain.
   */
  ghost predicate Unoverridable(h: Hierarchy, sub: (Method, Method) -> bool, inh: InheritedMap, all: set<Method>,
                                token: ClassId, fuel: nat, i: nat, d: Method)
    requires Wf(h)
  {
    var chain := SuperclassChain(h, token);
    && i < |chain|
    && PackageOf(h, chain[i]) != PackageOf(h, token)
    && d in Declared(h, chain[i])
    && IsPackagePrivate(d.modifiers) && IsAbstract(d)
    && !OverriddenFrom(h, sub, inh, all, d, chain[..i + 1], fuel)
  }

  /** Some method of `all` overrides `d` from some type of `supers`. */
  ghost predicate OverriddenFrom(h: Hierarchy, sub: (Method, Method) -> bool, inh: InheritedMap, all: set<Method>,
                                 d: Method, supers: seq<ClassId>, fuel: nat)
    requires Wf(h)
  {
    exists m, j :: m in all && 0 <= j < |supers| && OverridesFrom(h, sub, inh, all, m, d, supers[j], fuel)
  }

  /** The `noneMatch`/`anyMatch` search: some method overrides `d` from some type of `supers`. */
  method AnyOverrides(h: Hierarchy, sub: (Method, Method) -> bool, inh: InheritedMap, all: set<Method>,
                      d: Method, supers: seq<ClassId>, fuel: nat) returns (found: bool)
    requires Wf(h)
    ensures found == OverriddenFrom(h, sub, inh, all, d, supers, fuel)
  {
    var rest := all;
    while rest != {}
      invariant rest <= all
      invariant forall m, j :: m in all - rest && 0 <= j < |supers| ==> !OverridesFrom(h, sub, inh, all, m, d, supers[j], fuel)
      decreases rest
    {
      var m :| m in rest;
      for j := 0 to |supers|
        invariant forall q :: 0 <= q < j ==> !OverridesFrom(h, sub, inh, all, m, d, supers[q], fuel)
      {
        var overrides := IsOverridingDeclarationFrom(h, sub, inh, all, m, d, supers[j], fuel);
        if overrides {
          return true;
        }
      }
      assert all - (rest - {m}) == (all - rest) + {m};
      rest := rest - {m};
    }
    assert all - rest == all;
    return false;
  }

  /**
   * The `for` loop over the methods `s` declares, `s` being the `i`-th type of the chain and
   * outside the token's package: the first package-private abstract one nothing overrides.
   */
  method UnoverridableDeclared(h: Hierarchy, sub: (Method, Method) -> bool, inh: InheritedMap, all: set<Method>,
                               token: ClassId, fuel: nat, ghost i: nat, s: ClassId, superClasses: seq<ClassId>)
    returns (found: Option<Method>)
    requires Wf(h)
    requires i < |SuperclassChain(h, token)| && s == SuperclassChain(h, token)[i]
    requires superClasses == SuperclassChain(h, token)[..i + 1]
    requires PackageOf(h, s) != PackageOf(h, token)
    ensures found.None? ==> forall d :: !Unoverridable(h, sub, inh, all, token, fuel, i, d)
    ensures found.Some? ==> Unoverridable(h, sub, inh, all, token, fuel, i, found.value)
  {
    var declared := Declared(h, s);
    for k := 0 to |declared|
      invariant forall q :: 0 <= q < k ==> !Unoverridable(h, sub, inh, all, token, fuel, i, declared[q])
    {
      var unoverridable := IsUnoverridable(h, sub, inh, all, token, fuel, i, declared[k], superClasses);
      if unoverridable {
        return Some(declared[k]);
      }
    }
    NoneDeclaredUnoverridable(h, sub, inh, all, token, fuel, i, declared);
    return None;
  }

  /** When no method `s` declares passes the filter, no method at all does at position `i`. */
  lemma NoneDeclaredUnoverridable(h: Hierarchy, sub: (Method, Method) -> bool, inh: InheritedMap, all: set<Method>,
                                  token: ClassId, fuel: nat, i: nat, declared: seq<Method>)
    requires Wf(h)
    requires i < |SuperclassChain(h, token)| && declared == Declared(h, SuperclassChain(h, token)[i])
    requires forall q :: 0 <= q < |declared| ==> !Unoverridable(h, sub, inh, all, token, fuel, i, declared[q])
    ensures forall d :: !Unoverridable(h, sub, inh, all, token, fuel, i, d)
  {
    forall d
      ensures !Unoverridable(h, sub, inh, all, token, fuel, i, d)
    {
      if d in declared {
        var q :| 0 <= q < |declared| && declared[q] == d;
      }
    }
  }

  /** No unoverridable method below position `i`, nor at it, means none below `i + 1`. */
  lemma NoneUnoverridableStep(h: Hierarchy, sub: (Method, Method) -> bool, inh: InheritedMap, all: set<Method>,
                              token: ClassId, fuel: nat, i: nat)
    requires Wf(h)
    requires forall p: nat, d :: p < i ==> !Unoverridable(h, sub, inh, all, token, fuel, p, d)
    requires forall d :: !Unoverridable(h, sub, inh, all, token, fuel, i, d)
    ensures forall p: nat, d :: p < i + 1 ==> !Unoverridable(h, sub, inh, all, token, fuel, p, d)
  {
  }

  /** The filter of the search: a package-private abstract method that nothing overrides. */
  method IsUnoverridable(h: Hierarchy, sub: (Method, Method) -> bool, inh: InheritedMap, all: set<Method>,
                         token: ClassId, fuel: nat, ghost i: nat, d: Method, superClasses: seq<ClassId>)
    returns (unoverridable: bool)
    requires Wf(h)
    requires i < |SuperclassChain(h, token)| && superClasses == SuperclassChain(h, token)[..i + 1]
    requires PackageOf(h, SuperclassChain(h, token)[i]) != PackageOf(h, token)
    requires d in Declared(h, SuperclassChain(h, token)[i])
    ensures unoverridable == Unoverridable(h, sub, inh, all, token, fuel, i, d)
  {
    unoverridable := false;
    if IsPackagePrivate(d.modifiers) && IsAbstract(d) {
      var overridden := AnyOverrides(h, sub, inh, all, d, superClasses, fuel);
      unoverridable := !overridden;
    }
  }

  /** One step of the superclass walk: only a type of another package is searched. */
  method UnoverridableAt(h: Hierarchy, sub: (Method, Method) -> bool, inh: InheritedMap, all: set<Method>,
                         token: ClassId, fuel: nat, ghost i: nat, s: ClassId, superClasses: seq<ClassId>)
    returns (found: Option<Method>)
    requires Wf(h)
    requires i < |SuperclassChain(h, token)| && s == SuperclassChain(h, token)[i]
    requires superClasses == SuperclassChain(h, token)[..i + 1]
    ensures found.None? ==> forall d :: !Unoverridable(h, sub, inh, all, token, fuel, i, d)
    ensures found.Some? ==> Unoverridable(h, sub, inh, all, token, fuel, i, found.value)
  {
    if PackageOf(h, s) != PackageOf(h, token) {
      found := UnoverridableDeclared(h, sub, inh, all, token, fuel, i, s, superClasses);
    } else {
      found := None;
      forall d
        ensures !Unoverridable(h, sub, inh, all, token, fuel, i, d)
      {
        assert PackageOf(h, SuperclassChain(h, token)[i]) == PackageOf(h, token);
      }
    }
  }

  /**
   * The `while` loop of `getMethodSignatures` over the superclass chain: the first
   * package-private abstract method, declared outside the token's package, that nothing
   * overrides.
   */
  method CheckOverridable(h: Hierarchy, sub: (Method, Method) -> bool, inh: InheritedMap, all: set<Method>,
                          token: ClassId, fuel: nat) returns (rejection: Option<Rejection>)
    requires Wf(h)
    ensures rejection.None? ==> forall i: nat, d :: !Unoverridable(h, sub, inh, all, token, fuel, i, d)
    ensures rejection.Some? ==> exists i: nat, d :: && i < |SuperclassChain(h, token)|
                                                    && Unoverridable(h, sub, inh, all, token, fuel, i, d)
                                                    && rejection.value == AbstractNotOverridable(SuperclassChain(h, token)[i], d.name)
  {
    ghost var chain := SuperclassChain(h, token);
    var superClass: Option<ClassId> := Some(token);
    var superClasses: seq<ClassId> := [];
    ghost var i: nat := 0;
    while superClass.Some?
      invariant i <= |chain| && superClasses == chain[..i]
      invariant superClass.Some? <==> i < |chain|
      invariant superClass.Some? ==> superClass.value == chain[i]
      invariant forall p: nat, d :: p < i ==> !Unoverridable(h, sub, inh, all, token, fuel, p, d)
      decreases |chain| - i
    {
      var s := superClass.value;
      superClasses := superClasses + [s];
      assert superClasses == chain[..i + 1];
      var found := UnoverridableAt(h, sub, inh, all, token, fuel, i, s, superClasses);
      if found.Some? {
        assert i < |chain| && s == chain[i] && Unoverridable(h, sub, inh, all, token, fuel, i, found.value);
        return Some(AbstractNotOverridable(s, found.value.name));
      }
      NoneUnoverridableStep(h, sub, inh, all, token, fuel, i);
      SuperclassChainStep(h, token, i);
      superClass := SuperclassOf(h, s);
      i := i + 1;
    }
    assert i == |chain|;
    return None;
  }

  /** Growing the class list by one adds that class exactly when it holds an abstract method. */
  lemma WithAbstractStep(classes: seq<set<Method>>, i: nat)
    requires i < |classes|
    ensures WithAbstract(classes[..i + 1]) == WithAbstract(classes[..i]) + (if HasAbstract(classes[i]) then [classes[i]] else [])
  {
    assert classes[..i + 1][..i] == classes[..i];
  }

  /** Appending one more pair in relation `valid` keeps `Pairwise`. */
  lemma PairwiseAppend(orders: seq<seq<Method>>, sigs: seq<Sig.Signature>, valid: (seq<Method>, Sig.Signature) -> bool,
                       ms: seq<Method>, sig: Sig.Signature)
    requires Pairwise(orders, sigs, valid) && valid(ms, sig)
    ensures Pairwise(orders + [ms], sigs + [sig], valid)
  {
  }

  /** Listing the methods of the next class keeps `EnumeratesAll` for the longer prefix of classes. */
  lemma EnumeratesAllStep(classes: seq<set<Method>>, i: nat, orders: seq<seq<Method>>, ms: seq<Method>)
    requires i < |classes| && HasAbstract(classes[i])
    requires EnumeratesAll(orders, WithAbstract(classes[..i])) && Enumerates(ms, classes[i])
    ensures EnumeratesAll(orders + [ms], WithAbstract(classes[..i + 1]))
  {
    WithAbstractStep(classes, i);
  }

  /** A class without abstract methods adds nothing to list. */
  lemma EnumeratesAllSkip(classes: seq<set<Method>>, i: nat, orders: seq<seq<Method>>)
    requires i < |classes| && !HasAbstract(classes[i])
    requires EnumeratesAll(orders, WithAbstract(classes[..i]))
    ensures EnumeratesAll(orders, WithAbstract(classes[..i + 1]))
  {
    WithAbstractStep(classes, i);
  }

  /** `getCommonMethodSignature` on one class's methods, its outcome stated per class. */
  method ClassSignature(h: Hierarchy, ms: seq<Method>, forbidden: set<string>, contexts: GenericContexts)
    returns (outcome: Sig.Outcome)
    requires Wf(h)
    ensures outcome.Failed? ==> Sig.FailsWith(h, ms, outcome.reason)
    ensures outcome.Ok? ==> CommonSignatureOf(h, contexts.rawTypeToContext, forbidden)(ms, outcome.signature)
  {
    outcome := Sig.GetCommonMethodSignature(h, ms, forbidden, contexts);
    if outcome.Ok? {
      assert outcome != Sig.Failed(Sig.RawParameterType) && outcome != Sig.Failed(Sig.UncheckedCast);
      Sig.NoFailureReason(h, ms);
    }
  }

  /**
   * The first loop of `getMethodSignatures`: the common signature of each class holding an
   * abstract method, or the first reason one cannot be written.
   */
  method StubSignatures(h: Hierarchy, classes: seq<set<Method>>, forbidden: set<string>, contexts: GenericContexts)
    returns (sigs: seq<Sig.Signature>, failure: Option<Sig.Failure>, ghost orders: seq<seq<Method>>)
    requires Wf(h)
    ensures failure.None? ==> SignaturesFor(h, contexts.rawTypeToContext, classes, forbidden, orders, sigs)
    ensures failure.Some? ==> exists k, ms :: && 0 <= k < |WithAbstract(classes)|
                                              && Enumerates(ms, WithAbstract(classes)[k])
                                              && Sig.FailsWith(h, ms, failure.value)
  {
    sigs, orders := [], [];
    for i := 0 to |classes|
      invariant EnumeratesAll(orders, WithAbstract(classes[..i]))
      invariant Pairwise(orders, sigs, CommonSignatureOf(h, contexts.rawTypeToContext, forbidden))
    {
      if HasAbstract(classes[i]) {
        var ms := Enumerate(classes[i]);
        var outcome := ClassSignature(h, ms, forbidden, contexts);
        if outcome.Failed? {
          FailureWitness(h, classes, i, ms, outcome.reason);
          return sigs, Some(outcome.reason), orders;
        }
        EnumeratesAllStep(classes, i, orders, ms);
        PairwiseAppend(orders, sigs, CommonSignatureOf(h, contexts.rawTypeToContext, forbidden), ms, outcome.signature);
        sigs, orders := sigs + [outcome.signature], orders + [ms];
      } else {
        EnumeratesAllSkip(classes, i, orders);
      }
    }
    assert classes[..|classes|] == classes;
    return sigs, None, orders;
  }

  /** A class holding an abstract method whose enumeration fails names a failing class. */
  lemma FailureWitness(h: Hierarchy, classes: seq<set<Method>>, i: nat, ms: seq<Method>, f: Sig.Failure)
    requires Wf(h) && i < |classes| && HasAbstract(classes[i])
    requires Enumerates(ms, classes[i]) && Sig.FailsWith(h, ms, f)
    ensures exists k, ms :: && 0 <= k < |WithAbstract(classes)|
                            && Enumerates(ms, WithAbstract(classes)[k])
                            && Sig.FailsWith(h, ms, f)
  {
    assert classes[i] in WithAbstract(classes);
    var k :| 0 <= k < |WithAbstract(classes)| && WithAbstract(classes)[k] == classes[i];
  }

  /**
   * `getMethodSignatures`: one stub signature per override-equivalence class of member
   * methods holding an abstract method, unless a stub would need raw types or unchecked
   * casts, a stub would clash with a member of the same erasure, or a package-private
   * abstract method of a superclass in another package cannot be overridden.
   */
  method GetMethodSignatures(h: Hierarchy, token: ClassId, fuel: nat) returns (r: SignaturesOutcome, ghost classes: seq<set<Method>>)
    requires Wf(h)
    ensures Partition(classes, MemberMethods(h, token, fuel))
    ensures Connected(classes, OverrideEquivalence(h, StoreOf(h, token)))
    ensures r.Signatures? ==>
              && (exists orders :: SignaturesFor(h, StoreOf(h, token), classes, ForbiddenNames(h, token), orders, r.signatures))
              && (forall sig, m :: sig in r.signatures && m in MemberMethods(h, token, fuel) ==> !Clash(h, StoreOf(h, token), sig, m))
              && (forall i: nat, d :: !Unoverridable(h, SubSignatureOf(h, StoreOf(h, token)), InheritedFor(h, token, fuel), AllMethods(h, token), token, fuel, i, d))
    ensures r.Rejected? && r.rejection.SignatureFailure? ==>
              exists k, ms :: && 0 <= k < |WithAbstract(classes)|
                              && Enumerates(ms, WithAbstract(classes)[k])
                              && Sig.FailsWith(h, ms, r.rejection.reason)
    ensures r == Rejected(NonAbstractImpossible) ==>
              exists orders, sigs, sig, m :: && SignaturesFor(h, StoreOf(h, token), classes, ForbiddenNames(h, token), orders, sigs)
                                     && sig in sigs && m in MemberMethods(h, token, fuel)
                                     && Clash(h, StoreOf(h, token), sig, m)
    ensures r.Rejected? && r.rejection.AbstractNotOverridable? ==>
              exists i: nat, d :: && Unoverridable(h, SubSignatureOf(h, StoreOf(h, token)), InheritedFor(h, token, fuel), AllMethods(h, token), token, fuel, i, d)
                                  && r.rejection.name == d.name
  {
    var contexts := GetContexts(h, token);
    var store := contexts.rawTypeToContext;
    var quotient := GetQuotientSetOfMemberMethods(h, token, fuel);
    classes := quotient;
    var forbidden := ForbiddenNames(h, token);
    var sigs, failure, orders := StubSignatures(h, quotient, forbidden, contexts);
    if failure.Some? {
      return Rejected(SignatureFailure(failure.value)), classes;
    }
    if exists k, m, sig :: 0 <= k < |quotient| && m in quotient[k] && sig in sigs && Clash(h, store, sig, m) {
      return Rejected(NonAbstractImpossible), classes;
    }
    var all := AllMethods(h, token);
    var inherited := GetInheritedMethods(h, SubSignatureOf(h, store), all, token, fuel);
    var rejection := CheckOverridable(h, SubSignatureOf(h, store), inherited, all, token, fuel);
    if rejection.Some? {
      return Rejected(rejection.value), classes;
    }
    return Signatures(sigs), classes;
  }
}
