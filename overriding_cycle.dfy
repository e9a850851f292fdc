/**
 * Three abstract classes in three packages, each declaring a package-private abstract
 * `Object f()`:
 *
 *   package p1; public abstract class A { abstract Object f(); }
 *   package p2; public abstract class B extends A { abstract Object f(); }
 *   package p3; public abstract class C extends B { Object f() { return null; } }
 *
 * Neither `A.f` nor `B.f` can be overridden from outside its package, so no subclass of
 * `C` can be concrete. Asked whether `C.f` overrides `B.f` from `C`, the source's walk
 * asks whether `C.f` overrides `A.f` from `C`, and that question asks the first one again.
 */
module OverridingCycle {
  import opened JavaTypes
  import opened Contexts
  import opened GenericUtils
  import opened MethodUtils

  const Af: Method := Method(0, 1, "f", [], [], ObjectType, 0x400, false)
  const Bf: Method := Method(1, 2, "f", [], [], ObjectType, 0x400, false)
  const Cf: Method := Method(2, 3, "f", [], [], ObjectType, 0x0, false)

  const ObjectDecl: ClassDecl := ClassDecl("java.lang.Object", "java.lang", 0x1, false, false, None, [], None, [], [])
  const ADecl: ClassDecl := ClassDecl("p1.A", "p1", 0x401, false, false, None, [], Some(Class(Named(0))), [], [Af])
  const BDecl: ClassDecl := ClassDecl("p2.B", "p2", 0x401, false, false, None, [], Some(Class(Named(1))), [], [Bf])
  const CDecl: ClassDecl := ClassDecl("p3.C", "p3", 0x401, false, false, None, [], Some(Class(Named(2))), [], [Cf])

  const H3: Hierarchy := Hierarchy([ObjectDecl, ADecl, BDecl, CDecl], [])

  lemma H3Wf()
    ensures Wf(H3)
  {
    H3WfObject();
    H3WfClass(1);
    H3WfClass(2);
    H3WfClass(3);
  }

  lemma H3WfObject()
    ensures WfClass(H3, 0)
  {
    assert ExtendedTypes(H3, 0) == [];
  }

  /** `A`, `B` and `C` each extend the class before them and implement nothing. */
  lemma H3WfClass(c: ClassId)
    requires 1 <= c <= 3
    ensures WfClass(H3, c)
  {
    assert H3.classes[c].superclass == Some(Class(Named(c - 1)));
    assert forall t :: t in ExtendedTypes(H3, c) ==> !t.Parameterized?;
  }

  /** `B` and `A` are supertypes of `C`; `B` is not a supertype of `A`. */
  lemma H3Assignable()
    requires Wf(H3)
    ensures ClassAssignable(H3, Named(2), Named(3))
    ensures ClassAssignable(H3, Named(1), Named(3))
    ensures !ClassAssignable(H3, Named(2), Named(1))
  {
    assert SuperIds(H3, 3) == [2] && SuperIds(H3, 2) == [1] && SuperIds(H3, 1) == [0] && SuperIds(H3, 0) == [];
    assert ClassAssignable(H3, Named(2), Named(2));
    assert ClassAssignable(H3, Named(1), Named(2));
    assert !ClassAssignable(H3, Named(2), Named(0));
  }

  /** Both questions about `C.f` get past every test to the walk up from `B`. */
  lemma CycleReachesWalk(sub: (Method, Method) -> bool, inh: InheritedMap)
    requires sub(Cf, Af) && sub(Cf, Bf)
    requires Af !in InheritedOf(inh, 3) && Bf !in InheritedOf(inh, 3)
    ensures Wf(H3) && ReachesWalk(H3, sub, inh, Cf, Bf, 3) && ReachesWalk(H3, sub, inh, Cf, Af, 3)
    ensures SuperclassOf(H3, 3) == Some(2)
  {
    H3Wf();
    H3Assignable();
    assert Cf in DeclaredSet(H3, 3);
  }

  /** From `B`, `C.f` overrides neither `B.f` nor `A.f`: it is not a member of `B`. */
  lemma CycleFromB(sub: (Method, Method) -> bool, inh: InheritedMap, all: seq<Method>, fuel: nat)
    requires Cf !in InheritedOf(inh, 2)
    ensures Wf(H3) && OverridesFromAsWritten(H3, sub, inh, all, Cf, Bf, 2, fuel) == Some(false)
    ensures Wf(H3) && OverridesFromAsWritten(H3, sub, inh, all, Cf, Af, 2, fuel) == Some(false)
  {
    H3Wf();
    assert Cf !in Members(H3, inh, 2);
  }

  /**
   * As written, whatever the order in which the loop visits `A.f`, `B.f` and `C.f`, neither
   * question ever gets an answer: each waits for the other.
   */
  lemma {:induction false} AsWrittenNeverAnswers(sub: (Method, Method) -> bool, inh: InheritedMap, all: seq<Method>,
                                                  fuel: nat)
    requires sub(Cf, Af) && sub(Cf, Bf)
    requires Af !in InheritedOf(inh, 3) && Bf !in InheritedOf(inh, 3) && Cf !in InheritedOf(inh, 2)
    requires forall m :: m in all ==> m in {Af, Bf, Cf}
    requires Af in all && Bf in all
    ensures Wf(H3) && OverridesFromAsWritten(H3, sub, inh, all, Cf, Bf, 3, fuel).None?
    ensures Wf(H3) && OverridesFromAsWritten(H3, sub, inh, all, Cf, Af, 3, fuel).None?
    decreases fuel
  {
    CycleReachesWalk(sub, inh);
    if fuel > 0 {
      AsWrittenNeverAnswers(sub, inh, all, fuel - 1);
      CycleFromB(sub, inh, all, fuel - 1);
      var ka :| 0 <= ka < |all| && all[ka] == Af;
      forall k | 0 <= k < |all| && all[k] != Bf && all[k] != Cf
        ensures OverridesFromAsWritten(H3, sub, inh, all, Cf, all[k], 3, fuel - 1).None?
      {
        assert all[k] in all;
      }
      BridgeLoopAsWrittenStuck(H3, sub, inh, all, Cf, Bf, 3, 2, 0, fuel - 1);
      WalkAsWrittenStuck(H3, sub, inh, all, Cf, Bf, 3, 2, fuel);
      var kb :| 0 <= kb < |all| && all[kb] == Bf;
      forall k | 0 <= k < |all| && all[k] != Af && all[k] != Cf
        ensures OverridesFromAsWritten(H3, sub, inh, all, Cf, all[k], 3, fuel - 1).None?
      {
        assert all[k] in all;
      }
      BridgeLoopAsWrittenStuck(H3, sub, inh, all, Cf, Af, 3, 2, 0, fuel - 1);
      WalkAsWrittenStuck(H3, sub, inh, all, Cf, Af, 3, 2, fuel);
    }
  }

  /**
   * Nothing is inherited anywhere: `A` and `B` inherit nothing from above, and the abstract
   * package-private `A.f` and `B.f` are not accessible from the next package down.
   */
  lemma H3InheritsNothing(sub: (Method, Method) -> bool, all: set<Method>, fuel: nat)
    ensures Wf(H3) && forall c :: InheritedOf(Inherited(H3, sub, all, 3, fuel), c) == {}
  {
    H3Wf();
    var own := OwnStepOf(H3, sub, all, fuel);
    var i0 := InheritedWith(H3, own, 0);
    assert i0 == map[0 := {}];
    assert OwnInherited(H3, sub, all, 1, i0, fuel) == {} by {
      assert SuperMembers(H3, i0, 1) == {};
    }
    var i1 := InheritedWith(H3, own, 1);
    assert i1 == i0[1 := {}];
    assert OwnInherited(H3, sub, all, 2, i1, fuel) == {} by {
      assert SuperMembers(H3, i1, 2) == {Af};
      assert !IsAccessibleFrom(H3, Af, 2);
    }
    var i2 := InheritedWith(H3, own, 2);
    assert i2 == i1[2 := {}];
    assert OwnInherited(H3, sub, all, 3, i2, fuel) == {} by {
      assert SuperMembers(H3, i2, 3) == {Bf};
      assert !IsAccessibleFrom(H3, Bf, 3);
    }
    assert Inherited(H3, sub, all, 3, fuel) == i2[3 := {}];
  }

  /** `C.f` has a subsignature of `A.f` and of `B.f`: same name, no parameters. */
  lemma H3SubSignatures(store: map<ClassId, Context>)
    ensures Wf(H3) && SubSignatureOf(H3, store)(Cf, Af) && SubSignatureOf(H3, store)(Cf, Bf)
  {
    H3Wf();
    assert ErasedParams(H3, Af) == [] && ErasedParams(H3, Bf) == [];
  }

  /** With a single direct supertype, `getAllMethods` adds the type's declarations to that one's. */
  lemma AllMethodsOneSuper(h: Hierarchy, c: ClassId, s: ClassId)
    requires Wf(h) && SuperIds(h, c) == [s]
    ensures AllMethods(h, c) == DeclaredSet(h, c) + AllMethods(h, s)
  {
    SuperIdsBelow(h, c);
    var above := set s', m | s' in SuperIds(h, c) && m in AllMethods(h, s') :: m;
    assert forall m :: m in above <==> m in AllMethods(h, s);
  }

  /** `getAllMethods(C)` collects the three declarations of `f`. */
  lemma H3AllMethods()
    ensures Wf(H3) && AllMethods(H3, 3) == {Af, Bf, Cf}
  {
    H3Wf();
    assert AllMethods(H3, 0) == {} by {
      assert SuperIds(H3, 0) == [] && DeclaredSet(H3, 0) == {};
    }
    assert SuperIds(H3, 1) == [0] && DeclaredSet(H3, 1) == {Af};
    AllMethodsOneSuper(H3, 1, 0);
    assert SuperIds(H3, 2) == [1] && DeclaredSet(H3, 2) == {Bf};
    AllMethodsOneSuper(H3, 2, 1);
    assert SuperIds(H3, 3) == [2] && DeclaredSet(H3, 3) == {Cf};
    AllMethodsOneSuper(H3, 3, 2);
  }

  /**
   * As written, the engine's question whether `C.f` overrides `B.f` from `C` never gets an
   * answer, in whatever order `getAllMethods(C)` is visited: the source overflows its stack.
   */
  lemma OverridingCycleAsWritten(store: map<ClassId, Context>, all: seq<Method>, inheritFuel: nat, fuel: nat)
    requires forall m :: m in all ==> m in {Af, Bf, Cf}
    requires Af in all && Bf in all
    ensures Wf(H3) && OverridesFromAsWritten(H3, SubSignatureOf(H3, store),
                                             Inherited(H3, SubSignatureOf(H3, store), AllMethods(H3, 3), 3, inheritFuel),
                                             all, Cf, Bf, 3, fuel).None?
  {
    var sub := SubSignatureOf(H3, store);
    H3SubSignatures(store);
    H3InheritsNothing(sub, AllMethods(H3, 3), inheritFuel);
    AsWrittenNeverAnswers(sub, Inherited(H3, sub, AllMethods(H3, 3), 3, inheritFuel), all, fuel);
  }

  /** No method overrides `B.f` from `B`, from `A` (not a subtype of `B`) or from `Object`. */
  lemma BfNotOverriddenAbove(sub: (Method, Method) -> bool, inh: InheritedMap, all: set<Method>, m: Method, fuel: nat)
    ensures Wf(H3) && !OverridesFrom(H3, sub, inh, all, m, Bf, 2, fuel)
    ensures Wf(H3) && !OverridesFrom(H3, sub, inh, all, m, Bf, 1, fuel)
    ensures Wf(H3) && !OverridesFrom(H3, sub, inh, all, m, Bf, 0, fuel)
  {
    H3Wf();
    H3Assignable();
  }

  /**
   * Nor from `C`: the walk up from `B` finds no overrider there or above, and a candidate
   * in between would itself have to override `B.f` from one of those types.
   */
  lemma BfNotOverriddenFromC(sub: (Method, Method) -> bool, inh: InheritedMap, all: set<Method>, m: Method, fuel: nat)
    ensures Wf(H3) && !OverridesFrom(H3, sub, inh, all, m, Bf, 3, fuel)
  {
    H3Wf();
    forall k | k in all
      ensures !OverridesFrom(H3, sub, inh, all, k, Bf, 2, fuel)
      ensures !OverridesFrom(H3, sub, inh, all, k, Bf, 1, fuel)
      ensures !OverridesFrom(H3, sub, inh, all, k, Bf, 0, fuel)
    {
      BfNotOverriddenAbove(sub, inh, all, k, fuel);
    }
    BfNotOverriddenAbove(sub, inh, all, m, fuel);
    assert !OverridesViaSuperclasses(H3, sub, inh, all, m, Bf, 3, Some(0), fuel);
    assert !OverridesViaSuperclasses(H3, sub, inh, all, m, Bf, 3, Some(1), fuel);
    assert !OverridesViaSuperclasses(H3, sub, inh, all, m, Bf, 3, Some(2), fuel);
  }

  /**
   * The intended answer: `B.f`, package-private and abstract in another package than `C`,
   * can be overridden from neither `C` nor `B`, whatever the bound on the walk.
   */
  lemma OverridingCycleUnoverridable(sub: (Method, Method) -> bool, inh: InheritedMap, all: set<Method>, fuel: nat)
    ensures Wf(H3) && Unoverridable(H3, sub, inh, all, 3, fuel, 1, Bf)
  {
    H3Wf();
    assert SuperclassChain(H3, 3)[..2] == [3, 2];
    forall m | m in all
      ensures !OverridesFrom(H3, sub, inh, all, m, Bf, 3, fuel) && !OverridesFrom(H3, sub, inh, all, m, Bf, 2, fuel)
    {
      BfNotOverriddenFromC(sub, inh, all, m, fuel);
      BfNotOverriddenAbove(sub, inh, all, m, fuel);
    }
  }

  /** So the engine refuses to implement `C`. */
  method OverridingCycleRejected(fuel: nat) returns (r: SignaturesOutcome)
    ensures r.Rejected?
  {
    H3Wf();
    OverridingCycleUnoverridable(SubSignatureOf(H3, StoreOf(H3, 3)), InheritedFor(H3, 3, fuel), AllMethods(H3, 3), fuel);
    ghost var classes;
    r, classes := GetMethodSignatures(H3, 3, fuel);
  }
}
