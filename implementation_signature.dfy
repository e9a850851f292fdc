/**
 * The signature of one stub the generated subclass must declare, built from a class of
 * override-equivalent methods: the common access level, fresh type-parameter names with
 * rewritten bounds, the most specific return type and a reference method whose signature
 * the stub copies.
 */
module ImplementationMethodSignature {
  import opened JavaTypes
  import opened Contexts
  import opened GenericUtils

  // ---------------------------------------------------------------- getCommonAccessModifier

  /** Access levels from most to least accessible: public, protected, package, private. */
  const ORDERED_ACCESS_MODIFIERS: seq<bv32> := [0x1, 0x4, 0x0, 0x2]

  /** `getModifiers() & ACCESS_MODIFIERS`. */
  function AccessBits(m: Method): bv32 {
    m.modifiers & 0x7
  }

  /** `List.indexOf`: the first position of `x`, or -1 when it is absent. */
  function IndexOf<T(==)>(s: seq<T>, x: T): (r: int)
    ensures -1 <= r < |s|
    ensures r >= 0 ==> s[r] == x && forall j :: 0 <= j < r ==> s[j] != x
    ensures r == -1 <==> x !in s
  {
    if |s| == 0 then -1
    else if s[0] == x then 0
    else var r := IndexOf(s[1..], x); if r == -1 then -1 else r + 1
  }

  /** The key of `ACCESS_MODIFIER_COMPARATOR`: the method's position in the access order. */
  function AccessRank(m: Method): int {
    IndexOf(ORDERED_ACCESS_MODIFIERS, AccessBits(m))
  }

  /** `Stream.min` under the access comparator: the first method of least rank. */
  function MostAccessible(ms: seq<Method>): (r: Method)
    requires |ms| > 0
    ensures r in ms
    ensures forall m :: m in ms ==> AccessRank(r) <= AccessRank(m)
  {
    if |ms| == 1 then ms[0]
    else
      var rest := MostAccessible(ms[1..]);
      var first := AccessRank(ms[0]);
      assert forall m :: m in ms ==> m == ms[0] || m in ms[1..];
      if first <= AccessRank(rest) then ms[0] else rest
  }

  /**
   * `getCommonAccessModifier`: the access bits of the most accessible method, so that the
   * stub may override every method of the class.
   */
  function CommonAccessModifier(ms: seq<Method>): bv32
    requires |ms| > 0
  {
    AccessBits(MostAccessible(ms))
  }

  /**
   * The common access level is that of some method of the class and at least as accessible
   * as each: public when one method is public, private only when all are.
   */
  lemma CommonAccessModifierAdmitsAll(ms: seq<Method>)
    requires |ms| > 0
    ensures var r := CommonAccessModifier(ms);
            && (exists m :: m in ms && r == AccessBits(m))
            && (forall m :: m in ms ==> IndexOf(ORDERED_ACCESS_MODIFIERS, r) <= AccessRank(m))
            && ((forall m :: m in ms ==> AccessBits(m) in ORDERED_ACCESS_MODIFIERS) && (exists m :: m in ms && AccessBits(m) == 0x1)
                ==> r == 0x1)
            && ((forall m :: m in ms ==> AccessBits(m) == 0x2) ==> r == 0x2)
            && (r == 0x0 ==> forall m :: m in ms ==> AccessBits(m) in {0x0, 0x2})
  {
    var w := MostAccessible(ms);
    OrderedRank(AccessBits(w));
    forall m | m in ms
      ensures AccessRank(m) == RankOf(AccessBits(m))
    {
      OrderedRank(AccessBits(m));
    }
  }

  /** The position of the access bits `b` in `ORDERED_ACCESS_MODIFIERS`, written out. */
  function RankOf(b: bv32): int {
    if b == 0x1 then 0 else if b == 0x4 then 1 else if b == 0x0 then 2 else if b == 0x2 then 3 else -1
  }

  lemma OrderedRank(b: bv32)
    ensures IndexOf(ORDERED_ACCESS_MODIFIERS, b) == RankOf(b)
  {
    var o := ORDERED_ACCESS_MODIFIERS;
    if b == 0x1 {
      assert o[0] == b;
    } else if b == 0x4 {
      assert o[1] == b;
    } else if b == 0x0 {
      assert o[2] == b;
    } else if b == 0x2 {
      assert o[3] == b;
    } else {
      assert forall j :: 0 <= j < |o| ==> o[j] != b;
    }
  }

  // ---------------------------------------------------------------- getCommonTypeParameters

  /**
   * `getCommonTypeParameters`: none when some method is not generic, otherwise the type
   * parameters of the first method.
   */
  function CommonTypeParameters(ms: seq<Method>): (r: seq<VarId>)
    requires |ms| > 0
    ensures |r| == 0 <==> exists m :: m in ms && |m.typeParams| == 0
    ensures |r| > 0 ==> r == ms[0].typeParams
  {
    if exists m :: m in ms && |m.typeParams| == 0 then [] else ms[0].typeParams
  }

  // ---------------------------------------------------------------- fresh names

  function DigitChar(d: nat): char
    requires d < 10
  {
    "0123456789"[d]
  }

  /** `String.valueOf(k)` for a non-negative `int`. */
  function NatStr(k: nat): (r: string)
    ensures |r| > 0
    ensures k >= 10 ==> |r| >= 2
    decreases k
  {
    if k < 10 then [DigitChar(k)] else NatStr(k / 10) + [DigitChar(k % 10)]
  }

  lemma {:induction false} NatStrInjective(a: nat, b: nat)
    requires NatStr(a) == NatStr(b)
    ensures a == b
    decreases a
  {
    if a >= 10 && b >= 10 {
      var sa, sb := NatStr(a), NatStr(b);
      assert sa[|sa| - 1] == DigitChar(a % 10) && sb[|sb| - 1] == DigitChar(b % 10);
      assert sa[..|sa| - 1] == NatStr(a / 10) && sb[..|sb| - 1] == NatStr(b / 10);
      NatStrInjective(a / 10, b / 10);
    }
  }

  /** The `k`-th candidate name of a generated type parameter, `"Var" + k`. */
  function GeneratedName(k: nat): string {
    "Var" + NatStr(k)
  }

  lemma GeneratedNameInjective(a: nat, b: nat)
    requires GeneratedName(a) == GeneratedName(b)
    ensures a == b
  {
    assert NatStr(a) == GeneratedName(a)[3..];
    assert NatStr(b) == GeneratedName(b)[3..];
    NatStrInjective(a, b);
  }

  lemma SubsetSmaller(a: set<string>, b: set<string>)
    requires a <= b
    ensures |a| <= |b|
  {
    if a != {} {
      var x :| x in a;
      SubsetSmaller(a - {x}, b - {x});
    }
  }

  ghost predicate IsGeneratedName(s: string) {
    exists k: nat :: s == GeneratedName(k)
  }

  /** The inner `while` loop: the first index from `idx` on whose name is not forbidden. */
  method NextFreeIndex(idx: nat, forbidden: set<string>) returns (next: nat)
    ensures idx <= next && GeneratedName(next) !in forbidden
    ensures forall k :: idx <= k < next ==> GeneratedName(k) in forbidden
  {
    next := idx;
    ghost var seen: set<string> := {};
    while GeneratedName(next) in forbidden
      invariant idx <= next
      invariant seen <= forbidden
      invariant forall k: nat :: next <= k ==> GeneratedName(k) !in seen
      invariant forall k :: idx <= k < next ==> GeneratedName(k) in forbidden
      decreases |forbidden| - |seen|
    {
      forall k: nat | next + 1 <= k
        ensures GeneratedName(k) != GeneratedName(next)
      {
        if GeneratedName(k) == GeneratedName(next) {
          GeneratedNameInjective(k, next);
        }
      }
      seen := seen + {GeneratedName(next)};
      SubsetSmaller(seen, forbidden);
      next := next + 1;
    }
  }

  /**
   * The name loop of `getCommonMethodSignature`: `count` names `Var<k>` with increasing `k`,
   * each the next one not in `forbidden`.
   */
  method FreshTypeParameterNames(count: nat, forbidden: set<string>) returns (names: seq<string>)
    ensures |names| == count
    ensures forall i :: 0 <= i < |names| ==> names[i] !in forbidden
    ensures forall i :: 0 <= i < |names| ==> IsGeneratedName(names[i])
    ensures forall i, j, a: nat, b: nat :: 0 <= i < j < |names| && names[i] == GeneratedName(a) && names[j] == GeneratedName(b) ==> a < b
    ensures forall i, j :: 0 <= i < j < |names| ==> names[i] != names[j]
    ensures forall i, a: nat, k: nat :: 0 <= i < |names| && names[i] == GeneratedName(a) && k < a && GeneratedName(k) !in forbidden
              ==> GeneratedName(k) in names[..i]
  {
    ghost var ks;
    var idx;
    names, ks, idx := NameLoop(count, forbidden);
    LeastFreeIndices(names, ks, forbidden, idx);
    LeastFreeIndicesNoGap(names, ks, forbidden, idx);
  }

  /**
   * The loop of `getCommonMethodSignature` that picks the names: `names` are `Var<k>` for
   * the increasing free indices `ks`, all below `idx`, and every free index below `idx` is taken.
   */
  method NameLoop(count: nat, forbidden: set<string>) returns (names: seq<string>, ghost ks: seq<nat>, idx: nat)
    ensures |names| == |ks| == count
    ensures forall p :: 0 <= p < count ==> names[p] == GeneratedName(ks[p]) && names[p] !in forbidden && ks[p] < idx
    ensures forall p, q :: 0 <= p < q < count ==> ks[p] < ks[q]
    ensures forall k: nat :: k < idx && GeneratedName(k) !in forbidden ==> k in ks
  {
    names := [];
    ks := [];
    idx := 0;
    for i := 0 to count
      invariant |names| == |ks| == i
      invariant forall p :: 0 <= p < i ==> names[p] == GeneratedName(ks[p]) && names[p] !in forbidden && ks[p] < idx
      invariant forall p, q :: 0 <= p < q < i ==> ks[p] < ks[q]
      invariant forall k: nat :: k < idx && GeneratedName(k) !in forbidden ==> k in ks
    {
      idx := NextFreeIndex(idx, forbidden);
      names := names + [GeneratedName(idx)];
      ks := ks + [idx];
      idx := idx + 1;
    }
  }

  /** Names built from increasing indices that take every free index below `idx`. */
  lemma LeastFreeIndices(names: seq<string>, ks: seq<nat>, forbidden: set<string>, idx: nat)
    requires |names| == |ks|
    requires forall p :: 0 <= p < |ks| ==> names[p] == GeneratedName(ks[p]) && names[p] !in forbidden && ks[p] < idx
    requires forall p, q :: 0 <= p < q < |ks| ==> ks[p] < ks[q]
    requires forall k: nat :: k < idx && GeneratedName(k) !in forbidden ==> k in ks
    ensures forall i :: 0 <= i < |names| ==> IsGeneratedName(names[i])
    ensures forall i, j, a: nat, b: nat :: 0 <= i < j < |names| && names[i] == GeneratedName(a) && names[j] == GeneratedName(b) ==> a < b
    ensures forall i, j :: 0 <= i < j < |names| ==> names[i] != names[j]
  {
    forall i, j, a: nat, b: nat | 0 <= i < j < |names| && names[i] == GeneratedName(a) && names[j] == GeneratedName(b)
      ensures a < b
    {
      GeneratedNameInjective(a, ks[i]);
      GeneratedNameInjective(b, ks[j]);
    }
    forall i | 0 <= i < |names|
      ensures IsGeneratedName(names[i])
    {
      var k: nat := ks[i];
      assert names[i] == GeneratedName(k);
    }
    forall i, j | 0 <= i < j < |names|
      ensures names[i] != names[j]
    {
      assert names[j] == GeneratedName(ks[j]) && names[i] == GeneratedName(ks[i]);
    }
  }

  /** Such names leave no free `Var<k>` below one of them to a later position. */
  lemma LeastFreeIndicesNoGap(names: seq<string>, ks: seq<nat>, forbidden: set<string>, idx: nat)
    requires |names| == |ks|
    requires forall p :: 0 <= p < |ks| ==> names[p] == GeneratedName(ks[p]) && ks[p] < idx
    requires forall p, q :: 0 <= p < q < |ks| ==> ks[p] < ks[q]
    requires forall k: nat :: k < idx && GeneratedName(k) !in forbidden ==> k in ks
    ensures forall i, a: nat, k: nat :: 0 <= i < |names| && names[i] == GeneratedName(a) && k < a && GeneratedName(k) !in forbidden
              ==> GeneratedName(k) in names[..i]
  {
    forall i, a: nat, k: nat | 0 <= i < |names| && names[i] == GeneratedName(a) && k < a && GeneratedName(k) !in forbidden
      ensures GeneratedName(k) in names[..i]
    {
      GeneratedNameInjective(a, ks[i]);
      var p :| 0 <= p < |ks| && ks[p] == k;
      assert p < i && names[..i][p] == GeneratedName(k);
    }
  }

  // ---------------------------------------------------------------- GeneratedTypeVariable

  /**
   * A type variable the stub declares. It has a name and an array of bounds; the bounds
   * start as a copy of the reference variable's bounds and are rewritten in place.
   */
  class GeneratedTypeVariable {
    const name: string
    const bounds: array<Type>

    constructor (bs: seq<Type>, name: string)
      ensures this.name == name && bounds[..] == bs && fresh(bounds)
    {
      this.name := name;
      bounds := new Type[|bs|](i requires 0 <= i < |bs| => bs[i]);
    }

    /** `setBound`: bound `idx` becomes `bound`; the other bounds stay. */
    method SetBound(idx: nat, bound: Type)
      requires idx < bounds.Length
      modifies bounds
      ensures bounds[..] == old(bounds[..])[idx := bound]
    {
      bounds[idx] := bound;
    }
  }

  /**
   * A bound equal to the `k`-th reference type parameter (the first such `k`) becomes the
   * `k`-th generated variable, numbered from `base`; any other bound stays as it is.
   */
  function RewrittenBound(b: Type, refs: seq<VarId>, base: nat): Type {
    if b.Var? && IndexOf(refs, b.id) >= 0 then Var(base + IndexOf(refs, b.id)) else b
  }

  /** A bound matching reference parameter `k` first becomes generated variable `k`; others stay. */
  lemma RewrittenBoundCases(b: Type, refs: seq<VarId>, base: nat, k: nat)
    requires k <= |refs|
    requires k < |refs| ==> b == Var(refs[k]) && forall p :: 0 <= p < k ==> b != Var(refs[p])
    requires k == |refs| ==> forall p :: 0 <= p < |refs| ==> b != Var(refs[p])
    ensures k < |refs| ==> RewrittenBound(b, refs, base) == Var(base + k)
    ensures k == |refs| ==> RewrittenBound(b, refs, base) == b
  {
    if k == |refs| && b.Var? {
      assert forall p :: 0 <= p < |refs| ==> refs[p] != b.id;
    }
  }

  function RewrittenBounds(bs: seq<Type>, refs: seq<VarId>, base: nat): (r: seq<Type>)
    ensures |r| == |bs|
    ensures forall j :: 0 <= j < |bs| ==> r[j] == RewrittenBound(bs[j], refs, base)
  {
    seq(|bs|, j requires 0 <= j < |bs| => RewrittenBound(bs[j], refs, base))
  }

  /** The `k` loop: the first reference type parameter equal to `b`, or `|refs|`. */
  method MatchingParameter(b: Type, refs: seq<VarId>) returns (k: nat)
    ensures k <= |refs|
    ensures k < |refs| ==> b == Var(refs[k]) && forall p :: 0 <= p < k ==> b != Var(refs[p])
    ensures k == |refs| ==> forall p :: 0 <= p < |refs| ==> b != Var(refs[p])
  {
    k := 0;
    while k < |refs|
      invariant k <= |refs|
      invariant forall p :: 0 <= p < k ==> b != Var(refs[p])
    {
      if b == Var(refs[k]) {
        return;
      }
      k := k + 1;
    }
  }

  /** The `j` loop for one generated variable. */
  method RewriteBoundsOf(g: GeneratedTypeVariable, refs: seq<VarId>, base: nat)
    modifies g.bounds
    ensures g.bounds[..] == RewrittenBounds(old(g.bounds[..]), refs, base)
  {
    ghost var before := g.bounds[..];
    for j := 0 to g.bounds.Length
      invariant forall p :: 0 <= p < j ==> g.bounds[p] == RewrittenBound(before[p], refs, base)
      invariant forall p :: j <= p < g.bounds.Length ==> g.bounds[p] == before[p]
    {
      var k := MatchingParameter(g.bounds[j], refs);
      RewrittenBoundCases(g.bounds[j], refs, base, k);
      if k < |refs| {
        g.SetBound(j, Var(base + k));
      }
    }
    assert g.bounds[..] == RewrittenBounds(before, refs, base);
  }

  /** The rewriting loop over every generated variable; their bound arrays are distinct. */
  method RewriteAllBounds(gens: seq<GeneratedTypeVariable>, refs: seq<VarId>, base: nat)
    requires forall i, j :: 0 <= i < j < |gens| ==> gens[i].bounds != gens[j].bounds
    modifies set g | g in gens :: g.bounds
    ensures forall i :: 0 <= i < |gens| ==> gens[i].bounds[..] == RewrittenBounds(old(gens[i].bounds[..]), refs, base)
  {
    for i := 0 to |gens|
      invariant forall p :: 0 <= p < i ==> gens[p].bounds[..] == RewrittenBounds(old(gens[p].bounds[..]), refs, base)
      invariant forall p :: i <= p < |gens| ==> gens[p].bounds[..] == old(gens[p].bounds[..])
    {
      RewriteBoundsOf(gens[i], refs, base);
    }
  }

  // ---------------------------------------------------------------- isAssignable

  /** How many array and parameterized layers lie above the type's core. */
  function TypeDepth(t: Type): nat {
    match t
    case Parameterized(_, _) => 1
    case GenericArray(c) => 1 + TypeDepth(c)
    case _ => 0
  }

  /**
   * `isAssignable(type1, type2)`, corrected: whether a value of `type2` can be assigned to
   * `type1`, where a class target meets a generic array through its component type.
   */
  function IsAssignable(h: Hierarchy, type1: Type, type2: Type): (r: bool)
    requires Wf(h)
    ensures type1 == type2 ==> r
    ensures type1.Var? && type2.Class? ==> !r
    ensures type1.Class? && type2.Class? ==> (r <==> type1 == type2 || ClassAssignable(h, type1.ref, type2.ref))
    decreases VarRank(type2), TypeDepth(type2), type1
  {
    if type1 == type2 then true
    else match type2
      case Class(c2) =>
        (match type1
         case Class(c1) => ClassAssignable(h, c1, c2)
         case GenericArray(comp1) => c2.ArrayOf? && IsAssignable(h, comp1, Class(c2.component))
         case Parameterized(raw, _) => ClassAssignable(h, Named(raw), c2)
         case Var(_) => false
         case Wildcard(_, lo) => exists i :: 0 <= i < |lo| && IsAssignable(h, lo[i], type2))
      case GenericArray(comp2) =>
        (match type1
         case Class(c1) => c1 == Named(ObjectId) || (c1.ArrayOf? && IsAssignable(h, Class(c1.component), comp2))
         case GenericArray(comp1) => IsAssignable(h, comp1, comp2)
         case _ => false)
      case Parameterized(raw, _) => IsAssignable(h, type1, Class(Named(raw)))
      case Var(v) =>
        BoundsRanked(h, v);
        exists i :: 0 <= i < |Bounds(h, v)| && IsAssignable(h, type1, Bounds(h, v)[i])
      case Wildcard(up, _) =>
        UpperBoundsRanked(type2);
        exists i :: 0 <= i < |up| && IsAssignable(h, type1, up[i])
  }

  /**
   * `isAssignable` as written: a class target meets a generic array through
   * `clazz.arrayType()`, the array of the class, where its component type is meant.
   */
  function IsAssignableAsWritten(h: Hierarchy, type1: Type, type2: Type): (r: bool)
    requires Wf(h)
    ensures type1 == type2 ==> r
    decreases VarRank(type2), TypeDepth(type2), type1
  {
    if type1 == type2 then true
    else match type2
      case Class(c2) =>
        (match type1
         case Class(c1) => ClassAssignable(h, c1, c2)
         case GenericArray(comp1) => c2.ArrayOf? && IsAssignableAsWritten(h, comp1, Class(c2.component))
         case Parameterized(raw, _) => ClassAssignable(h, Named(raw), c2)
         case Var(_) => false
         case Wildcard(_, lo) => exists i :: 0 <= i < |lo| && IsAssignableAsWritten(h, lo[i], type2))
      case GenericArray(comp2) =>
        (match type1
         case Class(c1) => c1 == Named(ObjectId) || (c1.ArrayOf? && IsAssignableAsWritten(h, Class(ArrayOf(c1)), comp2))
         case GenericArray(comp1) => IsAssignableAsWritten(h, comp1, comp2)
         case _ => false)
      case Parameterized(raw, _) => IsAssignableAsWritten(h, type1, Class(Named(raw)))
      case Var(v) =>
        BoundsRanked(h, v);
        exists i :: 0 <= i < |Bounds(h, v)| && IsAssignableAsWritten(h, type1, Bounds(h, v)[i])
      case Wildcard(up, _) =>
        UpperBoundsRanked(type2);
        exists i :: 0 <= i < |up| && IsAssignableAsWritten(h, type1, up[i])
  }

  /**
   * A generic array whose component is a class is accepted by an array class exactly as
   * the corresponding array class is (components not primitive).
   */
  lemma GenericArrayLikeArrayClass(h: Hierarchy, r1: ClassRef, r2: ClassRef)
    requires Wf(h) && !IsPrimitiveRef(h, r1) && !IsPrimitiveRef(h, r2)
    ensures IsAssignable(h, Class(ArrayOf(r1)), GenericArray(Class(r2)))
            == IsAssignable(h, Class(ArrayOf(r1)), Class(ArrayOf(r2)))
  {
  }

  /**
   * As written, `Object[]` does not accept `T[]` for a variable `T` bounded by `Object`,
   * although it accepts `Object[]` itself.
   */
  lemma AsWrittenRejectsObjectArray(h: Hierarchy, v: VarId)
    requires Wf(h) && Bounds(h, v) == [ObjectType]
    ensures !IsAssignableAsWritten(h, Class(ArrayOf(Named(ObjectId))), GenericArray(Var(v)))
    ensures IsAssignable(h, Class(ArrayOf(Named(ObjectId))), GenericArray(Var(v)))
  {
    var objectArrays := Class(ArrayOf(ArrayOf(Named(ObjectId))));
    assert WfClass(h, ObjectId);
    assert SuperIds(h, ObjectId) == [];
    assert !ClassAssignable(h, ArrayOf(ArrayOf(Named(ObjectId))), Named(ObjectId));
    assert !IsAssignableAsWritten(h, objectArrays, ObjectType);
    assert !IsAssignableAsWritten(h, objectArrays, Var(v));
    assert IsAssignable(h, ObjectType, Bounds(h, v)[0]);
    assert IsAssignable(h, ObjectType, Var(v));
  }

  lemma UpperBoundsRanked(w: Type)
    requires w.Wildcard?
    ensures forall i :: 0 <= i < |w.upper| ==> VarRank(w.upper[i]) < VarRank(w)
  {
    var up := w.upper;
    var ranks := seq(|up|, i requires 0 <= i < |up| => VarRank(up[i]));
    assert VarRank(w) == 1 + MaxOf(ranks);
    forall i | 0 <= i < |up|
      ensures VarRank(up[i]) < VarRank(w)
    {
      assert ranks[i] == VarRank(up[i]);
    }
  }

  /** After rewriting, no bound is a bare reference type parameter any more. */
  lemma RewrittenBoundsFreeOfReferences(bs: seq<Type>, refs: seq<VarId>, base: nat)
    requires forall k :: 0 <= k < |refs| ==> refs[k] < base
    ensures forall j, k :: 0 <= j < |bs| && 0 <= k < |refs| ==> RewrittenBounds(bs, refs, base)[j] != Var(refs[k])
  {
    forall j, k | 0 <= j < |bs| && 0 <= k < |refs|
      ensures RewrittenBounds(bs, refs, base)[j] != Var(refs[k])
    {
      if bs[j] == Var(refs[k]) {
        assert IndexOf(refs, refs[k]) >= 0;
      }
    }
  }

  // ---------------------------------------------------------------- the return type and the reference method

  /**
   * The position whose return type the return-type loop holds after `n` methods: a later
   * method takes over whenever its return type is assignable to the one held.
   */
  function ReturnChoiceIndex(h: Hierarchy, ms: seq<Method>, n: nat): (j: nat)
    requires Wf(h) && 0 < n <= |ms|
    ensures j < n
    ensures forall i :: j < i < n ==> !IsAssignable(h, ms[j].ret, ms[i].ret)
  {
    if n == 1 then 0
    else
      var j := ReturnChoiceIndex(h, ms, n - 1);
      if IsAssignable(h, ms[j].ret, ms[n - 1].ret) then n - 1 else j
  }

  /** The return type the stub declares. */
  function ChosenReturnType(h: Hierarchy, ms: seq<Method>): Type
    requires Wf(h) && |ms| > 0
  {
    ms[ReturnChoiceIndex(h, ms, |ms|)].ret
  }

  /** The return-type loop of `getCommonMethodSignature`. */
  method ChooseReturnType(h: Hierarchy, ms: seq<Method>) returns (returnType: Type)
    requires Wf(h) && |ms| > 0
    ensures returnType == ChosenReturnType(h, ms)
    ensures exists m :: m in ms && m.ret == returnType
  {
    returnType := ms[0].ret;
    ghost var j := 0;
    for i := 1 to |ms|
      invariant j == ReturnChoiceIndex(h, ms, i) && returnType == ms[j].ret
    {
      if IsAssignable(h, returnType, ms[i].ret) {
        returnType := ms[i].ret;
        j := i;
      }
    }
    assert ms[j] in ms;
  }

  /** A method the stub may copy: the chosen return type and as many type parameters as the stub. */
  predicate IsReference(m: Method, returnType: Type, count: nat) {
    m.ret == returnType && |m.typeParams| == count
  }

  /** The reference-method loop: the first method that may serve as reference, if any. */
  method FindReference(ms: seq<Method>, returnType: Type, count: nat) returns (r: Option<Method>)
    ensures r.None? <==> forall m :: m in ms ==> !IsReference(m, returnType, count)
    ensures r.Some? ==> exists i :: 0 <= i < |ms| && r.value == ms[i] && IsReference(ms[i], returnType, count)
                                   && forall p :: 0 <= p < i ==> !IsReference(ms[p], returnType, count)
  {
    for i := 0 to |ms|
      invariant forall p :: 0 <= p < i ==> !IsReference(ms[p], returnType, count)
    {
      if IsReference(ms[i], returnType, count) {
        return Some(ms[i]);
      }
    }
    return None;
  }

  /**
   * When all methods declare the same number of type parameters, the method whose return
   * type was chosen can serve as reference, so no unchecked cast is ever needed.
   */
  lemma ChosenMethodIsReference(h: Hierarchy, ms: seq<Method>)
    requires Wf(h) && |ms| > 0
    requires forall m :: m in ms ==> |m.typeParams| == |ms[0].typeParams|
    ensures exists m :: m in ms && IsReference(m, ChosenReturnType(h, ms), |CommonTypeParameters(ms)|)
  {
    var j := ReturnChoiceIndex(h, ms, |ms|);
    assert ms[j] in ms;
    if |ms[0].typeParams| == 0 {
      assert ms[0] in ms;
    }
  }

  // ---------------------------------------------------------------- getCommonMethodSignature

  /** The reasons `getCommonMethodSignature` gives up. */
  datatype Failure =
    | NoMethods         // no methods at all
    | RawParameterType  // some method has a raw parameter type
    | RawReturnType     // the chosen return type is raw
    | UncheckedCast     // no method has the chosen return type and the common type-parameter count

  /**
   * The signature of a stub. `typeParameters` are the generated variables with their final
   * bounds; `context` is the declaring type's context and `methodContext` the one the
   * return and parameter types were rendered in.
   */
  datatype Signature = Signature(
    accessModifier: bv32,
    typeParameters: seq<VarDecl>,
    returnType: string,
    name: string,
    referenceMethod: Method,
    parameterTypes: seq<string>,
    context: Context,
    methodContext: Context)

  datatype Outcome = Ok(signature: Signature) | Failed(reason: Failure)

  /** The ids generated variables get, after the `base` variables of the hierarchy. */
  function GeneratedIds(base: nat, n: nat): (r: seq<VarId>)
    ensures |r| == n && forall i :: 0 <= i < n ==> r[i] == base + i
  {
    seq(n, i requires 0 <= i < n => base + i)
  }

  /** The hierarchy seen by the stub: the generated variables follow the declared ones. */
  function WithGenerated(h: Hierarchy, gens: seq<VarDecl>): Hierarchy {
    Hierarchy(h.classes, h.vars + gens)
  }

  /** Each type rendered in the context, with nothing ignored. */
  function RenderAll(h: Hierarchy, ctx: Context, ts: seq<Type>): (r: seq<string>)
    ensures |r| == |ts|
  {
    seq(|ts|, i requires 0 <= i < |ts| => Render(h, ctx, ts[i], {}))
  }

  /**
   * Generated names: none forbidden, each `Var<k>`, no two alike, with increasing `k`, and
   * every free `Var<k>` below one of them taken by an earlier one: the least free names.
   */
  ghost predicate FreshNames(gens: seq<VarDecl>, forbidden: set<string>) {
    && (forall i :: 0 <= i < |gens| ==> gens[i].name !in forbidden && IsGeneratedName(gens[i].name))
    && (forall i, j :: 0 <= i < j < |gens| ==> gens[i].name != gens[j].name)
    && (forall i, j, a: nat, b: nat :: 0 <= i < j < |gens| && gens[i].name == GeneratedName(a) && gens[j].name == GeneratedName(b)
          ==> a < b)
    && (forall i, a: nat, k: nat :: 0 <= i < |gens| && gens[i].name == GeneratedName(a) && k < a && GeneratedName(k) !in forbidden
          ==> exists p :: 0 <= p < i && gens[p].name == GeneratedName(k))
  }

  /** The fresh names are determined by their number and the forbidden names. */
  lemma FreshNamesDetermined(gens1: seq<VarDecl>, gens2: seq<VarDecl>, forbidden: set<string>)
    requires FreshNames(gens1, forbidden) && FreshNames(gens2, forbidden)
    requires |gens1| == |gens2|
    ensures forall i :: 0 <= i < |gens1| ==> gens1[i].name == gens2[i].name
  {
    FreshPrefixesAgree(gens1, gens2, forbidden, |gens1|);
  }

  /** The first `n` fresh names agree, by induction on `n`. */
  lemma {:induction false} FreshPrefixesAgree(gens1: seq<VarDecl>, gens2: seq<VarDecl>, forbidden: set<string>, n: nat)
    requires FreshNames(gens1, forbidden) && FreshNames(gens2, forbidden)
    requires n <= |gens1| == |gens2|
    ensures forall p :: 0 <= p < n ==> gens1[p].name == gens2[p].name
  {
    if n > 0 {
      FreshPrefixesAgree(gens1, gens2, forbidden, n - 1);
      SameFreshNameAt(gens1, gens2, forbidden, n - 1);
    }
  }

  /** With equal prefixes, the next names are equal too. */
  lemma SameFreshNameAt(gens1: seq<VarDecl>, gens2: seq<VarDecl>, forbidden: set<string>, i: nat)
    requires FreshNames(gens1, forbidden) && FreshNames(gens2, forbidden)
    requires i < |gens1| == |gens2|
    requires forall p :: 0 <= p < i ==> gens1[p].name == gens2[p].name
    ensures gens1[i].name == gens2[i].name
  {
    FreshNameAt(gens1, gens2, forbidden, i);
    FreshNameAt(gens2, gens1, forbidden, i);
    var a: nat :| gens1[i].name == GeneratedName(a);
    var b: nat :| gens2[i].name == GeneratedName(b);
    assert b <= a && a <= b;
  }

  /** With equal prefixes, the next name of `gens1` is not an earlier `Var<k>` than that of `gens2`. */
  lemma FreshNameAt(gens1: seq<VarDecl>, gens2: seq<VarDecl>, forbidden: set<string>, i: nat)
    requires FreshNames(gens1, forbidden) && FreshNames(gens2, forbidden)
    requires i < |gens1| == |gens2|
    requires forall p :: 0 <= p < i ==> gens1[p].name == gens2[p].name
    ensures forall a: nat, b: nat :: gens1[i].name == GeneratedName(a) && gens2[i].name == GeneratedName(b) ==> b <= a
  {
    forall a: nat, b: nat | gens1[i].name == GeneratedName(a) && gens2[i].name == GeneratedName(b)
      ensures b <= a
    {
      if a < b {
        assert false;
      }
    }
  }

  /** The conditions under which `getCommonMethodSignature` gives up for each reason. */
  predicate FailsWith(h: Hierarchy, ms: seq<Method>, f: Failure)
    requires Wf(h)
  {
    match f
    case NoMethods => |ms| == 0
    case RawParameterType => |ms| > 0 && exists m :: m in ms && HasRawParameterType(h, m)
    case RawReturnType =>
      && |ms| > 0
      && (forall m :: m in ms ==> !HasRawParameterType(h, m))
      && IsRawType(h, ChosenReturnType(h, ms))
    case UncheckedCast =>
      && |ms| > 0
      && (forall m :: m in ms ==> !HasRawParameterType(h, m))
      && !IsRawType(h, ChosenReturnType(h, ms))
      && forall m :: m in ms ==> !IsReference(m, ChosenReturnType(h, ms), |CommonTypeParameters(ms)|)
  }

  /** When every check of `getCommonMethodSignature` passes, no failure reason holds. */
  lemma NoFailureReason(h: Hierarchy, ms: seq<Method>)
    requires Wf(h) && |ms| > 0
    requires forall m :: m in ms ==> !HasRawParameterType(h, m)
    requires !IsRawType(h, ChosenReturnType(h, ms))
    requires exists m :: m in ms && IsReference(m, ChosenReturnType(h, ms), |CommonTypeParameters(ms)|)
    ensures forall f :: !FailsWith(h, ms, f)
  {
  }

  /**
   * What a successful `getCommonMethodSignature` returns for `ms`: the common access level,
   * one fresh variable per common type parameter bounded as the first method's parameter
   * (rewritten), the first method's name and parameters, the chosen return type, and the
   * first reference method.
   */
  ghost predicate IsCommonSignature(h: Hierarchy, store: map<ClassId, Context>, ms: seq<Method>,
                                    forbidden: set<string>, sig: Signature)
    requires Wf(h) && |ms| > 0
  {
    var count := |CommonTypeParameters(ms)|;
    var refs := ms[0].typeParams[..count];
    var returnType := ChosenReturnType(h, ms);
    var ext := WithGenerated(h, sig.typeParameters);
    && sig.accessModifier == CommonAccessModifier(ms)
    && |sig.typeParameters| == count
    && FreshNames(sig.typeParameters, forbidden)
    && (forall i :: 0 <= i < count ==> sig.typeParameters[i].bounds == RewrittenBounds(Bounds(h, refs[i]), refs, |h.vars|))
    && sig.name == ms[0].name
    && (exists i :: 0 <= i < |ms| && sig.referenceMethod == ms[i] && IsReference(ms[i], returnType, count)
                    && forall p :: 0 <= p < i ==> !IsReference(ms[p], returnType, count))
    && sig.context == ContextOf(store, ms[0].declaring)
    && sig.methodContext == Aliased(ext, sig.context, refs, GeneratedIds(|h.vars|, count), count)
    && sig.returnType == Render(ext, sig.methodContext, returnType, {})
    && sig.parameterTypes == RenderAll(ext, sig.methodContext, ms[0].params)
  }

  /**
   * The generated variables: each starts with the bounds of the reference type parameter
   * at its position, then the bounds naming a reference type parameter are rewritten.
   */
  method GenerateTypeVariables(h: Hierarchy, refs: seq<VarId>, names: seq<string>) returns (decls: seq<VarDecl>)
    requires |names| == |refs|
    ensures |decls| == |refs|
    ensures forall p :: 0 <= p < |refs| ==> decls[p] == VarDecl(names[p], RewrittenBounds(Bounds(h, refs[p]), refs, |h.vars|))
  {
    var gens: seq<GeneratedTypeVariable> := [];
    for i := 0 to |refs|
      invariant |gens| == i
      invariant forall p :: 0 <= p < i ==> gens[p].name == names[p] && gens[p].bounds[..] == Bounds(h, refs[p])
      invariant forall p :: 0 <= p < i ==> fresh(gens[p].bounds)
      invariant forall p, q :: 0 <= p < q < i ==> gens[p].bounds != gens[q].bounds
    {
      var g := new GeneratedTypeVariable(Bounds(h, refs[i]), names[i]);
      gens := gens + [g];
    }
    RewriteAllBounds(gens, refs, |h.vars|);
    decls := [];
    for i := 0 to |refs|
      invariant |decls| == i
      invariant forall p :: 0 <= p < i ==> decls[p] == VarDecl(names[p], RewrittenBounds(Bounds(h, refs[p]), refs, |h.vars|))
    {
      decls := decls + [VarDecl(gens[i].name, gens[i].bounds[..])];
    }
  }

  /**
   * `getCommonMethodSignature`: the signature of a stub that overrides every method of `ms`,
   * or the reason none can be written without raw types or unchecked casts.
   */
  method GetCommonMethodSignature(h: Hierarchy, ms: seq<Method>, forbidden: set<string>, contexts: GenericContexts)
    returns (r: Outcome)
    requires Wf(h)
    ensures r == Failed(NoMethods) <==> |ms| == 0
    ensures r == Failed(RawParameterType) <==> |ms| > 0 && exists m :: m in ms && HasRawParameterType(h, m)
    ensures r == Failed(RawReturnType)
            <==> (&& |ms| > 0
                  && (forall m :: m in ms ==> !HasRawParameterType(h, m))
                  && IsRawType(h, ChosenReturnType(h, ms)))
    ensures r == Failed(UncheckedCast)
            <==> (&& |ms| > 0
                  && (forall m :: m in ms ==> !HasRawParameterType(h, m))
                  && !IsRawType(h, ChosenReturnType(h, ms))
                  && forall m :: m in ms ==> !IsReference(m, ChosenReturnType(h, ms), |CommonTypeParameters(ms)|))
    ensures r.Failed? ==> FailsWith(h, ms, r.reason)
    ensures r.Ok? ==> |ms| > 0 && IsCommonSignature(h, contexts.rawTypeToContext, ms, forbidden, r.signature)
  {
    if |ms| == 0 {
      return Failed(NoMethods);
    }
    if exists m :: m in ms && HasRawParameterType(h, m) {
      return Failed(RawParameterType);
    }
    r := SignatureWithoutRawParameters(h, ms, forbidden, contexts);
  }

  /**
   * The part of `getCommonMethodSignature` after the raw parameter check has passed. The
   * source creates the generated type variables before choosing the return type; creating
   * them is not observable when a failure follows, so the model builds them last.
   */
  method SignatureWithoutRawParameters(h: Hierarchy, ms: seq<Method>, forbidden: set<string>, contexts: GenericContexts)
    returns (r: Outcome)
    requires Wf(h) && |ms| > 0 && forall m :: m in ms ==> !HasRawParameterType(h, m)
    ensures r.Failed? ==> r.reason == RawReturnType || r.reason == UncheckedCast
    ensures r == Failed(RawReturnType) <==> IsRawType(h, ChosenReturnType(h, ms))
    ensures r == Failed(UncheckedCast)
            <==> (&& !IsRawType(h, ChosenReturnType(h, ms))
                  && forall m :: m in ms ==> !IsReference(m, ChosenReturnType(h, ms), |CommonTypeParameters(ms)|))
    ensures r.Ok? ==> IsCommonSignature(h, contexts.rawTypeToContext, ms, forbidden, r.signature)
  {
    var count := |CommonTypeParameters(ms)|;
    var returnType := ChooseReturnType(h, ms);
    if IsRawType(h, returnType) {
      return Failed(RawReturnType);
    }
    var reference := FindReference(ms, returnType, count);
    if reference.None? {
      return Failed(UncheckedCast);
    }
    ghost var i :| 0 <= i < |ms| && reference.value == ms[i] && IsReference(ms[i], returnType, count)
                   && forall p :: 0 <= p < i ==> !IsReference(ms[p], returnType, count);
    var sig := AssembleSignature(h, ms, forbidden, contexts, returnType, reference.value, i);
    return Ok(sig);
  }

  /** The signature built once the return type and the reference method are chosen. */
  method AssembleSignature(h: Hierarchy, ms: seq<Method>, forbidden: set<string>, contexts: GenericContexts,
                           returnType: Type, reference: Method, ghost i: nat)
    returns (sig: Signature)
    requires Wf(h) && |ms| > 0 && returnType == ChosenReturnType(h, ms)
    requires i < |ms| && reference == ms[i] && IsReference(ms[i], returnType, |CommonTypeParameters(ms)|)
    requires forall p :: 0 <= p < i ==> !IsReference(ms[p], returnType, |CommonTypeParameters(ms)|)
    ensures IsCommonSignature(h, contexts.rawTypeToContext, ms, forbidden, sig)
  {
    var accessModifier := CommonAccessModifier(ms);
    var count := |CommonTypeParameters(ms)|;
    var first := ms[0];
    var refs := first.typeParams[..count];
    var context := contexts.GetContext(first.declaring);
    var decls := StubTypeVariables(h, refs, forbidden);
    var methodContext, returnText, parameterTexts := RenderInStub(h, decls, context, refs, returnType, first.params);
    sig := Signature(accessModifier, decls, returnText, first.name, reference, parameterTexts, context, methodContext);
    CommonSignatureIntro(h, contexts.rawTypeToContext, ms, forbidden, sig, i);
  }

  /** A signature built from these parts is the common signature of `ms`. */
  lemma CommonSignatureIntro(h: Hierarchy, store: map<ClassId, Context>, ms: seq<Method>, forbidden: set<string>,
                             sig: Signature, i: nat)
    requires Wf(h) && |ms| > 0
    requires sig.accessModifier == CommonAccessModifier(ms)
    requires |sig.typeParameters| == |CommonTypeParameters(ms)|
    requires FreshNames(sig.typeParameters, forbidden)
    requires forall k :: 0 <= k < |sig.typeParameters| ==>
               sig.typeParameters[k].bounds
               == RewrittenBounds(Bounds(h, ms[0].typeParams[..|CommonTypeParameters(ms)|][k]),
                                  ms[0].typeParams[..|CommonTypeParameters(ms)|], |h.vars|)
    requires sig.name == ms[0].name
    requires i < |ms| && sig.referenceMethod == ms[i] && IsReference(ms[i], ChosenReturnType(h, ms), |CommonTypeParameters(ms)|)
    requires forall p :: 0 <= p < i ==> !IsReference(ms[p], ChosenReturnType(h, ms), |CommonTypeParameters(ms)|)
    requires sig.context == ContextOf(store, ms[0].declaring)
    requires var ext := WithGenerated(h, sig.typeParameters);
             var refs := ms[0].typeParams[..|CommonTypeParameters(ms)|];
             && sig.methodContext == Aliased(ext, sig.context, refs, GeneratedIds(|h.vars|, |sig.typeParameters|), |sig.typeParameters|)
             && sig.returnType == Render(ext, sig.methodContext, ChosenReturnType(h, ms), {})
             && sig.parameterTypes == RenderAll(ext, sig.methodContext, ms[0].params)
    ensures IsCommonSignature(h, store, ms, forbidden, sig)
  {
  }

  /**
   * The return and parameter types as the stub prints them: in the declaring type's context
   * with each reference type parameter standing for the generated variable at its position.
   */
  method RenderInStub(h: Hierarchy, decls: seq<VarDecl>, context: Context, refs: seq<VarId>, returnType: Type, params: seq<Type>)
    returns (methodContext: Context, returnText: string, parameterTexts: seq<string>)
    requires |refs| == |decls|
    ensures var ext := WithGenerated(h, decls);
            && methodContext == Aliased(ext, context, refs, GeneratedIds(|h.vars|, |decls|), |decls|)
            && returnText == Render(ext, methodContext, returnType, {})
            && parameterTexts == RenderAll(ext, methodContext, params)
  {
    var ext := WithGenerated(h, decls);
    methodContext := AliasTypeParameters(ext, context, refs, GeneratedIds(|h.vars|, |decls|));
    returnText := Render(ext, methodContext, returnType, {});
    parameterTexts := RenderAll(ext, methodContext, params);
  }

  /** One fresh generated variable per reference type parameter, bounded as it is (rewritten). */
  method StubTypeVariables(h: Hierarchy, refs: seq<VarId>, forbidden: set<string>) returns (decls: seq<VarDecl>)
    ensures |decls| == |refs|
    ensures FreshNames(decls, forbidden)
    ensures forall i :: 0 <= i < |refs| ==> decls[i].bounds == RewrittenBounds(Bounds(h, refs[i]), refs, |h.vars|)
  {
    var names := FreshTypeParameterNames(|refs|, forbidden);
    decls := GenerateTypeVariables(h, refs, names);
    DeclsTakeNames(decls, names, forbidden);
  }

  /** Declarations named by the least free names, in order, have fresh names. */
  lemma DeclsTakeNames(decls: seq<VarDecl>, names: seq<string>, forbidden: set<string>)
    requires |decls| == |names| && forall i :: 0 <= i < |names| ==> decls[i].name == names[i]
    requires forall i :: 0 <= i < |names| ==> names[i] !in forbidden && IsGeneratedName(names[i])
    requires forall i, j, a: nat, b: nat :: 0 <= i < j < |names| && names[i] == GeneratedName(a) && names[j] == GeneratedName(b) ==> a < b
    requires forall i, j :: 0 <= i < j < |names| ==> names[i] != names[j]
    requires forall i, a: nat, k: nat :: 0 <= i < |names| && names[i] == GeneratedName(a) && k < a && GeneratedName(k) !in forbidden
               ==> GeneratedName(k) in names[..i]
    ensures FreshNames(decls, forbidden)
  {
    forall i, a: nat, k: nat | 0 <= i < |decls| && decls[i].name == GeneratedName(a) && k < a && GeneratedName(k) !in forbidden
      ensures exists p :: 0 <= p < i && decls[p].name == GeneratedName(k)
    {
      var p :| 0 <= p < i && names[..i][p] == GeneratedName(k);
      assert decls[p].name == GeneratedName(k);
    }
  }

  // ---------------------------------------------------------------- toString

  /** `Modifier.toString` of access bits: the keywords in the order public, protected, private. */
  function ModifierString(mods: bv32): (r: string)
    ensures mods & 0x7 == 0x1 ==> r == "public"
    ensures mods & 0x7 == 0x4 ==> r == "protected"
    ensures mods & 0x7 == 0x2 ==> r == "private"
    ensures mods & 0x7 == 0x0 ==> r == ""
  {
    var words := (if mods & 0x1 != 0 then ["public"] else [])
                 + (if mods & 0x4 != 0 then ["protected"] else [])
                 + (if mods & 0x2 != 0 then ["private"] else []);
    Join(words, " ")
  }

  /** The parameter list: `(` then each type followed by ` var<i>`, joined by `, `, then `) `. */
  function ParameterList(types: seq<string>): string {
    "(" + Join(seq(|types|, i requires 0 <= i < |types| => types[i] + " var" + NatStr(i)), ", ") + ") "
  }

  /** The text of a stub's header around the text of its type-parameter list. */
  function HeaderText(sig: Signature, typeParameters: string): string {
    ModifierString(sig.accessModifier)
      + typeParameters
      + " " + sig.returnType + " " + sig.name + ParameterList(sig.parameterTypes) + "{"
  }

  /**
   * `toString` as written: the bounds are rendered in the declaring type's context, and a
   * generated variable is not shielded by the type-parameter names.
   */
  function SignatureText(h: Hierarchy, sig: Signature): string {
    var ext := WithGenerated(h, sig.typeParameters);
    HeaderText(sig, GeneratedParametersAsWritten(ext, |h.vars|, GeneratedIds(|h.vars|, |sig.typeParameters|), sig.context))
  }

  /**
   * `toString` corrected: the bounds are rendered in the context the return and parameter
   * types were rendered in, where the reference type parameters name the generated ones,
   * and every type parameter of the stub prints as its own name.
   */
  function SignatureTextCorrected(h: Hierarchy, sig: Signature): string {
    var ext := WithGenerated(h, sig.typeParameters);
    HeaderText(sig, TypeParametersToString(ext, GeneratedIds(|h.vars|, |sig.typeParameters|), sig.methodContext))
  }

  // ---------------------------------------------------------------- bounds of generated variables as written

  /** Variable `v` is one of the generated variables, which are numbered from `base`. */
  predicate IsGenerated(ext: Hierarchy, base: nat, v: VarId) {
    base <= v < |ext.vars|
  }

  /**
   * A bound rendered as `typeToStringInContext` renders it. A generated variable does not
   * override `getTypeName`, which then is `Object.toString` and never a type-parameter name,
   * so `ignore` does not shield it and the context's binding for its name, if any, is used.
   */
  function GeneratedBoundText(ext: Hierarchy, base: nat, ctx: Context, b: Type, ignore: set<string>): string {
    if b.Var? && IsGenerated(ext, base, b.id) then Render(ext, ctx, b, {}) else Render(ext, ctx, b, ignore)
  }

  /** `getTypeVariableRepresentation` with the bounds rendered as `GeneratedBoundText` does. */
  function RepresentationAsWritten(ext: Hierarchy, base: nat, v: VarId, ctx: Context, ignore: set<string>): string {
    var bs := NonObjectBounds(Bounds(ext, v));
    var rendered := Join(seq(|bs|, i requires 0 <= i < |bs| => GeneratedBoundText(ext, base, ctx, bs[i], ignore)), " & ");
    if |rendered| != 0 then VarName(ext, v) + " extends " + rendered else VarName(ext, v)
  }

  /** `typeParametersToString` over the generated variables, as written. */
  function GeneratedParametersAsWritten(ext: Hierarchy, base: nat, vars: seq<VarId>, ctx: Context): string {
    var ignore := TypeParamNames(ext, vars);
    if |vars| == 0 then ""
    else "<" + Join(seq(|vars|, i requires 0 <= i < |vars| => RepresentationAsWritten(ext, base, vars[i], ctx, ignore)), ", ") + ">"
  }

  /**
   * A generated variable whose name the context binds to a type that is not a variable
   * prints, as written, as that type, even where its name is one of the stub's type
   * parameters and it should print as itself.
   */
  lemma GeneratedBoundShadowed(ext: Hierarchy, base: nat, ctx: Context, g: VarId, ignore: set<string>)
    requires IsGenerated(ext, base, g) && VarName(ext, g) in ignore
    requires VarName(ext, g) in ctx && !ctx[VarName(ext, g)].Var?
    ensures GeneratedBoundText(ext, base, ctx, Var(g), ignore) == Plain(ext, ctx[VarName(ext, g)])
    ensures Render(ext, ctx, Var(g), ignore) == VarName(ext, g)
  {
  }

  /** When the context binds no generated name, a bound renders as written as it does corrected. */
  lemma GeneratedBoundAgrees(ext: Hierarchy, base: nat, ctx: Context, b: Type, ignore: set<string>)
    requires forall v :: IsGenerated(ext, base, v) ==> VarName(ext, v) !in ctx
    ensures GeneratedBoundText(ext, base, ctx, b, ignore) == Render(ext, ctx, b, ignore)
  {
    if b.Var? && IsGenerated(ext, base, b.id) {
      assert VarName(ext, b.id) !in ctx;
    }
  }

  /**
   * When the context binds no generated name, the as-written type-parameter list is the
   * corrected one: the two differ exactly through such a binding.
   */
  lemma GeneratedParametersAgree(ext: Hierarchy, base: nat, vars: seq<VarId>, ctx: Context)
    requires forall v :: IsGenerated(ext, base, v) ==> VarName(ext, v) !in ctx
    ensures GeneratedParametersAsWritten(ext, base, vars, ctx) == TypeParametersToString(ext, vars, ctx)
  {
    var ignore := TypeParamNames(ext, vars);
    forall k | 0 <= k < |vars|
      ensures RepresentationAsWritten(ext, base, vars[k], ctx, ignore) == TypeVariableRepresentation(ext, vars[k], ctx, ignore)
    {
      var bs := NonObjectBounds(Bounds(ext, vars[k]));
      forall i | 0 <= i < |bs|
        ensures GeneratedBoundText(ext, base, ctx, bs[i], ignore) == Render(ext, ctx, bs[i], ignore)
      {
        GeneratedBoundAgrees(ext, base, ctx, bs[i], ignore);
      }
      assert seq(|bs|, i requires 0 <= i < |bs| => GeneratedBoundText(ext, base, ctx, bs[i], ignore))
          == RenderedBounds(ext, ctx, bs, ignore);
    }
    assert seq(|vars|, i requires 0 <= i < |vars| => RepresentationAsWritten(ext, base, vars[i], ctx, ignore))
        == seq(|vars|, i requires 0 <= i < |vars| => TypeVariableRepresentation(ext, vars[i], ctx, ignore));
  }

  /**
   * `interface I<Var0> { <T, U extends T> void f(); }` implemented by a class that binds
   * `Var0` to `String`. The stub's variables are `Var0` and `Var1`, the latter bounded by
   * the former. As written the header declares `<Var0, Var1 extends java.lang.String>`;
   * corrected it declares `<Var0, Var1 extends Var0>`.
   */
  lemma AsWrittenBoundTakesContextBinding(h: Hierarchy)
    requires |h.classes| == 2 && h.classes[1].name == "java.lang.String"
    requires |h.vars| == 3 && h.vars[1] == VarDecl("T", [ObjectType]) && h.vars[2] == VarDecl("U", [Var(1)])
    ensures var gens := [VarDecl("Var0", RewrittenBounds(Bounds(h, 1), [1, 2], 3)),
                         VarDecl("Var1", RewrittenBounds(Bounds(h, 2), [1, 2], 3))];
            var ext := WithGenerated(h, gens);
            var ctx := map["Var0" := Class(Named(1))];
            && GeneratedParametersAsWritten(ext, 3, GeneratedIds(3, 2), ctx) == "<Var0, Var1 extends java.lang.String>"
            && TypeParametersToString(ext, GeneratedIds(3, 2), ctx) == "<Var0, Var1 extends Var0>"
  {
    ExampleBoundsRewritten(h);
    var gens := [VarDecl("Var0", [ObjectType]), VarDecl("Var1", [Var(3)])];
    var ext := WithGenerated(h, gens);
    assert ext.vars[3] == gens[0] && ext.vars[4] == gens[1];
    assert GeneratedIds(3, 2) == [3, 4];
    TwoParametersText(ext, map["Var0" := Class(Named(1))]);
  }

  /** `T`'s bound stays `Object`; `U`'s bound `T` becomes the first generated variable. */
  lemma ExampleBoundsRewritten(h: Hierarchy)
    requires |h.vars| == 3 && h.vars[1] == VarDecl("T", [ObjectType]) && h.vars[2] == VarDecl("U", [Var(1)])
    ensures RewrittenBounds(Bounds(h, 1), [1, 2], 3) == [ObjectType]
    ensures RewrittenBounds(Bounds(h, 2), [1, 2], 3) == [Var(3)]
  {
    assert Bounds(h, 1) == [ObjectType] && Bounds(h, 2) == [Var(1)];
    assert RewrittenBound(ObjectType, [1, 2], 3) == ObjectType;
    assert RewrittenBound(Var(1), [1, 2], 3) == Var(3);
  }

  /** The two renderings of the list `Var0, Var1 extends Var0` in a context binding `Var0`. */
  lemma TwoParametersText(ext: Hierarchy, ctx: Context)
    requires |ext.classes| == 2 && ext.classes[1].name == "java.lang.String"
    requires |ext.vars| == 5 && ext.vars[3] == VarDecl("Var0", [ObjectType]) && ext.vars[4] == VarDecl("Var1", [Var(3)])
    requires ctx == map["Var0" := Class(Named(1))]
    ensures GeneratedParametersAsWritten(ext, 3, [3, 4], ctx) == "<Var0, Var1 extends java.lang.String>"
    ensures TypeParametersToString(ext, [3, 4], ctx) == "<Var0, Var1 extends Var0>"
  {
    TwoParameterNames(ext);
    assert Plain(ext, ctx["Var0"]) == "java.lang.String";
    TwoParametersAsWritten(ext, ctx);
    TwoParametersCorrected(ext, ctx);
    ExtendsListText("java.lang.String");
    StringListText();
  }

  lemma TwoParameterNames(ext: Hierarchy)
    requires |ext.vars| == 5 && ext.vars[3].name == "Var0" && ext.vars[4].name == "Var1"
    ensures TypeParamNames(ext, [3, 4]) == {"Var0", "Var1"}
  {
    var vars := [3, 4];
    assert VarName(ext, 3) == "Var0" && VarName(ext, 4) == "Var1";
    assert forall x :: x in TypeParamNames(ext, vars) ==> x in {"Var0", "Var1"};
    assert "Var0" in TypeParamNames(ext, vars) && "Var1" in TypeParamNames(ext, vars);
  }

  lemma TwoParametersAsWritten(ext: Hierarchy, ctx: Context)
    requires |ext.vars| == 5 && ext.vars[3] == VarDecl("Var0", [ObjectType]) && ext.vars[4] == VarDecl("Var1", [Var(3)])
    requires "Var0" in ctx && !ctx["Var0"].Var? && Plain(ext, ctx["Var0"]) != ""
    requires TypeParamNames(ext, [3, 4]) == {"Var0", "Var1"}
    ensures GeneratedParametersAsWritten(ext, 3, [3, 4], ctx) == "<" + "Var0" + ", " + ("Var1 extends " + Plain(ext, ctx["Var0"])) + ">"
  {
    var vars := [3, 4];
    var ignore := {"Var0", "Var1"};
    UnboundedRepresentations(ext, ctx, ignore);
    BoundedAsWritten(ext, ctx, ignore);
    var written := seq(|vars|, i requires 0 <= i < |vars| => RepresentationAsWritten(ext, 3, vars[i], ctx, ignore));
    PairList(written, "Var0", "Var1 extends " + Plain(ext, ctx["Var0"]));
    assert GeneratedParametersAsWritten(ext, 3, vars, ctx) == "<" + Join(written, ", ") + ">";
  }

  lemma TwoParametersCorrected(ext: Hierarchy, ctx: Context)
    requires |ext.vars| == 5 && ext.vars[3] == VarDecl("Var0", [ObjectType]) && ext.vars[4] == VarDecl("Var1", [Var(3)])
    requires TypeParamNames(ext, [3, 4]) == {"Var0", "Var1"}
    ensures TypeParametersToString(ext, [3, 4], ctx) == "<Var0, Var1 extends Var0>"
  {
    var vars := [3, 4];
    var ignore := {"Var0", "Var1"};
    UnboundedRepresentations(ext, ctx, ignore);
    BoundedCorrected(ext, ctx, ignore);
    var corrected := seq(|vars|, i requires 0 <= i < |vars| => TypeVariableRepresentation(ext, vars[i], ctx, ignore));
    PairList(corrected, "Var0", "Var1 extends Var0");
    assert TypeParametersToString(ext, vars, ctx) == "<" + Join(corrected, ", ") + ">";
    CorrectedPairText();
  }

  /** A two-element list of representations between angle brackets. */
  lemma PairList(reps: seq<string>, a: string, b: string)
    requires |reps| == 2 && reps[0] == a && reps[1] == b
    ensures "<" + Join(reps, ", ") + ">" == "<" + a + ", " + b + ">"
  {
    assert reps[1..] == [b];
  }

  lemma ListPrefixText()
    ensures "<" + "Var0" + ", " + "Var1 extends " == "<Var0, Var1 extends "
  {
  }

  /** The list `Var0, Var1 extends x` between angle brackets, whatever the bound's text `x`. */
  lemma ExtendsListText(x: string)
    ensures "<" + "Var0" + ", " + ("Var1 extends " + x) + ">" == "<Var0, Var1 extends " + x + ">"
  {
    ListPrefixText();
    assert "<" + "Var0" + ", " + ("Var1 extends " + x) + ">" == "<" + "Var0" + ", " + "Var1 extends " + x + ">";
  }

  lemma StringListText()
    ensures "<Var0, Var1 extends " + "java.lang.String" + ">" == "<Var0, Var1 extends java.lang.String>"
  {
  }

  lemma CorrectedPairText()
    ensures "<" + "Var0" + ", " + "Var1 extends Var0" + ">" == "<Var0, Var1 extends Var0>"
  {
  }

  /** `Var0`, bounded by `Object` only, prints as its name both ways. */
  lemma UnboundedRepresentations(ext: Hierarchy, ctx: Context, ignore: set<string>)
    requires |ext.vars| == 5 && ext.vars[3] == VarDecl("Var0", [ObjectType])
    ensures RepresentationAsWritten(ext, 3, 3, ctx, ignore) == "Var0"
    ensures TypeVariableRepresentation(ext, 3, ctx, ignore) == "Var0"
  {
    assert NonObjectBounds(Bounds(ext, 3)) == [];
  }

  /** `Var1 extends Var0` as written: the bound takes what the context binds `Var0` to. */
  lemma BoundedAsWritten(ext: Hierarchy, ctx: Context, ignore: set<string>)
    requires |ext.vars| == 5 && ext.vars[4] == VarDecl("Var1", [Var(3)]) && VarName(ext, 3) == "Var0"
    requires "Var0" in ctx && !ctx["Var0"].Var? && "Var0" in ignore && Plain(ext, ctx["Var0"]) != ""
    ensures RepresentationAsWritten(ext, 3, 4, ctx, ignore) == "Var1 extends " + Plain(ext, ctx["Var0"])
  {
    var bs := NonObjectBounds(Bounds(ext, 4));
    assert bs == [Var(3)];
    GeneratedBoundShadowed(ext, 3, ctx, 3, ignore);
    var written := seq(|bs|, i requires 0 <= i < |bs| => GeneratedBoundText(ext, 3, ctx, bs[i], ignore));
    assert written == [Plain(ext, ctx["Var0"])];
    assert Join(written, " & ") == Plain(ext, ctx["Var0"]);
  }

  /** `Var1 extends Var0` corrected: the bound is the stub's own `Var0`. */
  lemma BoundedCorrected(ext: Hierarchy, ctx: Context, ignore: set<string>)
    requires |ext.vars| == 5 && ext.vars[4] == VarDecl("Var1", [Var(3)]) && VarName(ext, 3) == "Var0"
    requires "Var0" in ignore
    ensures TypeVariableRepresentation(ext, 4, ctx, ignore) == "Var1 extends Var0"
  {
    var bs := NonObjectBounds(Bounds(ext, 4));
    assert bs == [Var(3)];
    assert RenderedBounds(ext, ctx, bs, ignore) == ["Var0"];
  }

  /** With distinct names, the aliased context sends the `k`-th name of `from` to `to[k]`. */
  lemma {:induction false} AliasedSendsToPosition(h: Hierarchy, ctx: Context, from: seq<VarId>, to: seq<VarId>, n: nat, k: nat)
    requires n <= |from| && n <= |to| && k < n
    requires forall i, j :: 0 <= i < j < n ==> VarName(h, from[i]) != VarName(h, from[j])
    ensures VarName(h, from[k]) in Aliased(h, ctx, from, to, n)
    ensures Aliased(h, ctx, from, to, n)[VarName(h, from[k])] == Var(to[k])
  {
    if k < n - 1 {
      AliasedSendsToPosition(h, ctx, from, to, n - 1, k);
    }
  }

  /**
   * In the method context a reference type parameter, wherever it occurs in a type,
   * prints as the generated variable at its position (declared reference parameters with
   * distinct names).
   */
  lemma ReferenceParameterRendersGenerated(h: Hierarchy, gens: seq<VarDecl>, ctx: Context, refs: seq<VarId>,
                                           k: nat, ignore: set<string>)
    requires |refs| == |gens| && k < |refs|
    requires forall i :: 0 <= i < |refs| ==> refs[i] < |h.vars|
    requires forall i, j :: 0 <= i < j < |refs| ==> VarName(h, refs[i]) != VarName(h, refs[j])
    requires VarName(h, refs[k]) !in ignore
    ensures var ext := WithGenerated(h, gens);
            Render(ext, Aliased(ext, ctx, refs, GeneratedIds(|h.vars|, |gens|), |gens|), Var(refs[k]), ignore) == gens[k].name
  {
    var ext := WithGenerated(h, gens);
    forall i | 0 <= i < |refs|
      ensures VarName(ext, refs[i]) == VarName(h, refs[i])
    {
    }
    AliasedSendsToPosition(ext, ctx, refs, GeneratedIds(|h.vars|, |gens|), |gens|, k);
    assert VarName(ext, |h.vars| + k) == gens[k].name;
  }

  /**
   * `<T extends Comparable<T>>` on a method of a type whose context binds nothing: the
   * generated `Var0` keeps the bound `Comparable<T>`. As written the header declares
   * `<Var0 extends Comparable<T>>`, naming a `T` the stub does not declare; corrected it
   * declares `<Var0 extends Comparable<Var0>>`.
   */
  lemma AsWrittenBoundNamesUndeclaredVariable(h: Hierarchy)
    requires |h.classes| == 2 && h.classes[1].name == "Comparable"
    requires |h.vars| == 2 && h.vars[0] == VarDecl("T", [Parameterized(1, [Var(0)])])
    ensures var gen := VarDecl("Var0", RewrittenBounds(Bounds(h, 0), [0], 2));
            var ext := WithGenerated(h, [gen]);
            && TypeParametersToString(ext, GeneratedIds(2, 1), map[]) == "<Var0 extends Comparable<T>>"
            && TypeParametersToString(ext, GeneratedIds(2, 1), Aliased(ext, map[], [0], GeneratedIds(2, 1), 1))
               == "<Var0 extends Comparable<Var0>>"
  {
    var bound := Parameterized(1, [Var(0)]);
    assert Bounds(h, 0) == [bound];
    assert RewrittenBound(bound, [0], 2) == bound;
    var gen := VarDecl("Var0", RewrittenBounds(Bounds(h, 0), [0], 2));
    assert gen.bounds == [bound];
    var ext := WithGenerated(h, [gen]);
    assert ext.vars[0].name == "T" && ext.vars[2] == VarDecl("Var0", [bound]);
    HeaderInDeclaringContext(ext);
    HeaderInMethodContext(ext);
  }

  /** In a context binding nothing, `T` prints as itself in the bound of the generated variable. */
  lemma HeaderInDeclaringContext(ext: Hierarchy)
    requires |ext.classes| == 2 && ext.classes[1].name == "Comparable"
    requires |ext.vars| == 3 && ext.vars[0].name == "T" && ext.vars[2] == VarDecl("Var0", [Parameterized(1, [Var(0)])])
    ensures TypeParametersToString(ext, GeneratedIds(2, 1), map[]) == "<Var0 extends Comparable<T>>"
  {
    assert Render(ext, map[], Var(0), {"Var0"}) == "T";
    BoundRendering(ext, map[], "T");
    ComparableListTexts();
  }

  lemma ComparableListTexts()
    ensures "<Var0 extends Comparable<" + "T" + ">>" == "<Var0 extends Comparable<T>>"
    ensures "<Var0 extends Comparable<" + "Var0" + ">>" == "<Var0 extends Comparable<Var0>>"
  {
  }

  /** In the context aliasing `T` to the generated variable, the bound names the generated variable. */
  lemma HeaderInMethodContext(ext: Hierarchy)
    requires |ext.classes| == 2 && ext.classes[1].name == "Comparable"
    requires |ext.vars| == 3 && ext.vars[0].name == "T" && ext.vars[2] == VarDecl("Var0", [Parameterized(1, [Var(0)])])
    ensures TypeParametersToString(ext, GeneratedIds(2, 1), Aliased(ext, map[], [0], GeneratedIds(2, 1), 1))
            == "<Var0 extends Comparable<Var0>>"
  {
    var aliased := Aliased(ext, map[], [0], GeneratedIds(2, 1), 1);
    AliasedRendersGenerated(ext);
    BoundRendering(ext, aliased, "Var0");
    ComparableListTexts();
  }

  /** Under the aliasing of `T` to the generated variable, `T` prints as `Var0`. */
  lemma AliasedRendersGenerated(ext: Hierarchy)
    requires |ext.vars| == 3 && ext.vars[0].name == "T" && ext.vars[2].name == "Var0"
    ensures Render(ext, Aliased(ext, map[], [0], GeneratedIds(2, 1), 1), Var(0), {"Var0"}) == "Var0"
  {
    var aliased := Aliased(ext, map[], [0], GeneratedIds(2, 1), 1);
    assert GeneratedIds(2, 1) == [2] && VarName(ext, 0) == "T";
    assert aliased == Aliased(ext, map[], [0], [2], 0)["T" := Var(2)];
    assert Plain(ext, Var(2)) == "Var0";
  }

  lemma ComparableText(t: string)
    ensures "<" + ("Var0 extends " + ("Comparable<" + t + ">")) + ">" == "<Var0 extends Comparable<" + t + ">>"
  {
  }

  /** `Comparable<T>` renders with `T` printed as `t`. */
  lemma ComparableRendering(ext: Hierarchy, ctx: Context, t: string)
    requires |ext.classes| == 2 && ext.classes[1].name == "Comparable"
    requires |ext.vars| == 3 && ext.vars[0].name == "T"
    requires Render(ext, ctx, Var(0), {"Var0"}) == t
    ensures Render(ext, ctx, Parameterized(1, [Var(0)]), {"Var0"}) == "Comparable<" + t + ">"
  {
    var args := [Var(0)];
    assert seq(|args|, i requires 0 <= i < |args| => Plain(ext, args[i])) == ["T"];
    assert Plain(ext, Parameterized(1, args)) == "Comparable<T>";
    assert seq(|args|, i requires 0 <= i < |args| => Render(ext, ctx, args[i], {"Var0"})) == [t];
  }

  /** Generated variable 2, whose one bound is `Comparable<T>`, with `T` printed as `t`. */
  lemma RepresentationRendering(ext: Hierarchy, ctx: Context, t: string)
    requires |ext.classes| == 2 && ext.classes[1].name == "Comparable"
    requires |ext.vars| == 3 && ext.vars[0].name == "T" && ext.vars[2] == VarDecl("Var0", [Parameterized(1, [Var(0)])])
    requires Render(ext, ctx, Var(0), {"Var0"}) == t
    ensures TypeVariableRepresentation(ext, 2, ctx, {"Var0"}) == "Var0 extends " + ("Comparable<" + t + ">")
  {
    var bound := Parameterized(1, [Var(0)]);
    ComparableRendering(ext, ctx, t);
    var bs := NonObjectBounds(Bounds(ext, 2));
    assert bs == [bound];
    assert seq(|bs|, i requires 0 <= i < |bs| => Render(ext, ctx, bs[i], {"Var0"})) == ["Comparable<" + t + ">"];
  }

  /** The type-parameter list of the stub whose one generated variable is bounded by `Comparable<T>`. */
  lemma BoundRendering(ext: Hierarchy, ctx: Context, t: string)
    requires |ext.classes| == 2 && ext.classes[1].name == "Comparable"
    requires |ext.vars| == 3 && ext.vars[0].name == "T" && ext.vars[2] == VarDecl("Var0", [Parameterized(1, [Var(0)])])
    requires Render(ext, ctx, Var(0), {"Var0"}) == t
    ensures TypeParametersToString(ext, GeneratedIds(2, 1), ctx) == "<Var0 extends Comparable<" + t + ">>"
  {
    var vars := GeneratedIds(2, 1);
    assert vars == [2] && VarName(ext, 2) == "Var0";
    assert TypeParamNames(ext, vars) == {"Var0"};
    RepresentationRendering(ext, ctx, t);
    var representation := "Var0 extends " + ("Comparable<" + t + ">");
    assert seq(|vars|, i requires 0 <= i < |vars| => TypeVariableRepresentation(ext, vars[i], ctx, {"Var0"})) == [representation];
    ComparableText(t);
  }

}
