/**
 * The reflective view of a Java type hierarchy that the implementor engine reads:
 * classes and interfaces with their modifiers, generic declarations, supertypes and
 * declared methods, and the five shapes of `java.lang.reflect.Type`.
 *
 * Classes and type variables live in two tables and are referred to by index. A type
 * variable is resolved through the table, which is what lets a bound mention its own
 * variable (`T extends Comparable<? super T>`).
 */
module JavaTypes {

  datatype Option<T> = None | Some(value: T)

  type ClassId = nat
  type VarId = nat

  /** Index of `java.lang.Object` in every well-formed hierarchy. */
  const ObjectId: ClassId := 0

  /** A `java.lang.Class` token: a named class, interface or primitive, or an array class. */
  datatype ClassRef = Named(id: ClassId) | ArrayOf(component: ClassRef)

  /** The five implementations of `java.lang.reflect.Type`. */
  datatype Type =
    | Class(ref: ClassRef)
    | Parameterized(raw: ClassId, args: seq<Type>)
    | Var(id: VarId)
    | Wildcard(upper: seq<Type>, lower: seq<Type>)
    | GenericArray(component: Type)

  /** A declared type variable: its name and its bounds (`Object` when none is written). */
  datatype VarDecl = VarDecl(name: string, bounds: seq<Type>)

  /**
   * A `java.lang.reflect.Method`. The `id` makes two methods with the same text in
   * different places distinct entities.
   */
  datatype Method = Method(
    id: nat,
    declaring: ClassId,
    name: string,
    typeParams: seq<VarId>,
    params: seq<Type>,
    ret: Type,
    modifiers: bv32,
    isDefault: bool)

  datatype ClassDecl = ClassDecl(
    name: string,
    pkg: string,
    modifiers: bv32,
    isInterface: bool,
    isPrimitive: bool,
    enclosing: Option<ClassId>,
    typeParams: seq<VarId>,
    superclass: Option<Type>,
    interfaces: seq<Type>,
    declared: seq<Method>)

  datatype Hierarchy = Hierarchy(classes: seq<ClassDecl>, vars: seq<VarDecl>)

  // The bits of java.lang.reflect.Modifier that the engine inspects: PUBLIC 0x1, PRIVATE 0x2,
  // PROTECTED 0x4, STATIC 0x8, ABSTRACT 0x400.
  predicate IsAbstract(m: Method) { m.modifiers & 0x400 != 0 }
  predicate IsStatic(m: Method) { m.modifiers & 0x8 != 0 }
  predicate IsPublic(mods: bv32) { mods & 0x1 != 0 }
  predicate IsPrivate(mods: bv32) { mods & 0x2 != 0 }
  predicate IsProtected(mods: bv32) { mods & 0x4 != 0 }

  /** `Modifier.PUBLIC | Modifier.PROTECTED | Modifier.PRIVATE`. */
  const ACCESS_MODIFIERS: bv32 := 0x7

  const ObjectType: Type := Class(Named(ObjectId))

  // ---------------------------------------------------------------- lookups

  function ClassName(h: Hierarchy, c: ClassId): string {
    if c < |h.classes| then h.classes[c].name else ""
  }

  function PackageOf(h: Hierarchy, c: ClassId): string {
    if c < |h.classes| then h.classes[c].pkg else ""
  }

  predicate IsInterface(h: Hierarchy, c: ClassId) {
    c < |h.classes| && h.classes[c].isInterface
  }

  predicate IsPrimitive(h: Hierarchy, c: ClassId) {
    c < |h.classes| && h.classes[c].isPrimitive
  }

  function VarName(h: Hierarchy, v: VarId): string {
    if v < |h.vars| then h.vars[v].name else ""
  }

  /** `getBounds()`: a variable without a declaration is bounded by `Object`. */
  function Bounds(h: Hierarchy, v: VarId): (r: seq<Type>)
    ensures |r| > 0
  {
    if v < |h.vars| && |h.vars[v].bounds| > 0 then h.vars[v].bounds else [ObjectType]
  }

  function FirstBound(h: Hierarchy, v: VarId): Type {
    Bounds(h, v)[0]
  }

  function Declared(h: Hierarchy, c: ClassId): seq<Method> {
    if c < |h.classes| then h.classes[c].declared else []
  }

  function DeclaredSet(h: Hierarchy, c: ClassId): set<Method> {
    set m | m in Declared(h, c)
  }

  function TypeParamsOf(h: Hierarchy, c: ClassId): seq<VarId> {
    if c < |h.classes| then h.classes[c].typeParams else []
  }

  /** The class a supertype expression names (`getRawType()` of a parameterized type). */
  function RawOf(t: Type): ClassId {
    match t
    case Class(Named(i)) => i
    case Parameterized(raw, _) => raw
    case _ => ObjectId
  }

  predicate IsClassType(t: Type) {
    (t.Class? && t.ref.Named?) || t.Parameterized?
  }

  /** `getSuperclass()`: absent for `Object`, interfaces and primitives. */
  function SuperclassOf(h: Hierarchy, c: ClassId): Option<ClassId> {
    if c < |h.classes| && h.classes[c].superclass.Some? then Some(RawOf(h.classes[c].superclass.value)) else None
  }

  /** `getGenericInterfaces()`. */
  function GenericInterfaces(h: Hierarchy, c: ClassId): seq<Type> {
    if c < |h.classes| then h.classes[c].interfaces else []
  }

  /** `getInterfaces()`. */
  function InterfacesOf(h: Hierarchy, c: ClassId): (r: seq<ClassId>)
    ensures |r| == |GenericInterfaces(h, c)|
  {
    var ts := GenericInterfaces(h, c);
    seq(|ts|, i requires 0 <= i < |ts| => RawOf(ts[i]))
  }

  /** The generic supertypes in the order the engine visits them: interfaces, then the superclass. */
  function ExtendedTypes(h: Hierarchy, c: ClassId): seq<Type> {
    GenericInterfaces(h, c)
      + (if c < |h.classes| && h.classes[c].superclass.Some? then [h.classes[c].superclass.value] else [])
  }

  /** The direct supertypes: interfaces, then the superclass. */
  function SuperIds(h: Hierarchy, c: ClassId): seq<ClassId> {
    InterfacesOf(h, c) + (if SuperclassOf(h, c).Some? then [SuperclassOf(h, c).value] else [])
  }

  // ---------------------------------------------------------------- well-formedness

  /**
   * How deep a type may send a variable-chasing recursion: a variable ranks one above its
   * index, an array as its component, a wildcard one above its upper bounds.
   */
  function VarRank(t: Type): nat {
    match t
    case Var(i) => i + 1
    case GenericArray(c) => VarRank(c)
    case Wildcard(up, _) => 1 + MaxOf(seq(|up|, i requires 0 <= i < |up| => VarRank(up[i])))
    case _ => 0
  }

  function MaxOf(s: seq<nat>): (r: nat)
    ensures forall i :: 0 <= i < |s| ==> s[i] <= r
  {
    if |s| == 0 then 0 else var m := MaxOf(s[1..]); if s[0] > m then s[0] else m
  }

  predicate IsIdentifier(s: string) {
    forall k :: 0 <= k < |s| ==> s[k] != '<' && s[k] != '[' && s[k] != '?'
  }

  predicate WfClass(h: Hierarchy, c: ClassId)
    requires c < |h.classes|
  {
    var d := h.classes[c];
    && (d.superclass.Some? ==> IsClassType(d.superclass.value) && RawOf(d.superclass.value) < c
                               && !IsInterface(h, RawOf(d.superclass.value))
                               && !IsPrimitive(h, RawOf(d.superclass.value)))
    && (d.isInterface || d.isPrimitive || c == ObjectId <==> d.superclass.None?)
    && (d.isPrimitive ==> d.interfaces == [])
    && (forall t :: t in d.interfaces ==>
          IsClassType(t) && RawOf(t) < c && IsInterface(h, RawOf(t)) && !IsPrimitive(h, RawOf(t)))
    && (d.enclosing.Some? ==> d.enclosing.value < c)
    && (forall m :: m in d.declared ==> m.declaring == c)
    && (forall t :: t in ExtendedTypes(h, c) && t.Parameterized? ==> |t.args| == |TypeParamsOf(h, t.raw)|)
    && (forall i, j :: 0 <= i < j < |d.typeParams| ==> VarName(h, d.typeParams[i]) != VarName(h, d.typeParams[j]))
  }

  /**
   * A hierarchy as reflection presents it: `Object` first, every supertype and every
   * enclosing class before the types that use it (the hierarchy is acyclic), and every
   * bound of a variable ranked below it (the chain of first bounds is acyclic).
   */
  predicate Wf(h: Hierarchy) {
    && |h.classes| > 0
    && !h.classes[ObjectId].isInterface
    && !h.classes[ObjectId].isPrimitive
    && h.classes[ObjectId].interfaces == []
    && (forall c :: 0 <= c < |h.classes| ==> WfClass(h, c))
    && (forall v, b :: 0 <= v < |h.vars| && b in h.vars[v].bounds ==> VarRank(b) <= v)
    && (forall v :: 0 <= v < |h.vars| ==> IsIdentifier(h.vars[v].name))
  }

  lemma SuperIdsBelow(h: Hierarchy, c: ClassId)
    requires Wf(h)
    ensures forall s :: s in SuperIds(h, c) ==> s < c
  {
    if c < |h.classes| {
      assert WfClass(h, c);
      forall s | s in InterfacesOf(h, c) ensures s < c {
        var i :| 0 <= i < |InterfacesOf(h, c)| && InterfacesOf(h, c)[i] == s;
        assert h.classes[c].interfaces[i] in h.classes[c].interfaces;
      }
    }
  }

  lemma ExtendedTypesBelow(h: Hierarchy, c: ClassId)
    requires Wf(h)
    ensures forall t :: t in ExtendedTypes(h, c) ==> IsClassType(t) && RawOf(t) < c
    ensures forall t :: t in ExtendedTypes(h, c) && t.Parameterized? ==> |t.args| == |TypeParamsOf(h, t.raw)|
    ensures |ExtendedTypes(h, c)| == |SuperIds(h, c)|
    ensures forall i :: 0 <= i < |ExtendedTypes(h, c)| ==> RawOf(ExtendedTypes(h, c)[i]) == SuperIds(h, c)[i]
  {
    if c < |h.classes| {
      assert WfClass(h, c);
    }
  }

  lemma BoundsRanked(h: Hierarchy, v: VarId)
    requires Wf(h)
    ensures forall b :: b in Bounds(h, v) ==> VarRank(b) < v + 1
  {
  }

  /** The class itself and everything it extends or implements, directly or not. */
  function AncestorsOrSelf(h: Hierarchy, c: ClassId): (r: set<ClassId>)
    requires Wf(h)
    ensures c in r
    ensures forall a :: a in r ==> a <= c
    decreases c
  {
    SuperIdsBelow(h, c);
    {c} + set s, a | s in SuperIds(h, c) && a in AncestorsOrSelf(h, s) :: a
  }

  // ---------------------------------------------------------------- getTypeName

  function Join(parts: seq<string>, sep: string): string {
    if |parts| == 0 then "" else if |parts| == 1 then parts[0] else parts[0] + sep + Join(parts[1..], sep)
  }

  function RefName(h: Hierarchy, r: ClassRef): string {
    match r
    case Named(i) => ClassName(h, i)
    case ArrayOf(c) => RefName(h, c) + "[]"
  }

  /** A wildcard whose only bound is `Object` prints as a bare `?`. */
  predicate OnlyObjectBound(up: seq<Type>) {
    |up| == 1 && up[0] == ObjectType
  }

  /**
   * `Type.getTypeName()`: the type as written, with no substitution. The class name is the
   * canonical name for every class.
   */
  function Plain(h: Hierarchy, t: Type): string {
    match t
    case Class(r) => RefName(h, r)
    case Parameterized(raw, args) =>
      ClassName(h, raw)
        + (if |args| == 0 then ""
           else "<" + Join(seq(|args|, i requires 0 <= i < |args| => Plain(h, args[i])), ", ") + ">")
    case Var(v) => VarName(h, v)
    case Wildcard(up, lo) =>
      "?" + (if |lo| != 0 then " super " + Join(seq(|lo|, i requires 0 <= i < |lo| => Plain(h, lo[i])), " & ")
             else if |up| != 0 && !OnlyObjectBound(up)
             then " extends " + Join(seq(|up|, i requires 0 <= i < |up| => Plain(h, up[i])), " & ")
             else "")
    case GenericArray(c) => Plain(h, c) + "[]"
  }

  /** Composite types never print as an identifier, so they never collide with a type-parameter name. */
  lemma {:induction false} CompositeNameNotIdentifier(h: Hierarchy, t: Type)
    requires t.GenericArray? || t.Wildcard? || (t.Parameterized? && |t.args| > 0)
    ensures !IsIdentifier(Plain(h, t))
  {
    var s := Plain(h, t);
    match t
    case GenericArray(c) =>
      assert s[|s| - 2] == '[';
    case Wildcard(_, _) =>
      assert s[0] == '?';
    case Parameterized(raw, args) =>
      assert s[|ClassName(h, raw)|] == '<';
  }

  // ---------------------------------------------------------------- Class.isAssignableFrom

  function RefDepth(r: ClassRef): nat {
    match r
    case Named(_) => 0
    case ArrayOf(c) => 1 + RefDepth(c)
  }

  function BaseId(r: ClassRef): ClassId {
    match r
    case Named(i) => i
    case ArrayOf(c) => BaseId(c)
  }

  predicate IsPrimitiveRef(h: Hierarchy, r: ClassRef) {
    r.Named? && IsPrimitive(h, r.id)
  }

  /**
   * `target.isAssignableFrom(src)` on class tokens: identity, a chain of direct supertypes,
   * `Object` above every reference type, and array covariance over reference components.
   */
  function ClassAssignable(h: Hierarchy, target: ClassRef, src: ClassRef): bool
    requires Wf(h)
    decreases RefDepth(src), BaseId(src)
  {
    if target == src then true
    else match src
      case Named(i) =>
        if i >= |h.classes| || IsPrimitive(h, i) then false
        else if target == Named(ObjectId) then true
        else
          SuperIdsBelow(h, i);
          exists s :: s in SuperIds(h, i) && ClassAssignable(h, target, Named(s))
      case ArrayOf(c) =>
        target == Named(ObjectId)
        || (target.ArrayOf? && !IsPrimitiveRef(h, c) && !IsPrimitiveRef(h, target.component)
            && ClassAssignable(h, target.component, c))
  }

  lemma {:induction false} AncestorAssignable(h: Hierarchy, a: ClassId, c: ClassId)
    requires Wf(h) && c < |h.classes| && !IsPrimitive(h, c)
    requires a in AncestorsOrSelf(h, c)
    ensures ClassAssignable(h, Named(a), Named(c))
    decreases c
  {
    if a != c {
      SuperIdsBelow(h, c);
      var s :| s in SuperIds(h, c) && a in AncestorsOrSelf(h, s);
      AncestorAssignableStep(h, a, c, s);
    }
  }

  lemma {:induction false} AncestorAssignableStep(h: Hierarchy, a: ClassId, c: ClassId, s: ClassId)
    requires Wf(h) && c < |h.classes| && !IsPrimitive(h, c) && a != c
    requires s in SuperIds(h, c) && a in AncestorsOrSelf(h, s)
    ensures ClassAssignable(h, Named(a), Named(c))
    decreases c, 0
  {
    SuperIdsBelow(h, c);
    assert WfClass(h, c);
    assert s < |h.classes| && !IsPrimitive(h, s) by {
      if s in InterfacesOf(h, c) {
        var i :| 0 <= i < |InterfacesOf(h, c)| && InterfacesOf(h, c)[i] == s;
        assert h.classes[c].interfaces[i] in h.classes[c].interfaces;
      }
    }
    AncestorAssignable(h, a, s);
  }
}
