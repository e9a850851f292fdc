/**
 * Context-aware operations on Java types: rendering a type with its variables replaced,
 * erasure (section 4.6 of the Java Language Specification), same signature, subsignature
 * and override-equivalence (section 8.4.2), raw types (section 4.8), and the walk over the
 * supertype graph that fills the store of generic contexts.
 */
module GenericUtils {
  import opened JavaTypes
  import opened Contexts

  // ---------------------------------------------------------------- typeToStringInContext

  /**
   * `typeToStringInContext`: the type's name, with each type variable that the context
   * binds replaced by its replacement, printed as written. A type whose own name is in
   * `ignore` prints as that name. The replacement is substituted once; the source
   * substitutes it again (see `RenderAsWritten`).
   */
  function Render(h: Hierarchy, ctx: Context, t: Type, ignore: set<string>): string
    decreases t
  {
    if Plain(h, t) in ignore then Plain(h, t)
    else match t
      case Class(r) => RefName(h, r)
      case Parameterized(raw, args) =>
        ClassName(h, raw)
          + (if |args| == 0 then ""
             else "<" + Join(seq(|args|, i requires 0 <= i < |args| => Render(h, ctx, args[i], ignore)), ", ") + ">")
      case Var(v) => if VarName(h, v) in ctx then Plain(h, ctx[VarName(h, v)]) else VarName(h, v)
      case Wildcard(up, lo) =>
        "?" + (if |lo| != 0 then " super " + Join(seq(|lo|, i requires 0 <= i < |lo| => Render(h, ctx, lo[i], ignore)), " & ")
               else if |up| != 0 && !OnlyObjectBound(up)
               then " extends " + Join(seq(|up|, i requires 0 <= i < |up| => Render(h, ctx, up[i], ignore)), " & ")
               else "")
      case GenericArray(c) => Render(h, ctx, c, ignore) + "[]"
  }

  /** With nothing to substitute, rendering is `getTypeName`. */
  lemma {:induction false} RenderEmptyIsPlain(h: Hierarchy, t: Type, ignore: set<string>)
    ensures Render(h, map[], t, ignore) == Plain(h, t)
    decreases t
  {
    match t
    case Class(_) =>
    case Var(_) =>
    case Parameterized(raw, args) =>
      forall i | 0 <= i < |args| ensures Render(h, map[], args[i], ignore) == Plain(h, args[i]) {
        RenderEmptyIsPlain(h, args[i], ignore);
      }
      assert seq(|args|, i requires 0 <= i < |args| => Render(h, map[], args[i], ignore))
          == seq(|args|, i requires 0 <= i < |args| => Plain(h, args[i]));
    case Wildcard(up, lo) =>
      forall i | 0 <= i < |lo| ensures Render(h, map[], lo[i], ignore) == Plain(h, lo[i]) {
        RenderEmptyIsPlain(h, lo[i], ignore);
      }
      forall i | 0 <= i < |up| ensures Render(h, map[], up[i], ignore) == Plain(h, up[i]) {
        RenderEmptyIsPlain(h, up[i], ignore);
      }
      assert seq(|lo|, i requires 0 <= i < |lo| => Render(h, map[], lo[i], ignore))
          == seq(|lo|, i requires 0 <= i < |lo| => Plain(h, lo[i]));
      assert seq(|up|, i requires 0 <= i < |up| => Render(h, map[], up[i], ignore))
          == seq(|up|, i requires 0 <= i < |up| => Plain(h, up[i]));
    case GenericArray(c) =>
      RenderEmptyIsPlain(h, c, ignore);
  }

  /** The case analysis of `typeToStringInContext` on names, variables, wildcards and arrays. */
  lemma RenderCases(h: Hierarchy, ctx: Context, t: Type, ignore: set<string>)
    ensures Plain(h, t) in ignore ==> Render(h, ctx, t, ignore) == Plain(h, t)
    ensures t.Var? && Plain(h, t) !in ignore && VarName(h, t.id) in ctx && ctx[VarName(h, t.id)].Var?
            ==> Render(h, ctx, t, ignore) == VarName(h, ctx[VarName(h, t.id)].id)
    ensures t.Var? && VarName(h, t.id) !in ctx ==> Render(h, ctx, t, ignore) == VarName(h, t.id)
    ensures t.Wildcard? && Plain(h, t) !in ignore && |t.lower| != 0
            ==> Render(h, ctx, t, ignore)
                == "? super " + Join(seq(|t.lower|, i requires 0 <= i < |t.lower| => Render(h, ctx, t.lower[i], ignore)), " & ")
    ensures t.Wildcard? && Plain(h, t) !in ignore && |t.lower| == 0 && |t.upper| != 0 && !OnlyObjectBound(t.upper)
            ==> Render(h, ctx, t, ignore)
                == "? extends " + Join(seq(|t.upper|, i requires 0 <= i < |t.upper| => Render(h, ctx, t.upper[i], ignore)), " & ")
    ensures t.Wildcard? && Plain(h, t) !in ignore && |t.lower| == 0 && OnlyObjectBound(t.upper)
            ==> Render(h, ctx, t, ignore) == "?"
    ensures t.GenericArray? && Plain(h, t) !in ignore
            ==> Render(h, ctx, t, ignore) == Render(h, ctx, t.component, ignore) + "[]"
  {
    if t.Wildcard? && Plain(h, t) !in ignore {
      WildcardText(Join(seq(|t.lower|, i requires 0 <= i < |t.lower| => Render(h, ctx, t.lower[i], ignore)), " & "),
                   Join(seq(|t.upper|, i requires 0 <= i < |t.upper| => Render(h, ctx, t.upper[i], ignore)), " & "));
    }
  }

  lemma WildcardText(lower: string, upper: string)
    ensures "?" + (" super " + lower) == "? super " + lower
    ensures "?" + (" extends " + upper) == "? extends " + upper
  {
  }

  // ---------------------------------------------------------------- the source's rendering

  /**
   * `typeToStringInContext` as written: a replacement that is not a type variable is
   * rendered again in the same context. `fuel` bounds the number of such re-renderings;
   * `None` means the fuel ran out, where the source recurses without end.
   */
  function RenderAsWritten(h: Hierarchy, ctx: Context, t: Type, ignore: set<string>, fuel: nat): Option<string>
    decreases fuel, t
  {
    if Plain(h, t) in ignore then Some(Plain(h, t))
    else match t
      case Class(r) => Some(RefName(h, r))
      case Parameterized(raw, args) =>
        var rs := seq(|args|, i requires 0 <= i < |args| => RenderAsWritten(h, ctx, args[i], ignore, fuel));
        if exists i :: 0 <= i < |rs| && rs[i].None? then None
        else Some(ClassName(h, raw) + (if |args| == 0 then "" else "<" + Join(Values(rs), ", ") + ">"))
      case Var(v) =>
        if VarName(h, v) !in ctx then Some(VarName(h, v))
        else
          var replacement := ctx[VarName(h, v)];
          if replacement.Var? then Some(VarName(h, replacement.id))
          else if fuel == 0 then None
          else RenderAsWritten(h, ctx, replacement, ignore, fuel - 1)
      case Wildcard(up, lo) =>
        var ls := seq(|lo|, i requires 0 <= i < |lo| => RenderAsWritten(h, ctx, lo[i], ignore, fuel));
        var us := seq(|up|, i requires 0 <= i < |up| => RenderAsWritten(h, ctx, up[i], ignore, fuel));
        if |lo| != 0 then
          if exists i :: 0 <= i < |ls| && ls[i].None? then None else Some("?" + (" super " + Join(Values(ls), " & ")))
        else if |up| != 0 && !OnlyObjectBound(up) then
          if exists i :: 0 <= i < |us| && us[i].None? then None else Some("?" + (" extends " + Join(Values(us), " & ")))
        else Some("?" + "")
      case GenericArray(c) =>
        var r := RenderAsWritten(h, ctx, c, ignore, fuel);
        if r.None? then None else Some(r.value + "[]")
  }

  function Values(rs: seq<Option<string>>): (r: seq<string>)
    requires forall i :: 0 <= i < |rs| ==> rs[i].Some?
    ensures |r| == |rs|
    ensures forall i :: 0 <= i < |rs| ==> r[i] == rs[i].value
  {
    seq(|rs|, i requires 0 <= i < |rs| => rs[i].value)
  }

  /**
   * The context the store holds for `Comparable` when the analysed class is
   * `abstract class A<T> implements Comparable<java.util.List<T>>`: Comparable's parameter
   * `T` maps to `List<T>`, whose `T` is A's own variable of the same name. Rendering
   * `compareTo`'s parameter in it never finishes as written.
   */
  lemma {:induction false} RenderAsWrittenDiverges(h: Hierarchy, list: ClassId, ownT: VarId, comparableT: VarId, fuel: nat)
    requires VarName(h, ownT) == "T" && VarName(h, comparableT) == "T"
    ensures RenderAsWritten(h, map["T" := Parameterized(list, [Var(ownT)])], Var(comparableT), {}, fuel).None?
    ensures RenderAsWritten(h, map["T" := Parameterized(list, [Var(ownT)])], Parameterized(list, [Var(ownT)]), {}, fuel).None?
    decreases fuel
  {
    var ctx := map["T" := Parameterized(list, [Var(ownT)])];
    if fuel > 0 {
      RenderAsWrittenDiverges(h, list, ownT, comparableT, fuel - 1);
    }
    var rs := seq(1, i requires 0 <= i < 1 => RenderAsWritten(h, ctx, [Var(ownT)][i], {}, fuel));
    assert rs[0] == RenderAsWritten(h, ctx, Var(ownT), {}, fuel);
    assert rs[0].None?;
  }

  /** The same input renders, substituting once, as `java.util.List<T>`'s own name with `T` in place. */
  lemma RenderSubstitutesOnce(h: Hierarchy, list: ClassId, ownT: VarId, comparableT: VarId)
    requires VarName(h, ownT) == "T" && VarName(h, comparableT) == "T"
    ensures Render(h, map["T" := Parameterized(list, [Var(ownT)])], Var(comparableT), {})
         == ClassName(h, list) + "<T>"
  {
    var p := Parameterized(list, [Var(ownT)]);
    assert seq(1, i requires 0 <= i < 1 => Plain(h, p.args[i])) == ["T"];
  }
  /**
   * `abstract class A<U> implements I<java.util.List<U>, String>` with `interface I<T, U>`:
   * I's context maps `T` to `List<U>` over A's own `U`, and `U` to `String`. As written,
   * I's `T` renders with A's `U` replaced once more, by I's `String`; substituting once
   * keeps A's `U`.
   */
  lemma RenderAsWrittenResubstitutes(h: Hierarchy, list: ClassId, str: ClassId, ownU: VarId, iT: VarId, fuel: nat)
    requires VarName(h, ownU) == "U" && VarName(h, iT) == "T"
    requires fuel >= 2
    ensures var ctx := map["T" := Parameterized(list, [Var(ownU)]), "U" := Class(Named(str))];
            && RenderAsWritten(h, ctx, Var(iT), {}, fuel) == Some(ClassName(h, list) + "<" + ClassName(h, str) + ">")
            && Render(h, ctx, Var(iT), {}) == ClassName(h, list) + "<U>"
  {
    var ctx := map["T" := Parameterized(list, [Var(ownU)]), "U" := Class(Named(str))];
    var p := Parameterized(list, [Var(ownU)]);
    assert RenderAsWritten(h, ctx, Var(ownU), {}, fuel - 1) == Some(ClassName(h, str));
    var rs := seq(1, i requires 0 <= i < 1 => RenderAsWritten(h, ctx, p.args[i], {}, fuel - 1));
    assert rs == [Some(ClassName(h, str))];
    assert Values(rs) == [ClassName(h, str)];
    assert Join(Values(rs), ", ") == ClassName(h, str);
    assert RenderAsWritten(h, ctx, p, {}, fuel - 1) == Some(ClassName(h, list) + ("<" + ClassName(h, str) + ">"));
    assert ClassName(h, list) + ("<" + ClassName(h, str) + ">") == ClassName(h, list) + "<" + ClassName(h, str) + ">";
    assert seq(1, i requires 0 <= i < 1 => Plain(h, p.args[i])) == ["U"];
  }

  /** Whether a type variable with one of `names` occurs in `t`. */
  predicate Mentions(h: Hierarchy, t: Type, names: set<string>)
    decreases t
  {
    match t
    case Class(_) => false
    case Parameterized(_, args) => exists i :: 0 <= i < |args| && Mentions(h, args[i], names)
    case Var(v) => VarName(h, v) in names
    case Wildcard(up, lo) =>
      (exists i :: 0 <= i < |up| && Mentions(h, up[i], names))
      || (exists i :: 0 <= i < |lo| && Mentions(h, lo[i], names))
    case GenericArray(c) => Mentions(h, c, names)
  }

  /** No replacement mentions a variable the context binds: substituting twice is substituting once. */
  predicate CaptureFree(h: Hierarchy, ctx: Context) {
    forall k :: k in ctx ==> !Mentions(h, ctx[k], ctx.Keys)
  }

  /** A type that mentions none of the bound variables renders as written, whatever the fuel. */
  lemma {:induction false} RenderAsWrittenUntouched(h: Hierarchy, ctx: Context, t: Type, ignore: set<string>, fuel: nat)
    requires !Mentions(h, t, ctx.Keys)
    ensures RenderAsWritten(h, ctx, t, ignore, fuel) == Some(Plain(h, t))
    decreases t
  {
    if Plain(h, t) !in ignore {
      match t
      case Class(_) =>
      case Var(_) =>
      case Parameterized(raw, args) =>
        var rs := seq(|args|, i requires 0 <= i < |args| => RenderAsWritten(h, ctx, args[i], ignore, fuel));
        forall i | 0 <= i < |args| ensures rs[i] == Some(Plain(h, args[i])) {
          RenderAsWrittenUntouched(h, ctx, args[i], ignore, fuel);
        }
        assert Values(rs) == seq(|args|, i requires 0 <= i < |args| => Plain(h, args[i]));
      case Wildcard(up, lo) =>
        var ls := seq(|lo|, i requires 0 <= i < |lo| => RenderAsWritten(h, ctx, lo[i], ignore, fuel));
        var us := seq(|up|, i requires 0 <= i < |up| => RenderAsWritten(h, ctx, up[i], ignore, fuel));
        forall i | 0 <= i < |lo| ensures ls[i] == Some(Plain(h, lo[i])) {
          RenderAsWrittenUntouched(h, ctx, lo[i], ignore, fuel);
        }
        forall i | 0 <= i < |up| ensures us[i] == Some(Plain(h, up[i])) {
          RenderAsWrittenUntouched(h, ctx, up[i], ignore, fuel);
        }
        assert Values(ls) == seq(|lo|, i requires 0 <= i < |lo| => Plain(h, lo[i]));
        assert Values(us) == seq(|up|, i requires 0 <= i < |up| => Plain(h, up[i]));
      case GenericArray(c) =>
        RenderAsWrittenUntouched(h, ctx, c, ignore, fuel);
    }
  }

  /**
   * Where no replacement mentions a bound variable, the source's rendering finishes and
   * agrees with `Render`: the correction changes nothing for such contexts.
   */
  lemma {:induction false} RenderAgreesWhenCaptureFree(h: Hierarchy, ctx: Context, t: Type, ignore: set<string>, fuel: nat)
    requires CaptureFree(h, ctx) && fuel >= 1
    ensures RenderAsWritten(h, ctx, t, ignore, fuel) == Some(Render(h, ctx, t, ignore))
    decreases t
  {
    if Plain(h, t) !in ignore {
      match t
      case Class(_) =>
      case Var(v) =>
        if VarName(h, v) in ctx && !ctx[VarName(h, v)].Var? {
          RenderAsWrittenUntouched(h, ctx, ctx[VarName(h, v)], ignore, fuel - 1);
        }
      case Parameterized(raw, args) =>
        var rs := seq(|args|, i requires 0 <= i < |args| => RenderAsWritten(h, ctx, args[i], ignore, fuel));
        forall i | 0 <= i < |args| ensures rs[i] == Some(Render(h, ctx, args[i], ignore)) {
          RenderAgreesWhenCaptureFree(h, ctx, args[i], ignore, fuel);
        }
        assert Values(rs) == seq(|args|, i requires 0 <= i < |args| => Render(h, ctx, args[i], ignore));
      case Wildcard(up, lo) =>
        var ls := seq(|lo|, i requires 0 <= i < |lo| => RenderAsWritten(h, ctx, lo[i], ignore, fuel));
        var us := seq(|up|, i requires 0 <= i < |up| => RenderAsWritten(h, ctx, up[i], ignore, fuel));
        forall i | 0 <= i < |lo| ensures ls[i] == Some(Render(h, ctx, lo[i], ignore)) {
          RenderAgreesWhenCaptureFree(h, ctx, lo[i], ignore, fuel);
        }
        forall i | 0 <= i < |up| ensures us[i] == Some(Render(h, ctx, up[i], ignore)) {
          RenderAgreesWhenCaptureFree(h, ctx, up[i], ignore, fuel);
        }
        assert Values(ls) == seq(|lo|, i requires 0 <= i < |lo| => Render(h, ctx, lo[i], ignore));
        assert Values(us) == seq(|up|, i requires 0 <= i < |up| => Render(h, ctx, up[i], ignore));
      case GenericArray(c) =>
        RenderAgreesWhenCaptureFree(h, ctx, c, ignore, fuel);
    }
  }
  // ---------------------------------------------------------------- getTypeErasure

  /**
   * `getTypeErasure`: the class a type erases to. A type variable that the context binds,
   * and that `ignore` does not name, erases as its replacement does on its own; any other
   * variable erases as its first bound does. The replacement is erased once, with no
   * context; the source erases it again in the same context (see `EraseAsWritten`).
   * A wildcard is never erased by the engine; the model sends it to `Object`.
   */
  function Erase(h: Hierarchy, ctx: Context, t: Type, ignore: set<string>): ClassRef
    requires Wf(h)
    decreases |ctx|, VarRank(t), t
  {
    match t
    case Parameterized(raw, _) => Named(raw)
    case GenericArray(c) => ArrayOf(Erase(h, ctx, c, ignore))
    case Var(v) =>
      var n := VarName(h, v);
      if n in ctx && n !in ignore then Erase(h, map[], ctx[n], {})
      else
        BoundsRanked(h, v);
        Erase(h, ctx, FirstBound(h, v), ignore)
    case Class(r) => r
    case Wildcard(_, _) => Named(ObjectId)
  }

  /** The case analysis of `getTypeErasure`. */
  lemma EraseCases(h: Hierarchy, ctx: Context, t: Type, ignore: set<string>)
    requires Wf(h)
    ensures t.Parameterized? ==> Erase(h, ctx, t, ignore) == Erase(h, ctx, Class(Named(t.raw)), ignore)
    ensures t.GenericArray? ==> Erase(h, ctx, t, ignore) == ArrayOf(Erase(h, ctx, t.component, ignore))
    ensures t.Var? && (VarName(h, t.id) !in ctx || VarName(h, t.id) in ignore)
            ==> Erase(h, ctx, t, ignore) == Erase(h, ctx, FirstBound(h, t.id), ignore)
    ensures t.Class? ==> Erase(h, ctx, t, ignore) == t.ref
  {
  }

  /**
   * `getTypeErasure` as written: a replacement that is not a type variable is erased again
   * in the same context; `None` means `fuel` ran out, where the source recurses without end.
   */
  function EraseAsWritten(h: Hierarchy, ctx: Context, t: Type, ignore: set<string>, fuel: nat): Option<ClassRef>
    requires Wf(h)
    decreases fuel, |ctx|, VarRank(t), t
  {
    match t
    case Parameterized(raw, _) => Some(Named(raw))
    case GenericArray(c) =>
      var r := EraseAsWritten(h, ctx, c, ignore, fuel);
      if r.None? then None else Some(ArrayOf(r.value))
    case Var(v) =>
      var n := VarName(h, v);
      if n in ctx && n !in ignore then
        var replacement := ctx[n];
        if replacement.Var? then
          BoundsRanked(h, replacement.id);
          EraseAsWritten(h, map[], FirstBound(h, replacement.id), {}, fuel)
        else if fuel == 0 then None
        else EraseAsWritten(h, ctx, replacement, ignore, fuel - 1)
      else
        BoundsRanked(h, v);
        EraseAsWritten(h, ctx, FirstBound(h, v), ignore, fuel)
    case Class(r) => Some(r)
    case Wildcard(_, _) => Some(Named(ObjectId))
  }

  /**
   * With `abstract class A<T> implements Comparable<T[]>` the store maps Comparable's `T`
   * to `T[]` over A's own `T`; erasing `compareTo`'s parameter in that context never
   * finishes as written.
   */
  lemma {:induction false} EraseAsWrittenDiverges(h: Hierarchy, ownT: VarId, comparableT: VarId, fuel: nat)
    requires Wf(h)
    requires VarName(h, ownT) == "T" && VarName(h, comparableT) == "T"
    ensures EraseAsWritten(h, map["T" := GenericArray(Var(ownT))], Var(comparableT), {}, fuel).None?
    ensures EraseAsWritten(h, map["T" := GenericArray(Var(ownT))], GenericArray(Var(ownT)), {}, fuel).None?
    decreases fuel
  {
    if fuel > 0 {
      EraseAsWrittenDiverges(h, ownT, comparableT, fuel - 1);
    }
  }

  /** The same input erases, substituting once, to `Object[]`: A's `T` is bounded by `Object`. */
  lemma EraseSubstitutesOnce(h: Hierarchy, ownT: VarId, comparableT: VarId)
    requires Wf(h)
    requires VarName(h, ownT) == "T" && VarName(h, comparableT) == "T"
    requires Bounds(h, ownT) == [ObjectType]
    ensures Erase(h, map["T" := GenericArray(Var(ownT))], Var(comparableT), {}) == ArrayOf(Named(ObjectId))
  {
    assert Erase(h, map[], Var(ownT), {}) == Named(ObjectId);
  }

  /** Whether erasing `t` without a context reaches a type variable with one of `names`. */
  predicate ErasureMentions(h: Hierarchy, t: Type, names: set<string>)
    requires Wf(h)
    decreases VarRank(t), t
  {
    match t
    case GenericArray(c) => ErasureMentions(h, c, names)
    case Var(v) =>
      BoundsRanked(h, v);
      VarName(h, v) in names || ErasureMentions(h, FirstBound(h, v), names)
    case _ => false
  }

  lemma {:induction false} ErasureMentionsNothing(h: Hierarchy, t: Type)
    requires Wf(h)
    ensures !ErasureMentions(h, t, {})
    decreases VarRank(t), t
  {
    match t
    case GenericArray(c) =>
      ErasureMentionsNothing(h, c);
    case Var(v) =>
      BoundsRanked(h, v);
      ErasureMentionsNothing(h, FirstBound(h, v));
    case _ =>
  }

  /** Erasing a replacement never reaches a variable the context binds. */
  predicate ErasureCaptureFree(h: Hierarchy, ctx: Context)
    requires Wf(h)
  {
    forall k :: k in ctx ==> !ErasureMentions(h, ctx[k], ctx.Keys)
  }

  /** A type whose erasure reaches no bound variable erases, as written, as it does on its own. */
  lemma {:induction false} EraseAsWrittenUntouched(h: Hierarchy, ctx: Context, t: Type, ignore: set<string>, fuel: nat)
    requires Wf(h) && !ErasureMentions(h, t, ctx.Keys)
    ensures EraseAsWritten(h, ctx, t, ignore, fuel) == Some(Erase(h, map[], t, {}))
    decreases VarRank(t), t
  {
    match t
    case GenericArray(c) =>
      EraseAsWrittenUntouched(h, ctx, c, ignore, fuel);
    case Var(v) =>
      BoundsRanked(h, v);
      EraseAsWrittenUntouched(h, ctx, FirstBound(h, v), ignore, fuel);
    case _ =>
  }

  /**
   * Where erasing a replacement reaches no bound variable, the source's erasure finishes and
   * agrees with `Erase`: the correction changes nothing for such contexts.
   */
  lemma {:induction false} EraseAgreesWhenCaptureFree(h: Hierarchy, ctx: Context, t: Type, ignore: set<string>, fuel: nat)
    requires Wf(h) && ErasureCaptureFree(h, ctx) && fuel >= 1
    ensures EraseAsWritten(h, ctx, t, ignore, fuel) == Some(Erase(h, ctx, t, ignore))
    decreases VarRank(t), t
  {
    match t
    case GenericArray(c) =>
      EraseAgreesWhenCaptureFree(h, ctx, c, ignore, fuel);
    case Var(v) =>
      var n := VarName(h, v);
      BoundsRanked(h, v);
      if n in ctx && n !in ignore {
        var r := ctx[n];
        if r.Var? {
          BoundsRanked(h, r.id);
          var empty: Context := map[];
          assert empty.Keys == {};
          ErasureMentionsNothing(h, FirstBound(h, r.id));
          EraseAsWrittenUntouched(h, empty, FirstBound(h, r.id), {}, fuel);
        } else {
          EraseAsWrittenUntouched(h, ctx, r, ignore, fuel - 1);
        }
      } else {
        EraseAgreesWhenCaptureFree(h, ctx, FirstBound(h, v), ignore, fuel);
      }
    case _ =>
  }

  // ---------------------------------------------------------------- getMethodErasure, hasSameErasure

  /** `getMethodErasure`: the erasure of each generic parameter type, in order. */
  function MethodErasure(h: Hierarchy, m: Method, ctx: Context, ignore: set<string>): (r: seq<ClassRef>)
    requires Wf(h)
    ensures |r| == |m.params|
    ensures forall i :: 0 <= i < |r| ==> r[i] == Erase(h, ctx, m.params[i], ignore)
  {
    seq(|m.params|, i requires 0 <= i < |m.params| => Erase(h, ctx, m.params[i], ignore))
  }

  /** The names of a method's own type parameters. */
  function TypeParamNames(h: Hierarchy, vs: seq<VarId>): set<string> {
    set v | v in vs :: VarName(h, v)
  }

  /**
   * `hasSameErasure`: same name, and the first method's parameters erased in its context
   * (its own type parameters left alone) equal the second's erased without one.
   */
  predicate HasSameErasure(h: Hierarchy, m1: Method, m2: Method, ctx1: Context)
    requires Wf(h)
  {
    m1.name == m2.name
    && MethodErasure(h, m1, ctx1, TypeParamNames(h, m1.typeParams)) == MethodErasure(h, m2, map[], {})
  }

  /** With nothing to look up, the names left alone make no difference to an erasure. */
  lemma {:induction false} EraseIgnoresNamesWithoutContext(h: Hierarchy, t: Type, ignore: set<string>)
    requires Wf(h)
    ensures Erase(h, map[], t, ignore) == Erase(h, map[], t, {})
    decreases VarRank(t), t
  {
    match t
    case GenericArray(c) =>
      EraseIgnoresNamesWithoutContext(h, c, ignore);
    case Var(v) =>
      BoundsRanked(h, v);
      EraseIgnoresNamesWithoutContext(h, FirstBound(h, v), ignore);
    case _ =>
  }

  /**
   * In an empty context `hasSameErasure` compares the two context-free erasures, so it is
   * reflexive and symmetric there.
   */
  lemma HasSameErasureWithoutContext(h: Hierarchy, m1: Method, m2: Method)
    requires Wf(h)
    ensures HasSameErasure(h, m1, m2, map[])
            <==> m1.name == m2.name && MethodErasure(h, m1, map[], {}) == MethodErasure(h, m2, map[], {})
    ensures HasSameErasure(h, m1, m2, map[]) <==> HasSameErasure(h, m2, m1, map[])
    ensures HasSameErasure(h, m1, m1, map[])
  {
    forall m | m == m1 || m == m2
      ensures MethodErasure(h, m, map[], TypeParamNames(h, m.typeParams)) == MethodErasure(h, m, map[], {})
    {
      forall i | 0 <= i < |m.params|
        ensures Erase(h, map[], m.params[i], TypeParamNames(h, m.typeParams)) == Erase(h, map[], m.params[i], {})
      {
        EraseIgnoresNamesWithoutContext(h, m.params[i], TypeParamNames(h, m.typeParams));
      }
    }
  }
  // ---------------------------------------------------------------- isSameSignature

  /**
   * The second method's context after the loop that maps each of its type-parameter names
   * to the first method's type parameter at the same position (later positions win).
   */
  function Aliased(h: Hierarchy, ctx: Context, from: seq<VarId>, to: seq<VarId>, n: nat): Context
    requires n <= |from| && n <= |to|
  {
    if n == 0 then ctx else Aliased(h, ctx, from, to, n - 1)[VarName(h, from[n - 1]) := Var(to[n - 1])]
  }

  /** The first `n` types of the two lists render alike, position by position. */
  predicate RendersAlike(h: Hierarchy, c1: Context, c2: Context, ignore: set<string>, ts1: seq<Type>, ts2: seq<Type>, n: nat)
    requires n <= |ts1| && n <= |ts2|
  {
    n == 0
    || (RendersAlike(h, c1, c2, ignore, ts1, ts2, n - 1) && Render(h, c1, ts1[n - 1], ignore) == Render(h, c2, ts2[n - 1], {}))
  }

  lemma {:induction false} RendersAlikeAtEachPosition(h: Hierarchy, c1: Context, c2: Context, ignore: set<string>,
                                                      ts1: seq<Type>, ts2: seq<Type>, n: nat)
    requires n <= |ts1| && n <= |ts2|
    ensures RendersAlike(h, c1, c2, ignore, ts1, ts2, n)
            <==> forall i :: 0 <= i < n ==> Render(h, c1, ts1[i], ignore) == Render(h, c2, ts2[i], {})
  {
    if n > 0 {
      RendersAlikeAtEachPosition(h, c1, c2, ignore, ts1, ts2, n - 1);
    }
  }

  /** The bounds of two type parameters have the same count and render alike, position by position. */
  predicate SameBounds(h: Hierarchy, c1: Context, c2: Context, ignore: set<string>, v1: VarId, v2: VarId) {
    && |Bounds(h, v1)| == |Bounds(h, v2)|
    && RendersAlike(h, c1, c2, ignore, Bounds(h, v1), Bounds(h, v2), |Bounds(h, v1)|)
  }

  /** The first `n` pairs of type parameters, position by position, are related by `same`. */
  predicate PairwiseAlike(same: (VarId, VarId) -> bool, tps1: seq<VarId>, tps2: seq<VarId>, n: nat)
    requires n <= |tps1| && n <= |tps2|
  {
    n == 0 || (PairwiseAlike(same, tps1, tps2, n - 1) && same(tps1[n - 1], tps2[n - 1]))
  }

  lemma {:induction false} PairwiseAlikeAtEachPosition(same: (VarId, VarId) -> bool, tps1: seq<VarId>, tps2: seq<VarId>, n: nat)
    requires n <= |tps1| && n <= |tps2|
    ensures PairwiseAlike(same, tps1, tps2, n) <==> forall i :: 0 <= i < n ==> same(tps1[i], tps2[i])
  {
    if n > 0 {
      PairwiseAlikeAtEachPosition(same, tps1, tps2, n - 1);
    }
  }

  /** The first `n` type parameters have bounds that render alike. */
  predicate BoundsAlike(h: Hierarchy, c1: Context, c2: Context, ignore: set<string>, tps1: seq<VarId>, tps2: seq<VarId>, n: nat)
    requires n <= |tps1| && n <= |tps2|
  {
    PairwiseAlike((v1: VarId, v2: VarId) => SameBounds(h, c1, c2, ignore, v1, v2), tps1, tps2, n)
  }

  lemma BoundsAlikeAtEachPosition(h: Hierarchy, c1: Context, c2: Context, ignore: set<string>,
                                  tps1: seq<VarId>, tps2: seq<VarId>, n: nat)
    requires n <= |tps1| && n <= |tps2|
    ensures BoundsAlike(h, c1, c2, ignore, tps1, tps2, n)
            <==> forall i :: 0 <= i < n ==> SameBounds(h, c1, c2, ignore, tps1[i], tps2[i])
  {
    PairwiseAlikeAtEachPosition((v1: VarId, v2: VarId) => SameBounds(h, c1, c2, ignore, v1, v2), tps1, tps2, n);
  }

  /**
   * Same signature (section 8.4.2 of the Java Language Specification) as the engine decides
   * it: same name, same parameter count, same type-parameter count; after renaming the
   * second method's type parameters to the first's, the bounds and then the parameter
   * types render alike, each method in the context of its declaring type.
   */
  predicate SameSignature(h: Hierarchy, store: map<ClassId, Context>, m1: Method, m2: Method) {
    && m1.name == m2.name
    && |m1.params| == |m2.params|
    && |m1.typeParams| == |m2.typeParams|
    && var c1 := ContextOf(store, m1.declaring);
       var c2 := Aliased(h, ContextOf(store, m2.declaring), m2.typeParams, m1.typeParams, |m1.typeParams|);
       var ignore := TypeParamNames(h, m1.typeParams);
       && BoundsAlike(h, c1, c2, ignore, m1.typeParams, m2.typeParams, |m1.typeParams|)
       && RendersAlike(h, c1, c2, ignore, m1.params, m2.params, |m1.params|)
  }

  /** The inner loop of `isSameSignature` over the bounds of one pair of type parameters. */
  method CompareBounds(h: Hierarchy, c1: Context, c2: Context, ignore: set<string>, v1: VarId, v2: VarId)
    returns (alike: bool)
    ensures alike == SameBounds(h, c1, c2, ignore, v1, v2)
  {
    var b1 := Bounds(h, v1);
    var b2 := Bounds(h, v2);
    if |b1| != |b2| {
      return false;
    }
    var j := 0;
    while j < |b1|
      invariant 0 <= j <= |b1|
      invariant RendersAlike(h, c1, c2, ignore, b1, b2, j)
    {
      if Render(h, c1, b1[j], ignore) != Render(h, c2, b2[j], {}) {
        RendersAlikeAtEachPosition(h, c1, c2, ignore, b1, b2, |b1|);
        return false;
      }
      j := j + 1;
    }
    return true;
  }

  /** The first loop of `isSameSignature`: a copy of `ctx` with each name of `from` mapped to `to`'s variable. */
  method AliasTypeParameters(h: Hierarchy, ctx: Context, from: seq<VarId>, to: seq<VarId>) returns (aliased: Context)
    requires |from| == |to|
    ensures aliased == Aliased(h, ctx, from, to, |to|)
  {
    aliased := ctx;
    var i := 0;
    while i < |to|
      invariant 0 <= i <= |to|
      invariant aliased == Aliased(h, ctx, from, to, i)
    {
      aliased := aliased[VarName(h, from[i]) := Var(to[i])];
      i := i + 1;
    }
  }

  /** `isSameSignature`: builds the aliased context in a loop and compares with early exits. */
  method IsSameSignature(h: Hierarchy, contexts: GenericContexts, m1: Method, m2: Method) returns (same: bool)
    ensures same == SameSignature(h, contexts.rawTypeToContext, m1, m2)
  {
    if m1.name != m2.name {
      return false;
    }
    if |m1.params| != |m2.params| {
      return false;
    }
    if |m1.typeParams| != |m2.typeParams| {
      return false;
    }
    var c1 := contexts.GetContext(m1.declaring);
    var c2 := contexts.GetContext(m2.declaring);
    c2 := AliasTypeParameters(h, c2, m2.typeParams, m1.typeParams);
    var ignore := TypeParamNames(h, m1.typeParams);
    var alike := CompareAllBounds(h, c1, c2, ignore, m1.typeParams, m2.typeParams);
    if !alike {
      return false;
    }
    same := CompareParams(h, c1, c2, ignore, m1.params, m2.params);
  }

  /** The second loop of `isSameSignature`, over the pairs of type parameters. */
  method CompareAllBounds(h: Hierarchy, c1: Context, c2: Context, ignore: set<string>, tps1: seq<VarId>, tps2: seq<VarId>)
    returns (alike: bool)
    requires |tps1| == |tps2|
    ensures alike == BoundsAlike(h, c1, c2, ignore, tps1, tps2, |tps1|)
  {
    var i := 0;
    while i < |tps1|
      invariant 0 <= i <= |tps1|
      invariant BoundsAlike(h, c1, c2, ignore, tps1, tps2, i)
    {
      alike := CompareBounds(h, c1, c2, ignore, tps1[i], tps2[i]);
      if !alike {
        BoundsAlikeAtEachPosition(h, c1, c2, ignore, tps1, tps2, |tps1|);
        return false;
      }
      i := i + 1;
    }
    return true;
  }

  /** The last loop of `isSameSignature`, over the parameter types. */
  method CompareParams(h: Hierarchy, c1: Context, c2: Context, ignore: set<string>, ps1: seq<Type>, ps2: seq<Type>)
    returns (alike: bool)
    requires |ps1| == |ps2|
    ensures alike == RendersAlike(h, c1, c2, ignore, ps1, ps2, |ps1|)
  {
    var i := 0;
    while i < |ps1|
      invariant 0 <= i <= |ps1|
      invariant RendersAlike(h, c1, c2, ignore, ps1, ps2, i)
    {
      if Render(h, c1, ps1[i], ignore) != Render(h, c2, ps2[i], {}) {
        RendersAlikeAtEachPosition(h, c1, c2, ignore, ps1, ps2, |ps1|);
        return false;
      }
      i := i + 1;
    }
    return true;
  }

  /** The early exits of `isSameSignature`. */
  lemma SameSignatureNeedsEqualShapes(h: Hierarchy, store: map<ClassId, Context>, m1: Method, m2: Method)
    requires SameSignature(h, store, m1, m2)
    ensures m1.name == m2.name && |m1.params| == |m2.params| && |m1.typeParams| == |m2.typeParams|
    ensures forall i :: 0 <= i < |m1.typeParams| ==> |Bounds(h, m1.typeParams[i])| == |Bounds(h, m2.typeParams[i])|
  {
    var c2 := Aliased(h, ContextOf(store, m2.declaring), m2.typeParams, m1.typeParams, |m1.typeParams|);
    BoundsAlikeAtEachPosition(h, ContextOf(store, m1.declaring), c2, TypeParamNames(h, m1.typeParams),
                              m1.typeParams, m2.typeParams, |m1.typeParams|);
    forall i | 0 <= i < |m1.typeParams| ensures |Bounds(h, m1.typeParams[i])| == |Bounds(h, m2.typeParams[i])| {
      assert SameBounds(h, ContextOf(store, m1.declaring), c2, TypeParamNames(h, m1.typeParams), m1.typeParams[i], m2.typeParams[i]);
    }
  }

  lemma VarNameIsIdentifier(h: Hierarchy, v: VarId)
    requires Wf(h)
    ensures IsIdentifier(VarName(h, v))
  {
  }

  /**
   * Rendering with the names in `ignore` left alone is rendering in a context that maps
   * each of those names to a variable of the same name and agrees elsewhere.
   */
  lemma {:induction false} RenderUnderAliases(h: Hierarchy, c1: Context, c2: Context, ignore: set<string>, t: Type)
    requires forall n :: n in ignore ==> IsIdentifier(n) && n in c2 && c2[n].Var? && VarName(h, c2[n].id) == n
    requires forall n :: n in c1 && n !in ignore ==> n in c2 && c2[n] == c1[n]
    requires forall n :: n in c2 && n !in ignore ==> n in c1
    ensures Render(h, c1, t, ignore) == Render(h, c2, t, {})
    decreases t
  {
    if Plain(h, t) in ignore {
      match t
      case Class(_) =>
      case Var(_) =>
      case Parameterized(_, args) =>
        if |args| > 0 {
          CompositeNameNotIdentifier(h, t);
          assert false;
        }
      case Wildcard(_, _) =>
        CompositeNameNotIdentifier(h, t);
        assert false;
      case GenericArray(_) =>
        CompositeNameNotIdentifier(h, t);
        assert false;
    } else {
      match t
      case Class(_) =>
      case Var(_) =>
      case Parameterized(raw, args) =>
        forall i | 0 <= i < |args| ensures Render(h, c1, args[i], ignore) == Render(h, c2, args[i], {}) {
          RenderUnderAliases(h, c1, c2, ignore, args[i]);
        }
        assert seq(|args|, i requires 0 <= i < |args| => Render(h, c1, args[i], ignore))
            == seq(|args|, i requires 0 <= i < |args| => Render(h, c2, args[i], {}));
      case Wildcard(up, lo) =>
        forall i | 0 <= i < |lo| ensures Render(h, c1, lo[i], ignore) == Render(h, c2, lo[i], {}) {
          RenderUnderAliases(h, c1, c2, ignore, lo[i]);
        }
        forall i | 0 <= i < |up| ensures Render(h, c1, up[i], ignore) == Render(h, c2, up[i], {}) {
          RenderUnderAliases(h, c1, c2, ignore, up[i]);
        }
        assert seq(|lo|, i requires 0 <= i < |lo| => Render(h, c1, lo[i], ignore))
            == seq(|lo|, i requires 0 <= i < |lo| => Render(h, c2, lo[i], {}));
        assert seq(|up|, i requires 0 <= i < |up| => Render(h, c1, up[i], ignore))
            == seq(|up|, i requires 0 <= i < |up| => Render(h, c2, up[i], {}));
      case GenericArray(c) =>
        RenderUnderAliases(h, c1, c2, ignore, c);
    }
  }

  /** Aliasing a method's type parameters to themselves binds each of their names to a variable of that name. */
  lemma {:induction false} AliasedToSelf(h: Hierarchy, ctx: Context, tps: seq<VarId>, n: nat)
    requires n <= |tps|
    ensures forall x :: x in TypeParamNames(h, tps[..n]) ==>
              x in Aliased(h, ctx, tps, tps, n) && Aliased(h, ctx, tps, tps, n)[x].Var?
              && VarName(h, Aliased(h, ctx, tps, tps, n)[x].id) == x
    ensures forall x :: x in ctx && x !in TypeParamNames(h, tps[..n]) ==>
              x in Aliased(h, ctx, tps, tps, n) && Aliased(h, ctx, tps, tps, n)[x] == ctx[x]
    ensures forall x :: x in Aliased(h, ctx, tps, tps, n) && x !in TypeParamNames(h, tps[..n]) ==> x in ctx
  {
    if n > 0 {
      AliasedToSelf(h, ctx, tps, n - 1);
      assert TypeParamNames(h, tps[..n]) == TypeParamNames(h, tps[..n - 1]) + {VarName(h, tps[n - 1])} by {
        assert tps[..n] == tps[..n - 1] + [tps[n - 1]];
      }
    }
  }

  /** Every method has the same signature as itself. */
  lemma SameSignatureReflexive(h: Hierarchy, store: map<ClassId, Context>, m: Method)
    requires Wf(h)
    ensures SameSignature(h, store, m, m)
  {
    var c1 := ContextOf(store, m.declaring);
    var c2 := Aliased(h, c1, m.typeParams, m.typeParams, |m.typeParams|);
    var ignore := TypeParamNames(h, m.typeParams);
    AliasedToSelf(h, c1, m.typeParams, |m.typeParams|);
    assert m.typeParams[..|m.typeParams|] == m.typeParams;
    forall x | x in ignore ensures IsIdentifier(x) {
      var v :| v in m.typeParams && VarName(h, v) == x;
      VarNameIsIdentifier(h, v);
    }
    forall t: Type ensures Render(h, c1, t, ignore) == Render(h, c2, t, {}) {
      RenderUnderAliases(h, c1, c2, ignore, t);
    }
    forall v | v in m.typeParams ensures SameBounds(h, c1, c2, ignore, v, v) {
      RendersAlikeAtEachPosition(h, c1, c2, ignore, Bounds(h, v), Bounds(h, v), |Bounds(h, v)|);
    }
    BoundsAlikeAtEachPosition(h, c1, c2, ignore, m.typeParams, m.typeParams, |m.typeParams|);
    RendersAlikeAtEachPosition(h, c1, c2, ignore, m.params, m.params, |m.params|);
  }
  // ---------------------------------------------------------------- isSubSignature, isOverrideEquivalent

  /** `getMethodErasure(method2)` seen as types: each parameter's context-free erasure. */
  function ErasedParams(h: Hierarchy, m: Method): (r: seq<Type>)
    requires Wf(h)
    ensures |r| == |m.params|
    ensures forall i :: 0 <= i < |r| ==> r[i] == Class(Erase(h, map[], m.params[i], {}))
  {
    var e := MethodErasure(h, m, map[], {});
    seq(|e|, i requires 0 <= i < |e| => Class(e[i]))
  }

  /**
   * Erasure is idempotent: the erased parameter types mention no type variable and no type
   * arguments, so erasing them again changes nothing.
   */
  lemma ErasedParamsIdempotent(h: Hierarchy, m: Method)
    requires Wf(h)
    ensures forall i :: 0 <= i < |ErasedParams(h, m)| ==> ErasedParams(h, m)[i].Class?
    ensures ErasedParams(h, m.(params := ErasedParams(h, m))) == ErasedParams(h, m)
  {
    var e := ErasedParams(h, m);
    var again := ErasedParams(h, m.(params := e));
    forall i | 0 <= i < |e| ensures again[i] == e[i] {
      EraseCases(h, map[], e[i], {});
    }
  }

  /**
   * Subsignature (section 8.4.2): the same signature, or no type parameters and parameter
   * types equal to the other method's erased ones.
   */
  predicate SubSignature(h: Hierarchy, store: map<ClassId, Context>, m1: Method, m2: Method)
    requires Wf(h)
  {
    m1.name == m2.name
    && (SameSignature(h, store, m1, m2) || (m1.params == ErasedParams(h, m2) && |m1.typeParams| == 0))
  }

  /** Override-equivalence (section 8.4.2): either method is a subsignature of the other. */
  predicate OverrideEquivalent(h: Hierarchy, store: map<ClassId, Context>, m1: Method, m2: Method)
    requires Wf(h)
  {
    SubSignature(h, store, m1, m2) || SubSignature(h, store, m2, m1)
  }

  /** The three outcomes of `isSubSignature`. */
  lemma SubSignatureCases(h: Hierarchy, store: map<ClassId, Context>, m1: Method, m2: Method)
    requires Wf(h)
    ensures m1.name != m2.name ==> !SubSignature(h, store, m1, m2)
    ensures SameSignature(h, store, m1, m2) ==> SubSignature(h, store, m1, m2)
    ensures !SameSignature(h, store, m1, m2) ==>
              (SubSignature(h, store, m1, m2) <==>
                 m1.name == m2.name && |m1.typeParams| == 0 && m1.params == ErasedParams(h, m2))
  {
  }

  /** A method is a subsignature of itself, hence override-equivalent to itself. */
  lemma OverrideEquivalentReflexive(h: Hierarchy, store: map<ClassId, Context>, m: Method)
    requires Wf(h)
    ensures SubSignature(h, store, m, m)
    ensures OverrideEquivalent(h, store, m, m)
  {
    SameSignatureReflexive(h, store, m);
  }

  lemma OverrideEquivalentSymmetric(h: Hierarchy, store: map<ClassId, Context>, m1: Method, m2: Method)
    requires Wf(h)
    ensures OverrideEquivalent(h, store, m1, m2) == OverrideEquivalent(h, store, m2, m1)
  {
  }

  // ---------------------------------------------------------------- isRawType

  /**
   * A class token used raw (section 4.8): a generic class, an array of a raw class, or a
   * non-static member class of a raw class.
   */
  predicate IsRawClass(h: Hierarchy, r: ClassRef)
    requires Wf(h)
    decreases RefDepth(r), BaseId(r)
  {
    match r
    case ArrayOf(c) => IsRawClass(h, c)
    case Named(i) =>
      || |TypeParamsOf(h, i)| > 0
      || (i < |h.classes| && h.classes[i].modifiers & 0x8 == 0 && h.classes[i].enclosing.Some?
          && (assert WfClass(h, i); IsRawClass(h, Named(h.classes[i].enclosing.value))))
  }

  /** `isRawType`: only a `Class` can be raw; a parameterized type never is. */
  predicate IsRawType(h: Hierarchy, t: Type)
    requires Wf(h)
  {
    t.Class? && IsRawClass(h, t.ref)
  }

  /** `hasRawParameterType`. */
  predicate HasRawParameterType(h: Hierarchy, m: Method)
    requires Wf(h)
  {
    exists i :: 0 <= i < |m.params| && IsRawType(h, m.params[i])
  }

  /**
   * Rawness is decided by the class named at the bottom of the array nesting: an array type
   * is raw exactly when its innermost component class is.
   */
  lemma {:induction false} RawArrayIffRawBase(h: Hierarchy, r: ClassRef)
    requires Wf(h)
    ensures IsRawClass(h, r) <==> IsRawClass(h, Named(BaseId(r)))
    decreases r
  {
    match r
    case Named(_) =>
    case ArrayOf(c) => RawArrayIffRawBase(h, c);
  }

  /**
   * A class is raw exactly when it is generic itself or reaches a generic class through a
   * chain of non-static member classes.
   */
  lemma {:induction false} RawIffNestedInGeneric(h: Hierarchy, c: ClassId)
    requires Wf(h)
    ensures IsRawClass(h, Named(c)) <==> exists outer :: InstanceNestedIn(h, c, outer) && |TypeParamsOf(h, outer)| > 0
    decreases c
  {
    if |TypeParamsOf(h, c)| > 0 {
      assert InstanceNestedIn(h, c, c);
    } else if c < |h.classes| && h.classes[c].modifiers & 0x8 == 0 && h.classes[c].enclosing.Some? {
      assert WfClass(h, c);
      var e := h.classes[c].enclosing.value;
      RawIffNestedInGeneric(h, e);
      if IsRawClass(h, Named(c)) {
        var outer :| InstanceNestedIn(h, e, outer) && |TypeParamsOf(h, outer)| > 0;
        assert InstanceNestedIn(h, c, outer);
      }
    }
  }

  /** `c` is `outer`, or reaches it through a chain of non-static member classes. */
  predicate InstanceNestedIn(h: Hierarchy, c: ClassId, outer: ClassId)
    requires Wf(h)
    decreases c
  {
    c == outer
    || (c < |h.classes| && h.classes[c].modifiers & 0x8 == 0 && h.classes[c].enclosing.Some?
        && (assert WfClass(h, c); InstanceNestedIn(h, h.classes[c].enclosing.value, outer)))
  }
  // ---------------------------------------------------------------- getContexts, fillContexts

  /** `getOrDefault(argument.getTypeName(), argument)` on the parent context. */
  function ArgumentIn(h: Hierarchy, parent: Context, arg: Type): Type {
    if Plain(h, arg) in parent then parent[Plain(h, arg)] else arg
  }

  /** The context built for a parameterized supertype by its first `n` parameters. */
  function ArgContext(h: Hierarchy, parent: Context, params: seq<VarId>, args: seq<Type>, n: nat): Context
    requires n <= |params| && n <= |args|
  {
    if n == 0 then map[]
    else ArgContext(h, parent, params, args, n - 1)[VarName(h, params[n - 1]) := ArgumentIn(h, parent, args[n - 1])]
  }

  /** The map that binds `keys[i]` to `vals[i]` for the first `n` positions, later positions winning. */
  function Bindings(keys: seq<string>, vals: seq<Type>, n: nat): map<string, Type>
    requires n <= |keys| && n <= |vals|
  {
    if n == 0 then map[] else Bindings(keys, vals, n - 1)[keys[n - 1] := vals[n - 1]]
  }

  lemma {:induction false} BindingsMap(keys: seq<string>, vals: seq<Type>, n: nat)
    requires n <= |keys| && n <= |vals|
    requires forall i, j :: 0 <= i < j < |keys| ==> keys[i] != keys[j]
    ensures forall k :: k in Bindings(keys, vals, n) <==> exists i :: 0 <= i < n && keys[i] == k
    ensures forall i :: 0 <= i < n ==> Bindings(keys, vals, n)[keys[i]] == vals[i]
  {
    if n > 0 {
      BindingsMap(keys, vals, n - 1);
    }
  }

  lemma {:induction false} ArgContextIsBindings(h: Hierarchy, parent: Context, params: seq<VarId>, args: seq<Type>, n: nat)
    requires n <= |params| && n <= |args|
    ensures ArgContext(h, parent, params, args, n)
         == Bindings(seq(|params|, i requires 0 <= i < |params| => VarName(h, params[i])),
                     seq(|args|, i requires 0 <= i < |args| => ArgumentIn(h, parent, args[i])), n)
  {
    if n > 0 {
      ArgContextIsBindings(h, parent, params, args, n - 1);
    }
  }

  /**
   * With distinct parameter names, the context maps exactly the parameters' names, each to
   * the parent's entry for the argument's name, or else to the argument itself.
   */
  lemma ArgContextMaps(h: Hierarchy, parent: Context, params: seq<VarId>, args: seq<Type>, n: nat)
    requires n <= |params| && n <= |args|
    requires forall i, j :: 0 <= i < j < |params| ==> VarName(h, params[i]) != VarName(h, params[j])
    ensures forall k :: k in ArgContext(h, parent, params, args, n) <==> exists i :: 0 <= i < n && VarName(h, params[i]) == k
    ensures forall i :: 0 <= i < n ==> ArgContext(h, parent, params, args, n)[VarName(h, params[i])] == ArgumentIn(h, parent, args[i])
  {
    var keys := seq(|params|, i requires 0 <= i < |params| => VarName(h, params[i]));
    var vals := seq(|args|, i requires 0 <= i < |args| => ArgumentIn(h, parent, args[i]));
    assert forall i :: 0 <= i < |params| ==> keys[i] == VarName(h, params[i]);
    assert forall i :: 0 <= i < |args| ==> vals[i] == ArgumentIn(h, parent, args[i]);
    ArgContextIsBindings(h, parent, params, args, n);
    BindingsMap(keys, vals, n);
  }

  /** The loop of `fillContexts` that builds the context of one parameterized supertype. */
  method SuperContext(h: Hierarchy, parent: Context, raw: ClassId, args: seq<Type>) returns (ctx: Context)
    requires |TypeParamsOf(h, raw)| <= |args|
    ensures ctx == ArgContext(h, parent, TypeParamsOf(h, raw), args, |TypeParamsOf(h, raw)|)
  {
    var params := TypeParamsOf(h, raw);
    ctx := map[];
    var i := 0;
    while i < |params|
      invariant 0 <= i <= |params|
      invariant ctx == ArgContext(h, parent, params, args, i)
    {
      ctx := ctx[VarName(h, params[i]) := ArgumentIn(h, parent, args[i])];
      i := i + 1;
    }
  }

  /**
   * The store after `fillContexts(root, store, parent)`: each direct supertype in turn,
   * interfaces first and the superclass last; a parameterized one writes its context and
   * passes it on, a plain class passes on an empty one.
   */
  function Fill(h: Hierarchy, store: map<ClassId, Context>, root: ClassId, parent: Context): map<ClassId, Context>
    requires Wf(h)
    decreases root, 1, 0
  {
    FillFrom(h, store, root, parent, 0)
  }

  /** The store after visiting the direct supertypes of `root` from position `i` on. */
  function FillFrom(h: Hierarchy, store: map<ClassId, Context>, root: ClassId, parent: Context, i: nat)
    : map<ClassId, Context>
    requires Wf(h) && i <= |ExtendedTypes(h, root)|
    decreases root, 0, |ExtendedTypes(h, root)| - i
  {
    var ext := ExtendedTypes(h, root);
    if i == |ext| then store
    else
      ExtendedTypesBelow(h, root);
      assert ext[i] in ext;
      FillFrom(h, FillOne(h, store, root, parent, ext[i]), root, parent, i + 1)
  }

  /** One direct supertype `t` of `root`, and everything above it. */
  function FillOne(h: Hierarchy, store: map<ClassId, Context>, root: ClassId, parent: Context, t: Type)
    : map<ClassId, Context>
    requires Wf(h) && IsClassType(t) && RawOf(t) < root
    requires t.Parameterized? ==> |t.args| == |TypeParamsOf(h, t.raw)|
    decreases RawOf(t), 2, 0
  {
    if t.Parameterized? then
      var ctx := ArgContext(h, parent, TypeParamsOf(h, t.raw), t.args, |TypeParamsOf(h, t.raw)|);
      Fill(h, store[t.raw := ctx], t.raw, ctx)
    else Fill(h, store, RawOf(t), map[])
  }

  /** `fillContexts`: visits the supertypes of `root` depth first, writing into the shared store. */
  method FillContexts(h: Hierarchy, root: ClassId, contexts: GenericContexts, parent: Context)
    requires Wf(h)
    modifies contexts
    ensures contexts.rawTypeToContext == Fill(h, old(contexts.rawTypeToContext), root, parent)
    decreases root, 1
  {
    var ext := ExtendedTypes(h, root);
    ExtendedTypesBelow(h, root);
    var i := 0;
    while i < |ext|
      invariant 0 <= i <= |ext|
      invariant Fill(h, old(contexts.rawTypeToContext), root, parent) == FillFrom(h, contexts.rawTypeToContext, root, parent, i)
    {
      assert ext[i] in ext;
      VisitSupertype(h, root, contexts, parent, ext[i]);
      i := i + 1;
    }
  }

  /** One pass of the `fillContexts` loop: the direct supertype `t` of `root`. */
  method VisitSupertype(h: Hierarchy, root: ClassId, contexts: GenericContexts, parent: Context, t: Type)
    requires Wf(h) && IsClassType(t) && RawOf(t) < root
    requires t.Parameterized? ==> |t.args| == |TypeParamsOf(h, t.raw)|
    modifies contexts
    ensures contexts.rawTypeToContext == FillOne(h, old(contexts.rawTypeToContext), root, parent, t)
    decreases root, 0
  {
    if t.Parameterized? {
      var ctx := SuperContext(h, parent, t.raw, t.args);
      contexts.AddContext(t.raw, ctx);
      FillContexts(h, t.raw, contexts, ctx);
    } else {
      FillContexts(h, RawOf(t), contexts, map[]);
    }
  }

  /** `getContexts`: a fresh store filled from `root` with an empty parent context. */
  method GetContexts(h: Hierarchy, root: ClassId) returns (contexts: GenericContexts)
    requires Wf(h)
    ensures fresh(contexts)
    ensures contexts.rawTypeToContext == Fill(h, map[], root, map[])
  {
    contexts := new GenericContexts();
    FillContexts(h, root, contexts, map[]);
  }
  /** A direct supertype's ancestors are the class's ancestors. */
  lemma SuperAncestors(h: Hierarchy, root: ClassId, s: ClassId)
    requires Wf(h) && s in SuperIds(h, root)
    ensures s != root && s in AncestorsOrSelf(h, root)
    ensures forall a :: a in AncestorsOrSelf(h, s) ==> a in AncestorsOrSelf(h, root)
  {
    SuperIdsBelow(h, root);
    assert s in AncestorsOrSelf(h, s);
  }

  /**
   * Filling from `root` writes only the contexts of its proper ancestors: every other raw
   * type, `root` included, keeps its entry, or its absence.
   */
  lemma {:induction false} FillFromFrame(h: Hierarchy, store: map<ClassId, Context>, root: ClassId, parent: Context, i: nat, k: ClassId)
    requires Wf(h) && i <= |ExtendedTypes(h, root)|
    requires k == root || k !in AncestorsOrSelf(h, root)
    ensures k in FillFrom(h, store, root, parent, i) <==> k in store
    ensures k in store ==> FillFrom(h, store, root, parent, i)[k] == store[k]
    decreases root, 0, |ExtendedTypes(h, root)| - i
  {
    var ext := ExtendedTypes(h, root);
    if i < |ext| {
      ExtendedTypesBelow(h, root);
      var t := ext[i];
      assert t in ext;
      assert RawOf(t) == SuperIds(h, root)[i];
      SuperAncestors(h, root, RawOf(t));
      FillOneFrame(h, store, root, parent, t, k);
      FillFromFrame(h, FillOne(h, store, root, parent, t), root, parent, i + 1, k);
    }
  }

  lemma {:induction false} FillOneFrame(h: Hierarchy, store: map<ClassId, Context>, root: ClassId, parent: Context, t: Type, k: ClassId)
    requires Wf(h) && IsClassType(t) && RawOf(t) < root
    requires t.Parameterized? ==> |t.args| == |TypeParamsOf(h, t.raw)|
    requires k != RawOf(t) && k !in AncestorsOrSelf(h, RawOf(t))
    ensures k in FillOne(h, store, root, parent, t) <==> k in store
    ensures k in store ==> FillOne(h, store, root, parent, t)[k] == store[k]
    decreases RawOf(t), 2, 0
  {
    if t.Parameterized? {
      var ctx := ArgContext(h, parent, TypeParamsOf(h, t.raw), t.args, |TypeParamsOf(h, t.raw)|);
      FillFromFrame(h, store[t.raw := ctx], t.raw, ctx, 0, k);
    } else {
      FillFromFrame(h, store, RawOf(t), map[], 0, k);
    }
  }

  lemma FillFrame(h: Hierarchy, store: map<ClassId, Context>, root: ClassId, parent: Context, k: ClassId)
    requires Wf(h)
    requires k == root || k !in AncestorsOrSelf(h, root)
    ensures k in Fill(h, store, root, parent) <==> k in store
    ensures k in store ==> Fill(h, store, root, parent)[k] == store[k]
  {
    FillFromFrame(h, store, root, parent, 0, k);
  }

  /**
   * The superclass is visited last, so when it is parameterized its context is the one left
   * in the store, whatever the interfaces wrote for the same raw type before.
   */
  lemma {:induction false} LastSupertypeWinsFrom(h: Hierarchy, store: map<ClassId, Context>, root: ClassId, parent: Context, i: nat)
    requires Wf(h) && i < |ExtendedTypes(h, root)|
    requires ExtendedTypes(h, root)[|ExtendedTypes(h, root)| - 1].Parameterized?
    requires var last := ExtendedTypes(h, root)[|ExtendedTypes(h, root)| - 1];
             |TypeParamsOf(h, last.raw)| == |last.args|
    ensures var last := ExtendedTypes(h, root)[|ExtendedTypes(h, root)| - 1];
            var out := FillFrom(h, store, root, parent, i);
            last.raw in out
            && out[last.raw] == ArgContext(h, parent, TypeParamsOf(h, last.raw), last.args, |TypeParamsOf(h, last.raw)|)
    decreases |ExtendedTypes(h, root)| - i
  {
    var ext := ExtendedTypes(h, root);
    ExtendedTypesBelow(h, root);
    assert ext[i] in ext;
    var next := FillOne(h, store, root, parent, ext[i]);
    if i < |ext| - 1 {
      LastSupertypeWinsFrom(h, next, root, parent, i + 1);
    } else {
      var last := ext[i];
      var ctx := ArgContext(h, parent, TypeParamsOf(h, last.raw), last.args, |TypeParamsOf(h, last.raw)|);
      FillFrame(h, store[last.raw := ctx], last.raw, ctx, last.raw);
    }
  }

  lemma SuperclassContextWins(h: Hierarchy, store: map<ClassId, Context>, root: ClassId, parent: Context)
    requires Wf(h) && root < |h.classes|
    requires h.classes[root].superclass.Some? && h.classes[root].superclass.value.Parameterized?
    requires |TypeParamsOf(h, h.classes[root].superclass.value.raw)| == |h.classes[root].superclass.value.args|
    ensures var sup := h.classes[root].superclass.value;
            sup.raw in Fill(h, store, root, parent)
            && Fill(h, store, root, parent)[sup.raw]
               == ArgContext(h, parent, TypeParamsOf(h, sup.raw), sup.args, |TypeParamsOf(h, sup.raw)|)
  {
    LastSupertypeWinsFrom(h, store, root, parent, 0);
  }
  // ---------------------------------------------------------------- typeParametersToString

  /** The bounds other than `Object`, in their order. */
  function NonObjectBounds(bs: seq<Type>): (r: seq<Type>)
    ensures forall b :: b in r <==> b in bs && b != ObjectType
    ensures ObjectType !in bs ==> r == bs
  {
    if |bs| == 0 then []
    else (if bs[0] == ObjectType then [] else [bs[0]]) + NonObjectBounds(bs[1..])
  }

  /** Each bound other than `Object` is kept as often as it occurs. */
  lemma {:induction false} NonObjectBoundsCounts(bs: seq<Type>)
    ensures multiset(NonObjectBounds(bs)) == multiset(bs)[ObjectType := 0]
    decreases |bs|
  {
    if |bs| != 0 {
      assert bs == [bs[0]] + bs[1..];
      NonObjectBoundsCounts(bs[1..]);
    }
  }

  /** Dropping `Object` keeps the order: it distributes over concatenation. */
  lemma {:induction false} NonObjectBoundsAppend(a: seq<Type>, b: seq<Type>)
    ensures NonObjectBounds(a + b) == NonObjectBounds(a) + NonObjectBounds(b)
    decreases |a|
  {
    if |a| != 0 {
      var head := if a[0] == ObjectType then [] else [a[0]];
      assert (a + b)[0] == a[0] && (a + b)[1..] == a[1..] + b;
      assert NonObjectBounds(a + b) == head + NonObjectBounds(a[1..] + b);
      NonObjectBoundsAppend(a[1..], b);
      assert NonObjectBounds(a) == head + NonObjectBounds(a[1..]);
    } else {
      assert a + b == b;
    }
  }

  /** Each of `bs` rendered in the context. */
  function RenderedBounds(h: Hierarchy, ctx: Context, bs: seq<Type>, ignore: set<string>): (r: seq<string>)
    ensures |r| == |bs|
  {
    seq(|bs|, i requires 0 <= i < |bs| => Render(h, ctx, bs[i], ignore))
  }

  /**
   * `getTypeVariableRepresentation`: the variable's name, followed by ` extends ` and its
   * bounds other than `Object` rendered in the context and joined by ` & `, when that text
   * is not empty.
   */
  function TypeVariableRepresentation(h: Hierarchy, v: VarId, ctx: Context, typeParams: set<string>): (r: string)
    ensures |VarName(h, v)| <= |r| && r[..|VarName(h, v)|] == VarName(h, v)
    ensures (forall b :: b in Bounds(h, v) ==> b == ObjectType) ==> r == VarName(h, v)
    ensures var texts := RenderedBounds(h, ctx, NonObjectBounds(Bounds(h, v)), typeParams);
            (forall i :: 0 <= i < |texts| ==> texts[i] != "") ==>
              && (r == VarName(h, v) <==> forall b :: b in Bounds(h, v) ==> b == ObjectType)
              && (r != VarName(h, v) ==> r == VarName(h, v) + " extends " + Join(texts, " & "))
  {
    var texts := RenderedBounds(h, ctx, NonObjectBounds(Bounds(h, v)), typeParams);
    var rendered := Join(texts, " & ");
    assert |texts| > 0 ==> NonObjectBounds(Bounds(h, v))[0] in NonObjectBounds(Bounds(h, v));
    assert |texts| > 0 ==> |texts[0]| <= |rendered|;
    if |rendered| != 0 then VarName(h, v) + " extends " + rendered else VarName(h, v)
  }

  /**
   * `typeParametersToString`: empty for no variables, otherwise each variable's
   * representation, with the variables' own names left alone, between `<` and `>`.
   */
  function TypeParametersToString(h: Hierarchy, vars: seq<VarId>, ctx: Context): (r: string)
    ensures r == "" <==> |vars| == 0
    ensures |vars| > 0 ==> r[0] == '<' && r[|r| - 1] == '>'
    ensures |vars| > 0 ==>
              r[1..|r| - 1] == Join(seq(|vars|, i requires 0 <= i < |vars| =>
                                      TypeVariableRepresentation(h, vars[i], ctx, TypeParamNames(h, vars))), ", ")
  {
    var ignore := TypeParamNames(h, vars);
    if |vars| == 0 then ""
    else "<" + Join(seq(|vars|, i requires 0 <= i < |vars| => TypeVariableRepresentation(h, vars[i], ctx, ignore)), ", ") + ">"
  }

  /** Variables bounded only by `Object` print as their names, separated by `, `. */
  lemma UnboundedTypeParameters(h: Hierarchy, vars: seq<VarId>, ctx: Context)
    requires |vars| > 0
    requires forall i, b :: 0 <= i < |vars| && b in Bounds(h, vars[i]) ==> b == ObjectType
    ensures TypeParametersToString(h, vars, ctx)
            == "<" + Join(seq(|vars|, i requires 0 <= i < |vars| => VarName(h, vars[i])), ", ") + ">"
  {
    var ignore := TypeParamNames(h, vars);
    var reps := seq(|vars|, i requires 0 <= i < |vars| => TypeVariableRepresentation(h, vars[i], ctx, ignore));
    var names := seq(|vars|, i requires 0 <= i < |vars| => VarName(h, vars[i]));
    assert reps == names;
  }
}
