/**
 * The store of generic contexts: for each raw supertype, the map from the names of its
 * declared type parameters to the types the analysed type supplies for them.
 */
module Contexts {
  import opened JavaTypes

  /** A generic context: type-parameter name to the type passed as argument. */
  type Context = map<string, Type>

  /** `getOrDefault(rawType, new HashMap<>())` on the store's map. */
  function ContextOf(store: map<ClassId, Context>, raw: ClassId): Context {
    if raw in store then store[raw] else map[]
  }

  class GenericContexts {
    var rawTypeToContext: map<ClassId, Context>

    /** A fresh store holds no contexts. */
    constructor ()
      ensures rawTypeToContext == map[]
    {
      rawTypeToContext := map[];
    }

    /** `put`: the new context replaces any earlier one for `rawType`; the others stay. */
    method AddContext(rawType: ClassId, context: Context)
      modifies this
      ensures rawTypeToContext == old(rawTypeToContext)[rawType := context]
      ensures rawTypeToContext[rawType] == context
      ensures forall r :: r != rawType ==> ContextOf(rawTypeToContext, r) == ContextOf(old(rawTypeToContext), r)
    {
      rawTypeToContext := rawTypeToContext[rawType := context];
    }

    /** The context stored for `rawType`, or an empty context when none was added. */
    method GetContext(rawType: ClassId) returns (context: Context)
      ensures rawType in rawTypeToContext ==> context == rawTypeToContext[rawType]
      ensures rawType !in rawTypeToContext ==> context == map[]
    {
      if rawType in rawTypeToContext {
        context := rawTypeToContext[rawType];
      } else {
        context := map[];
      }
    }
  }

  /** After two writes for the same raw type, the store answers with the later one. */
  method LastWriteWins(store: GenericContexts, r: ClassId, first: Context, second: Context)
      returns (read: Context)
    modifies store
    ensures read == second
  {
    store.AddContext(r, first);
    store.AddContext(r, second);
    read := store.GetContext(r);
  }

  /** A write for one raw type leaves what is read for every other raw type as it was. */
  method WriteIsLocal(store: GenericContexts, r: ClassId, c: Context, q: ClassId)
      returns (read: Context)
    requires q != r
    modifies store
    ensures read == ContextOf(old(store.rawTypeToContext), q)
  {
    store.AddContext(r, c);
    read := store.GetContext(q);
  }
}
