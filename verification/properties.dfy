/**
 Properties that relate several registrations and attach steps: set
 semantics of registration, dispatch, deferred and permanent pruning, and
 independence from constructors that are never invoked.
 */
module Properties {
  import opened Wrappers
  import Multimap
  import opened CapabilityConstructorRegistry

  // ---------------------------------------------------------------------
  // Registration

  /** Registering an entry the category already holds changes nothing. */
  lemma RegisterPresent(reg: Registry, cat: Category, e: Entry)
    requires ValidRegistry(reg)
    requires Has(StoreOf(reg, cat), e)
    ensures Register(reg, cat, e) == reg
  {
    var r := Register(reg, cat, e);
    StoreExtensionality(StoreOf(r, cat), StoreOf(reg, cat));
    match cat
    case TileCategory =>
    case EntityCategory =>
    case ItemCategory =>
  }

  /** Registering the same entry twice is the same as registering it once. */
  lemma RegisterIdempotent(reg: Registry, cat: Category, e: Entry)
    requires ValidRegistry(reg)
    ensures Register(Register(reg, cat, e), cat, e) == Register(reg, cat, e)
  {
    RegisterPresent(Register(reg, cat, e), cat, e);
  }

  /** The order of two registrations does not matter. */
  lemma RegisterCommutes(reg: Registry, cat1: Category, e1: Entry, cat2: Category, e2: Entry)
    requires ValidRegistry(reg)
    ensures Register(Register(reg, cat1, e1), cat2, e2) == Register(Register(reg, cat2, e2), cat1, e1)
  {
    var a := Register(Register(reg, cat1, e1), cat2, e2);
    var b := Register(Register(reg, cat2, e2), cat1, e1);
    StoreExtensionality(a.tile, b.tile);
    StoreExtensionality(a.entity, b.entity);
    StoreExtensionality(a.item, b.item);
  }

  // ---------------------------------------------------------------------
  // Dispatch

  /**
   An exact registration under `cls` is invoked for a host object whose
   runtime class is `cls` (when its capability is present) and never for an
   object of any other class, a subclass included.
   */
  lemma ExactDispatch(rt: Runtime, reg: Registry, cls: ClassId, c: Ctor, key: Obj, initialized: bool)
    ensures var l := OnLoad(rt, reg.modId, RegisterTile(reg, cls, c).tile, key, key, initialized);
      Entry(Exact, cls, c) in l.invoked <==> rt.classOf(key) == cls && rt.capability(c).Some?
  {
  }

  /**
   An inheritable registration under `base` is invoked exactly for the host
   objects `base` is an instance-of test for, when its capability is present.
   */
  lemma InheritableDispatch(rt: Runtime, reg: Registry, base: ClassId, c: Ctor, key: Obj, initialized: bool)
    ensures var l := OnLoad(rt, reg.modId, RegisterInheritableTile(reg, base, c).tile, key, key, initialized);
      Entry(Inheritable, base, c) in l.invoked <==> rt.isInstance(base, key) && rt.capability(c).Some?
  {
  }

  /**
   Two constructors registered under the same class both contribute their
   attachments to one event for an object of that class.
   */
  lemma FanOut(rt: Runtime, reg: Registry, cls: ClassId, c1: Ctor, c2: Ctor, key: Obj, initialized: bool)
    requires rt.classOf(key) == cls
    requires rt.capability(c1).Some? && rt.capability(c2).Some?
    ensures var l := OnLoad(rt, reg.modId, RegisterTile(RegisterTile(reg, cls, c1), cls, c2).tile, key, key, initialized);
      && Entry(Exact, cls, c1) in l.invoked
      && Entry(Exact, cls, c2) in l.invoked
      && (forall c :: c in {c1, c2} && Provide(rt, reg.modId, c, key, key).Some? ==>
            Provide(rt, reg.modId, c, key, key).value in l.attachments)
  {
    var s := RegisterTile(RegisterTile(reg, cls, c1), cls, c2).tile;
    var l := OnLoad(rt, reg.modId, s, key, key, initialized);
    assert Has(s, Entry(Exact, cls, c1)) && Has(s, Entry(Exact, cls, c2));
    forall c | c in {c1, c2} && Provide(rt, reg.modId, c, key, key).Some?
      ensures Provide(rt, reg.modId, c, key, key).value in l.attachments
    {
      assert Entry(Exact, cls, c) in l.invoked;
    }
  }

  /**
   Constructors with a null capability are never asked for a provider: the
   outcome of a load does not depend on what their `build` would return.
   */
  lemma NullCapabilityNeverBuilt(rt: Runtime, rt': Runtime, modId: string, s: Store, key: Obj, value: Obj,
                                 initialized: bool)
    requires rt'.classOf == rt.classOf && rt'.isInstance == rt.isInstance
    requires rt'.capability == rt.capability && rt'.kindName == rt.kindName
    requires forall c, k, v :: rt.capability(c).Some? ==> rt'.build(c, k, v) == rt.build(c, k, v)
    ensures OnLoad(rt', modId, s, key, value, initialized) == OnLoad(rt, modId, s, key, value, initialized)
  {
    var l := OnLoad(rt, modId, s, key, value, initialized);
    var l' := OnLoad(rt', modId, s, key, value, initialized);
    forall e | e in l.invoked
      ensures Provide(rt', modId, e.ctor, key, value) == Provide(rt, modId, e.ctor, key, value)
    {
      assert rt'.build(e.ctor, key, value) == rt.build(e.ctor, key, value);
    }
    assert l'.invoked == l.invoked;
    assert l'.attachments == l.attachments;
  }

  // ---------------------------------------------------------------------
  // Pruning

  /**
   Before initialization a null-capability entry is skipped and kept; a
   later load that finds its capability present invokes it, and one that
   finds it still null after initialization drops it.
   */
  lemma DeferredUntilInitialized(rt: Runtime, rt': Runtime, modId: string, s: Store, e: Entry,
                                 key: Obj, value: Obj, key': Obj, value': Obj, initialized': bool)
    requires Has(s, e) && Selects(rt, key, e)
    requires rt.capability(e.ctor).None?
    ensures var first := OnLoad(rt, modId, s, key, value, false);
      && e !in first.invoked
      && Has(first.store, e)
      && var second := OnLoad(rt', modId, first.store, key', value', initialized');
      && (Selects(rt', key', e) && rt'.capability(e.ctor).Some? ==> e in second.invoked)
      && (Prunable(rt', key', e) && initialized' ==> !Has(second.store, e))
  {
  }

  /**
   A present capability is never pruned, whatever `build` returned: a
   constructor that declined one host object is still invoked for the next,
   and its attachment is made when it accepts.
   */
  lemma DeclineKeepsEntry(rt: Runtime, modId: string, s: Store, e: Entry, key: Obj, value: Obj,
                          key': Obj, value': Obj, initialized: bool, initialized': bool)
    requires Has(s, e) && rt.capability(e.ctor).Some?
    requires Selects(rt, key', e)
    requires rt.build(e.ctor, key', value').Some?
    ensures var first := OnLoad(rt, modId, s, key, value, initialized);
      && Has(first.store, e)
      && var second := OnLoad(rt, modId, first.store, key', value', initialized');
      && e in second.invoked
      && Provide(rt, modId, e.ctor, key', value').value in second.attachments
  {
    var first := OnLoad(rt, modId, s, key, value, initialized);
    var second := OnLoad(rt, modId, first.store, key', value', initialized');
    assert e in second.invoked;
  }

  /**
   Loading the same host object again after an initialized load changes
   nothing more: every prunable entry is already gone, and the same entries
   are invoked with the same attachments.
   */
  lemma ReloadIsStable(rt: Runtime, modId: string, s: Store, key: Obj, value: Obj)
    requires Valid(s)
    ensures var first := OnLoad(rt, modId, s, key, value, true);
      var second := OnLoad(rt, modId, first.store, key, value, true);
      second == first
  {
    var first := OnLoad(rt, modId, s, key, value, true);
    var second := OnLoad(rt, modId, first.store, key, value, true);
    StoreExtensionality(second.store, first.store);
    assert second.invoked == first.invoked;
  }

  /** One attach step in a sequence of them: the object loaded and the state of the world at the time. */
  datatype Call = Call(rt: Runtime, key: Obj, value: Obj, initialized: bool)

  function Step(modId: string, s: Store, call: Call): Load {
    OnLoad(call.rt, modId, s, call.key, call.value, call.initialized)
  }

  /** The store of one category after a sequence of attach steps. */
  function Replay(modId: string, s: Store, calls: seq<Call>): Store
    decreases |calls|
  {
    if |calls| == 0 then s
    else Step(modId, Replay(modId, s, calls[..|calls| - 1]), calls[|calls| - 1]).store
  }

  /** Attach steps only ever remove entries, and keep the store valid. */
  lemma {:induction false} ReplayOnlyRemoves(modId: string, s: Store, calls: seq<Call>)
    ensures forall e :: Has(Replay(modId, s, calls), e) ==> Has(s, e)
    ensures Valid(s) ==> Valid(Replay(modId, s, calls))
    decreases |calls|
  {
    if |calls| > 0 {
      ReplayOnlyRemoves(modId, s, calls[..|calls| - 1]);
    }
  }

  /**
   Pruning is permanent: an entry the store no longer holds is not invoked
   by any later attach step, whatever the runtime then reports.
   */
  lemma PrunedNeverInvoked(modId: string, s: Store, calls: seq<Call>, e: Entry)
    requires !Has(s, e)
    ensures forall i :: 0 <= i < |calls| ==> e !in Step(modId, Replay(modId, s, calls[..i]), calls[i]).invoked
  {
    forall i | 0 <= i < |calls|
      ensures e !in Step(modId, Replay(modId, s, calls[..i]), calls[i]).invoked
    {
      ReplayOnlyRemoves(modId, s, calls[..i]);
    }
  }
}
