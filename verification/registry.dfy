/**
 The capability constructor registry of a mod: three host categories (tile
 entities, entities, items), each with an exact-class store and an
 inheritable store of capability constructors, and the attach step run once
 per host-object instantiation, which invokes the matching constructors and
 prunes those whose capability will never be available.
 */
module CapabilityConstructorRegistry {
  import opened Wrappers
  import Multimap

  /** A `java.lang.Class` used as a dispatch key. */
  type ClassId(==, !new)

  /** Any host-side object: a tile entity, an entity, an item or an item stack. */
  type Obj(!new)

  /** A capability constructor, compared by identity as a hash set does. */
  type Ctor(==, !new)

  /** A capability type. */
  type Kind(!new)

  /** A capability provider handed to the attach event. */
  type Provider(==, !new)

  /**
   The behaviour the registry consults but does not own: the host object
   model and the registered constructors themselves.
   */
  datatype Runtime = Runtime(
    classOf: Obj -> ClassId,                       // Object.getClass
    isInstance: (ClassId, Obj) -> bool,            // Class.isInstance
    capability: Ctor -> Option<Kind>,              // getCapability, None for null
    kindName: Kind -> string,                      // Capability.getName
    build: (Ctor, Obj, Obj) -> Option<Provider>)   // createProvider(key, value), None for null

  /** A namespaced identifier `domain:path`. */
  datatype ResourceId = ResourceId(domain: string, path: string)

  /** One `addCapability(id, provider)` call on the attach event. */
  datatype Attachment = Attachment(id: ResourceId, provider: Provider)

  /** How an entry's class is matched against a host object. */
  datatype Mode = Exact | Inheritable

  /** One registration: a constructor under a class, in a dispatch mode. */
  datatype Entry = Entry(mode: Mode, cls: ClassId, ctor: Ctor)

  /** The two stores of one host category. */
  datatype Store = Store(exact: map<ClassId, set<Ctor>>, inheritable: set<(ClassId, Ctor)>)

  const EmptyStore: Store := Store(map[], {})

  predicate Valid(s: Store) {
    Multimap.WellFormed(s.exact)
  }

  /** The store holds entry `e`. */
  predicate Has(s: Store, e: Entry) {
    match e.mode
    case Exact => e.ctor in Multimap.Get(s.exact, e.cls)
    case Inheritable => (e.cls, e.ctor) in s.inheritable
  }

  /** Two valid stores holding the same entries are equal. */
  lemma StoreExtensionality(s: Store, s': Store)
    requires Valid(s) && Valid(s')
    requires forall e :: Has(s, e) <==> Has(s', e)
    ensures s == s'
  {
    forall k
      ensures Multimap.Get(s.exact, k) == Multimap.Get(s'.exact, k)
    {
      forall c | c in Multimap.Get(s.exact, k)
        ensures c in Multimap.Get(s'.exact, k)
      {
        assert Has(s, Entry(Exact, k, c));
      }
      forall c | c in Multimap.Get(s'.exact, k)
        ensures c in Multimap.Get(s.exact, k)
      {
        assert Has(s', Entry(Exact, k, c));
      }
    }
    Multimap.Extensionality(s.exact, s'.exact);
    forall p | p in s.inheritable
      ensures p in s'.inheritable
    {
      assert Has(s, Entry(Inheritable, p.0, p.1));
    }
    forall p | p in s'.inheritable
      ensures p in s.inheritable
    {
      assert Has(s', Entry(Inheritable, p.0, p.1));
    }
  }

  /** `put` into the exact multimap or `add` to the inheritable set. */
  function Insert(s: Store, e: Entry): (r: Store)
    ensures forall e' :: Has(r, e') <==> Has(s, e') || e' == e
    ensures Valid(s) ==> Valid(r)
  {
    match e.mode
    case Exact => s.(exact := Multimap.Put(s.exact, e.cls, e.ctor))
    case Inheritable => s.(inheritable := s.inheritable + {(e.cls, e.ctor)})
  }

  /** The host categories, each with its own pair of stores. */
  datatype Category = TileCategory | EntityCategory | ItemCategory

  /** One registry instance, owned by the mod whose id namespaces its attachments. */
  datatype Registry = Registry(modId: string, tile: Store, entity: Store, item: Store)

  function Empty(modId: string): Registry {
    Registry(modId, EmptyStore, EmptyStore, EmptyStore)
  }

  function StoreOf(reg: Registry, cat: Category): Store {
    match cat
    case TileCategory => reg.tile
    case EntityCategory => reg.entity
    case ItemCategory => reg.item
  }

  predicate ValidRegistry(reg: Registry) {
    Valid(reg.tile) && Valid(reg.entity) && Valid(reg.item)
  }

  /**
   `after` is `before` with entry `e` added to category `cat`: that
   category's stores gain exactly `e`, nothing else in the registry changes.
   */
  ghost predicate Adds(before: Registry, after: Registry, cat: Category, e: Entry) {
    && after.modId == before.modId
    && (forall cat' :: cat' != cat ==> StoreOf(after, cat') == StoreOf(before, cat'))
    && (forall e' :: Has(StoreOf(after, cat), e') <==> Has(StoreOf(before, cat), e') || e' == e)
    && (ValidRegistry(before) ==> ValidRegistry(after))
  }

  /** Registration into category `cat`, common to the six `register*` operations. */
  function Register(reg: Registry, cat: Category, e: Entry): (r: Registry)
    ensures Adds(reg, r, cat, e)
  {
    match cat
    case TileCategory => reg.(tile := Insert(reg.tile, e))
    case EntityCategory => reg.(entity := Insert(reg.entity, e))
    case ItemCategory => reg.(item := Insert(reg.item, e))
  }

  function RegisterTile(reg: Registry, cls: ClassId, c: Ctor): (r: Registry)
    ensures Adds(reg, r, TileCategory, Entry(Exact, cls, c))
  {
    Register(reg, TileCategory, Entry(Exact, cls, c))
  }

  function RegisterEntity(reg: Registry, cls: ClassId, c: Ctor): (r: Registry)
    ensures Adds(reg, r, EntityCategory, Entry(Exact, cls, c))
  {
    Register(reg, EntityCategory, Entry(Exact, cls, c))
  }

  function RegisterItem(reg: Registry, cls: ClassId, c: Ctor): (r: Registry)
    ensures Adds(reg, r, ItemCategory, Entry(Exact, cls, c))
  {
    Register(reg, ItemCategory, Entry(Exact, cls, c))
  }

  function RegisterInheritableTile(reg: Registry, cls: ClassId, c: Ctor): (r: Registry)
    ensures Adds(reg, r, TileCategory, Entry(Inheritable, cls, c))
  {
    Register(reg, TileCategory, Entry(Inheritable, cls, c))
  }

  function RegisterInheritableEntity(reg: Registry, cls: ClassId, c: Ctor): (r: Registry)
    ensures Adds(reg, r, EntityCategory, Entry(Inheritable, cls, c))
  {
    Register(reg, EntityCategory, Entry(Inheritable, cls, c))
  }

  function RegisterInheritableItem(reg: Registry, cls: ClassId, c: Ctor): (r: Registry)
    ensures Adds(reg, r, ItemCategory, Entry(Inheritable, cls, c))
  {
    Register(reg, ItemCategory, Entry(Inheritable, cls, c))
  }

  // ---------------------------------------------------------------------
  // The attach step

  /** Entry `e` is looked at for host object `key`: by runtime class in exact mode, by `isInstance` otherwise. */
  predicate Selects(rt: Runtime, key: Obj, e: Entry) {
    match e.mode
    case Exact => e.cls == rt.classOf(key)
    case Inheritable => rt.isInstance(e.cls, key)
  }

  /**
   Entry `e` is dropped by a load of `key` once the game is initialized: its
   capability is null and the pass that scans it reaches it. The exact pass
   only scans the key's runtime class; the inheritable pass scans every pair,
   before and regardless of the `isInstance` test.
   */
  predicate Prunable(rt: Runtime, key: Obj, e: Entry) {
    && rt.capability(e.ctor).None?
    && (e.mode == Inheritable || e.cls == rt.classOf(key))
  }

  /** `addLoadedCapabilityProvider`: the attachment one invoked constructor yields, if any. */
  function Provide(rt: Runtime, modId: string, c: Ctor, key: Obj, value: Obj): (r: Option<Attachment>)
    requires rt.capability(c).Some?
    ensures r.None? <==> rt.build(c, key, value).None?
    ensures r.Some? ==> r.value.provider == rt.build(c, key, value).value
    ensures r.Some? ==> r.value.id == ResourceId(modId, rt.kindName(rt.capability(c).value))
  {
    match rt.build(c, key, value)
    case None => None
    case Some(p) => Some(Attachment(ResourceId(modId, rt.kindName(rt.capability(c).value)), p))
  }

  /** The attachments a set of invoked constructors yields for one host object. */
  function Provided(rt: Runtime, modId: string, cs: set<Ctor>, key: Obj, value: Obj): set<Attachment> {
    set c | c in cs && rt.capability(c).Some? && Provide(rt, modId, c, key, value).Some?
      :: Provide(rt, modId, c, key, value).value
  }

  function CtorsOf(es: set<Entry>): set<Ctor> {
    set e | e in es :: e.ctor
  }

  /**
   The outcome of one attach step: the category's stores afterwards, the
   entries whose constructor was asked for a provider, and the attachments
   added to the event.
   */
  datatype Load = Load(store: Store, invoked: set<Entry>, attachments: set<Attachment>)

  /**
   The five-argument `onLoad`: attach capabilities to host object `key`,
   whose constructors receive `key` and `value`, with the game's
   initialization flag `initialized` deciding whether null capabilities are
   pruned.
   */
  function OnLoad(rt: Runtime, modId: string, s: Store, key: Obj, value: Obj, initialized: bool): (r: Load)
    ensures forall e :: e in r.invoked <==> Has(s, e) && Selects(rt, key, e) && rt.capability(e.ctor).Some?
    ensures forall a :: a in r.attachments <==>
      exists e :: e in r.invoked && Provide(rt, modId, e.ctor, key, value) == Some(a)
    ensures !initialized ==> r.store == s
    ensures initialized ==> forall e :: Has(r.store, e) <==> Has(s, e) && !Prunable(rt, key, e)
    ensures Valid(s) ==> Valid(r.store)
  {
    var cls := rt.classOf(key);
    var candidates := Multimap.Get(s.exact, cls);
    var exactInvoked := set c | c in candidates && rt.capability(c).Some? :: Entry(Exact, cls, c);
    var inheritableInvoked := set p | p in s.inheritable && rt.capability(p.1).Some? && rt.isInstance(p.0, key)
                                :: Entry(Inheritable, p.0, p.1);
    var invoked := exactInvoked + inheritableInvoked;
    var store :=
      if initialized then
        Store(Multimap.RemoveAll(s.exact, cls, set c | c in candidates && rt.capability(c).None?),
              set p | p in s.inheritable && rt.capability(p.1).Some?)
      else s;
    Load(store, invoked, Provided(rt, modId, CtorsOf(invoked), key, value))
  }

  /** The four-argument `onLoad`: the host object is both key and value. */
  function OnLoadSelf(rt: Runtime, modId: string, s: Store, obj: Obj, initialized: bool): (r: Load)
    ensures r == OnLoad(rt, modId, s, obj, obj, initialized)
    ensures forall a :: a in r.attachments ==>
      exists c :: rt.build(c, obj, obj) == Some(a.provider)
  {
    OnLoad(rt, modId, s, obj, obj, initialized)
  }

  /** A category event's effect on the whole registry. */
  datatype Dispatched = Dispatched(registry: Registry, load: Load)

  /**
   `after` differs from `before` at most in category `cat`, whose stores are
   those the attach step left behind.
   */
  ghost predicate Confined(before: Registry, after: Dispatched, cat: Category) {
    && after.registry.modId == before.modId
    && StoreOf(after.registry, cat) == after.load.store
    && (forall cat' :: cat' != cat ==> StoreOf(after.registry, cat') == StoreOf(before, cat'))
  }

  /** `onTileLoad`: the tile entity is both key and value; only tile stores change. */
  function OnTileLoad(rt: Runtime, reg: Registry, tile: Obj, initialized: bool): (r: Dispatched)
    ensures r.load == OnLoad(rt, reg.modId, reg.tile, tile, tile, initialized)
    ensures Confined(reg, r, TileCategory)
    ensures forall a :: a in r.load.attachments ==>
      exists e :: e in r.load.invoked && rt.build(e.ctor, tile, tile) == Some(a.provider)
  {
    var l := OnLoadSelf(rt, reg.modId, reg.tile, tile, initialized);
    Dispatched(reg.(tile := l.store), l)
  }

  /** `onEntityLoad`: the entity is both key and value; only entity stores change. */
  function OnEntityLoad(rt: Runtime, reg: Registry, entity: Obj, initialized: bool): (r: Dispatched)
    ensures r.load == OnLoad(rt, reg.modId, reg.entity, entity, entity, initialized)
    ensures Confined(reg, r, EntityCategory)
    ensures forall a :: a in r.load.attachments ==>
      exists e :: e in r.load.invoked && rt.build(e.ctor, entity, entity) == Some(a.provider)
  {
    var l := OnLoadSelf(rt, reg.modId, reg.entity, entity, initialized);
    Dispatched(reg.(entity := l.store), l)
  }

  /**
   `onItemStackLoad`: the item selects constructors (runtime class and
   `isInstance`), the stack is what they receive as value; only item stores
   change.
   */
  function OnItemStackLoad(rt: Runtime, reg: Registry, item: Obj, stack: Obj, initialized: bool): (r: Dispatched)
    ensures r.load == OnLoad(rt, reg.modId, reg.item, item, stack, initialized)
    ensures Confined(reg, r, ItemCategory)
    ensures forall a :: a in r.load.attachments ==>
      exists e :: e in r.load.invoked && rt.build(e.ctor, item, stack) == Some(a.provider)
  {
    var l := OnLoad(rt, reg.modId, reg.item, item, stack, initialized);
    Dispatched(reg.(item := l.store), l)
  }
}
