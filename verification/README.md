# Capability constructor registry (CyclopsCore) in Dafny

A model of CyclopsCore's `CapabilityConstructorRegistry`: the per-mod registry in
which other code registers capability constructors for tile entities, entities
and items, and which, each time a host object is instantiated, asks the matching
constructors for capability providers and attaches them to the object under the
identifier `modId:capabilityName`.

Each of the three host categories owns two stores:

- an **exact** store, a set multimap from a class to constructors, consulted only
  for host objects whose runtime class is that class;
- an **inheritable** store, a set of (base class, constructor) pairs, each matched
  with `isInstance` against every host object.

Registration only adds to a store. The attach step (`onLoad`) scans both stores.
A constructor whose capability is null is skipped. Once the game is initialized,
such constructors are also collected during the scan and removed after it: from
under the key's class in the exact store, and from the whole inheritable store.
Every other matching constructor builds a provider from the key object and the
value object. A non-null provider becomes an attachment. Tile entities and
entities are their own key and value; for items the item is the key and the item
stack is the value.

Files:

- `wrappers.dfy`: `Option`, standing for Java's nullable results.
- `multimap.dfy`: a set multimap as a map from keys to non-empty value sets.
- `registry.dfy`: the data model, the six registration operations, the
  declarative attach step `OnLoad`, its two overloads and the three category
  entry points.
- `scan.dfy`: the attach step as `onLoad` performs it. Each pass is a loop over
  its store in arbitrary order that collects removals in a list. A second loop
  applies the removals afterwards. The methods are proved equal to `OnLoad`.
- `properties.dfy`: lemmas relating several registrations and attach steps.

The host object model, the constructors and the capability types are abstract.
Class identity, `getClass`, `isInstance`, `getCapability`, `Capability.getName`
and `createProvider` are total functions in a `Runtime` record. The mod id and
the "Minecraft initialized" flag are plain inputs.

## Model

| member | source | states |
|---|---|---|
| Multimap.Put | src/main/java/org/cyclops/cyclopscore/modcompat/capabilities/CapabilityConstructorRegistry.java:29-30 | a multimap put adds exactly the pair (key, value), leaves every other key's values alone, and keeps every stored key non-empty |
| Multimap.RemoveAll | src/main/java/org/cyclops/cyclopscore/modcompat/capabilities/CapabilityConstructorRegistry.java:148-150 | removing a batch from under one key leaves that key with its old values minus the batch, other keys unchanged, and drops the key when it runs empty |
| Multimap.Remove | src/main/java/org/cyclops/cyclopscore/modcompat/capabilities/CapabilityConstructorRegistry.java:149 | removing one constructor through the class's view removes exactly that pair and keeps every stored key non-empty |
| CapabilityConstructorRegistry.Insert | src/main/java/org/cyclops/cyclopscore/modcompat/capabilities/CapabilityConstructorRegistry.java:35-40 | adding an entry to a store makes the store hold exactly its old entries plus that one |
| CapabilityConstructorRegistry.Register | src/main/java/org/cyclops/cyclopscore/modcompat/capabilities/CapabilityConstructorRegistry.java:59-119 | registering into a category adds exactly one entry to that category and changes no other category, nor the mod id |
| CapabilityConstructorRegistry.RegisterTile | src/main/java/org/cyclops/cyclopscore/modcompat/capabilities/CapabilityConstructorRegistry.java:59-61 | adds exactly (tile class, constructor) to the tile exact store, nothing else |
| CapabilityConstructorRegistry.RegisterEntity | src/main/java/org/cyclops/cyclopscore/modcompat/capabilities/CapabilityConstructorRegistry.java:69-71 | adds exactly (entity class, constructor) to the entity exact store, nothing else |
| CapabilityConstructorRegistry.RegisterItem | src/main/java/org/cyclops/cyclopscore/modcompat/capabilities/CapabilityConstructorRegistry.java:79-81 | adds exactly (item class, constructor) to the item exact store, nothing else |
| CapabilityConstructorRegistry.RegisterInheritableTile | src/main/java/org/cyclops/cyclopscore/modcompat/capabilities/CapabilityConstructorRegistry.java:91-94 | adds exactly (base class, constructor) to the tile inheritable set, nothing else |
| CapabilityConstructorRegistry.RegisterInheritableEntity | src/main/java/org/cyclops/cyclopscore/modcompat/capabilities/CapabilityConstructorRegistry.java:104-107 | adds exactly (base class, constructor) to the entity inheritable set, nothing else |
| CapabilityConstructorRegistry.RegisterInheritableItem | src/main/java/org/cyclops/cyclopscore/modcompat/capabilities/CapabilityConstructorRegistry.java:116-119 | adds exactly (base class, constructor) to the item inheritable set, nothing else |
| CapabilityConstructorRegistry.Provide | src/main/java/org/cyclops/cyclopscore/modcompat/capabilities/CapabilityConstructorRegistry.java:171-177 | an attachment exists exactly when the built provider is non-null; it carries that provider under the id (modId, capability name) |
| CapabilityConstructorRegistry.OnLoad | src/main/java/org/cyclops/cyclopscore/modcompat/capabilities/CapabilityConstructorRegistry.java:132-169 | invoked entries are exactly the held ones with a capability whose class is the key's runtime class (exact) or an instance-of match (inheritable); attachments come only from invoked entries; without the initialized flag the stores are unchanged; with it the stores lose exactly the null-capability entries the scans reach; store validity is kept |
| CapabilityConstructorRegistry.OnLoadSelf | src/main/java/org/cyclops/cyclopscore/modcompat/capabilities/CapabilityConstructorRegistry.java:126-130 | the single-object overload passes the host object as both key and value: every provider is built from (object, object) |
| CapabilityConstructorRegistry.OnTileLoad | src/main/java/org/cyclops/cyclopscore/modcompat/capabilities/CapabilityConstructorRegistry.java:179-182 | a tile event runs the attach step on the tile stores, builds every provider from (tile, tile), and changes no other category nor the mod id |
| CapabilityConstructorRegistry.OnEntityLoad | src/main/java/org/cyclops/cyclopscore/modcompat/capabilities/CapabilityConstructorRegistry.java:184-187 | an entity event runs the attach step on the entity stores, builds every provider from (entity, entity), and changes no other category nor the mod id |
| CapabilityConstructorRegistry.OnItemStackLoad | src/main/java/org/cyclops/cyclopscore/modcompat/capabilities/CapabilityConstructorRegistry.java:189-192 | an item event selects constructors by the item and builds every provider from (item, stack), not from the item alone; only the item stores change |
| Scan.ScanExact | src/main/java/org/cyclops/cyclopscore/modcompat/capabilities/CapabilityConstructorRegistry.java:137-147 | the exact loop invokes exactly the constructors with a capability under the key's class, yields their non-null attachments, and lists exactly the null-capability ones when removal is allowed, none otherwise |
| Scan.RemoveEach | src/main/java/org/cyclops/cyclopscore/modcompat/capabilities/CapabilityConstructorRegistry.java:148-150 | removing the listed constructors one by one equals removing the listed set from under the key's class at once |
| Scan.ScanInheritable | src/main/java/org/cyclops/cyclopscore/modcompat/capabilities/CapabilityConstructorRegistry.java:153-165 | the inheritable loop invokes exactly the pairs with a capability whose class is an instance-of match, and lists every null-capability pair, matching or not, when removal is allowed |
| Scan.RemovePairs | src/main/java/org/cyclops/cyclopscore/modcompat/capabilities/CapabilityConstructorRegistry.java:166-168 | removing the listed pairs one by one leaves exactly the pairs not listed |
| Scan.OnLoadScan | src/main/java/org/cyclops/cyclopscore/modcompat/capabilities/CapabilityConstructorRegistry.java:132-169 | the collect-then-remove loops produce the same stores, invoked entries and attachments as the declarative attach step |
| Properties.RegisterPresent | src/main/java/org/cyclops/cyclopscore/modcompat/capabilities/CapabilityConstructorRegistry.java:29-40 | registering an entry a category already holds leaves the registry unchanged, because both stores are sets |
| Properties.RegisterIdempotent | src/main/java/org/cyclops/cyclopscore/modcompat/capabilities/CapabilityConstructorRegistry.java:59-119 | registering the same entry twice equals registering it once |
| Properties.RegisterCommutes | src/main/java/org/cyclops/cyclopscore/modcompat/capabilities/CapabilityConstructorRegistry.java:59-119 | the order of two registrations does not matter |
| Properties.ExactDispatch | src/main/java/org/cyclops/cyclopscore/modcompat/capabilities/CapabilityConstructorRegistry.java:137-139 | an exact registration under a class is invoked for an object iff the object's runtime class is that class and the capability is present; a subclass instance never triggers it |
| Properties.InheritableDispatch | src/main/java/org/cyclops/cyclopscore/modcompat/capabilities/CapabilityConstructorRegistry.java:154-163 | an inheritable registration is invoked for an object iff its base class is an instance-of match and the capability is present |
| Properties.FanOut | src/main/java/org/cyclops/cyclopscore/modcompat/capabilities/CapabilityConstructorRegistry.java:137-147 | two constructors under one class are both invoked for one object and both attachments are made |
| Properties.NullCapabilityNeverBuilt | src/main/java/org/cyclops/cyclopscore/modcompat/capabilities/CapabilityConstructorRegistry.java:140-145 | the outcome of an attach step does not depend on what a null-capability constructor would build: it is never asked, in either pass |
| Properties.DeferredUntilInitialized | src/main/java/org/cyclops/cyclopscore/modcompat/capabilities/CapabilityConstructorRegistry.java:135-143 | before initialization a null-capability entry is skipped and kept; a later step that finds its capability present invokes it; a later initialized step that still finds it null drops it |
| Properties.DeclineKeepsEntry | src/main/java/org/cyclops/cyclopscore/modcompat/capabilities/CapabilityConstructorRegistry.java:171-177 | a null provider removes nothing: the entry stays and a later object it accepts gets its attachment |
| Properties.ReloadIsStable | src/main/java/org/cyclops/cyclopscore/modcompat/capabilities/CapabilityConstructorRegistry.java:135-168 | repeating an initialized attach step for the same object changes nothing more and yields the same invocations and attachments |
| Properties.ReplayOnlyRemoves | src/main/java/org/cyclops/cyclopscore/modcompat/capabilities/CapabilityConstructorRegistry.java:148-150 | over any sequence of attach steps the stores only lose entries and stay valid |
| Properties.PrunedNeverInvoked | src/main/java/org/cyclops/cyclopscore/modcompat/capabilities/CapabilityConstructorRegistry.java:166-168 | an entry no longer held is never invoked by any later attach step |

## Left out

- `ConfigurableBlockGui.java` (player sneaking, opening a GUI, GUI id allocation): game-world glue outside the registry.
- Event-bus self-registration in the constructor and the subscription wiring: the three entry points are plain functions.
- `Helpers.isMinecraftInitialized()`: an input flag to each attach step, read once per step, as `onLoad` does.
- The unchecked generic casts of `createProvider`: `build` is a total function over one abstract host-object type.
- The concrete provider, resource-location and event types. In particular `ResourceLocation` lower-casing of its parts is not modelled; the identifier is the pair (mod id, capability name) as given.
- What the event does when two providers are added under the same identifier: the event decides that, not the registry. Attachments are a set, so identical (identifier, provider) pairs merge.
- Hash iteration order: attachments are a set and each scan loop picks its next element arbitrarily.
- Exceptions thrown by constructors.
- `getCapability` is read twice per invoked constructor by `onLoad` and `addLoadedCapabilityProvider` (once to test for null, once for the name); the model reads one value per attach step, so a capability changing in between is not modelled.
