/**
 The attach step as the registry performs it: each pass iterates its store
 in whatever order the hash set yields, invokes the constructors with a
 capability, collects the null-capability ones in a list while scanning, and
 removes the listed entries only after the scan has finished. Each method is
 proved to agree with the declarative `OnLoad`.
 */
module Scan {
  import opened Wrappers
  import Multimap
  import opened CapabilityConstructorRegistry

  /** The elements of a removal list. */
  function Listed<T>(xs: seq<T>): set<T> {
    set x | x in xs
  }

  /** Adding one invoked constructor adds at most its own attachment. */
  lemma ProvidedInsert(rt: Runtime, modId: string, cs: set<Ctor>, c: Ctor, key: Obj, value: Obj)
    requires rt.capability(c).Some?
    ensures Provided(rt, modId, cs + {c}, key, value)
         == Provided(rt, modId, cs, key, value)
            + (var a := Provide(rt, modId, c, key, value); if a.Some? then {a.value} else {})
  {
  }

  /** Attachments of a union of invoked constructors are the union of their attachments. */
  lemma ProvidedUnion(rt: Runtime, modId: string, cs: set<Ctor>, ds: set<Ctor>, key: Obj, value: Obj)
    ensures Provided(rt, modId, cs + ds, key, value)
         == Provided(rt, modId, cs, key, value) + Provided(rt, modId, ds, key, value)
  {
  }

  /**
   The exact pass: scan the constructors stored under the key's runtime
   class, invoke those with a capability, list those without one when
   `canRemove` holds.
   */
  method ScanExact(rt: Runtime, modId: string, constructors: set<Ctor>, key: Obj, value: Obj, canRemove: bool)
    returns (invoked: set<Ctor>, attachments: set<Attachment>, toRemove: seq<Ctor>)
    ensures forall c :: c in invoked <==> c in constructors && rt.capability(c).Some?
    ensures attachments == Provided(rt, modId, invoked, key, value)
    ensures canRemove ==> forall c :: c in toRemove <==> c in constructors && rt.capability(c).None?
    ensures !canRemove ==> toRemove == []
  {
    var todo := constructors;
    invoked, attachments, toRemove := {}, {}, [];
    while todo != {}
      invariant todo <= constructors
      invariant forall c :: c in invoked <==> c in constructors && c !in todo && rt.capability(c).Some?
      invariant attachments == Provided(rt, modId, invoked, key, value)
      invariant canRemove ==> forall c :: c in toRemove <==> c in constructors && c !in todo && rt.capability(c).None?
      invariant !canRemove ==> toRemove == []
      decreases todo
    {
      var c :| c in todo;
      if rt.capability(c).None? {
        if canRemove {
          toRemove := toRemove + [c];
        }
      } else {
        ProvidedInsert(rt, modId, invoked, c, key, value);
        invoked := invoked + {c};
        var a := Provide(rt, modId, c, key, value);
        if a.Some? {
          attachments := attachments + {a.value};
        }
      }
      todo := todo - {c};
    }
  }

  /** Removes each listed constructor from under `cls`, one `remove` call at a time. */
  method RemoveEach(m: map<ClassId, set<Ctor>>, cls: ClassId, toRemove: seq<Ctor>)
    returns (m': map<ClassId, set<Ctor>>)
    requires Multimap.WellFormed(m)
    ensures m' == Multimap.RemoveAll(m, cls, Listed(toRemove))
  {
    Multimap.RemoveNothing(m, cls);
    m' := m;
    var i := 0;
    assert Listed(toRemove[..i]) == {};
    while i < |toRemove|
      invariant 0 <= i <= |toRemove|
      invariant m' == Multimap.RemoveAll(m, cls, Listed(toRemove[..i]))
    {
      Multimap.RemoveStep(m, cls, Listed(toRemove[..i]), toRemove[i]);
      assert Listed(toRemove[..i + 1]) == Listed(toRemove[..i]) + {toRemove[i]} by {
        assert toRemove[..i + 1] == toRemove[..i] + [toRemove[i]];
      }
      m' := Multimap.Remove(m', cls, toRemove[i]);
      i := i + 1;
    }
    assert toRemove[..i] == toRemove;
  }

  /**
   The inheritable pass: scan every pair; a pair with a capability is invoked
   when its class `isInstance` of the key, a pair without one is listed when
   `canRemove` holds, whatever its class.
   */
  method ScanInheritable(rt: Runtime, modId: string, pairs: set<(ClassId, Ctor)>, key: Obj, value: Obj, canRemove: bool)
    returns (invoked: set<(ClassId, Ctor)>, attachments: set<Attachment>, toRemove: seq<(ClassId, Ctor)>)
    ensures forall p :: p in invoked <==> p in pairs && rt.capability(p.1).Some? && rt.isInstance(p.0, key)
    ensures attachments == Provided(rt, modId, (set p | p in invoked :: p.1), key, value)
    ensures canRemove ==> forall p :: p in toRemove <==> p in pairs && rt.capability(p.1).None?
    ensures !canRemove ==> toRemove == []
  {
    var todo := pairs;
    invoked, attachments, toRemove := {}, {}, [];
    while todo != {}
      invariant todo <= pairs
      invariant forall p :: p in invoked <==>
        p in pairs && p !in todo && rt.capability(p.1).Some? && rt.isInstance(p.0, key)
      invariant attachments == Provided(rt, modId, (set p | p in invoked :: p.1), key, value)
      invariant canRemove ==> forall p :: p in toRemove <==> p in pairs && p !in todo && rt.capability(p.1).None?
      invariant !canRemove ==> toRemove == []
      decreases todo
    {
      var p :| p in todo;
      if rt.capability(p.1).None? {
        if canRemove {
          toRemove := toRemove + [p];
        }
      } else if rt.isInstance(p.0, key) {
        ghost var before := set q | q in invoked :: q.1;
        ProvidedInsert(rt, modId, before, p.1, key, value);
        invoked := invoked + {p};
        assert (set q | q in invoked :: q.1) == before + {p.1};
        var a := Provide(rt, modId, p.1, key, value);
        if a.Some? {
          attachments := attachments + {a.value};
        }
      }
      todo := todo - {p};
    }
  }

  /** Removes each listed pair from the inheritable set, one `remove` call at a time. */
  method RemovePairs(pairs: set<(ClassId, Ctor)>, toRemove: seq<(ClassId, Ctor)>)
    returns (pairs': set<(ClassId, Ctor)>)
    ensures forall p :: p in pairs' <==> p in pairs && p !in toRemove
  {
    pairs' := pairs;
    var i := 0;
    while i < |toRemove|
      invariant 0 <= i <= |toRemove|
      invariant forall p :: p in pairs' <==> p in pairs && p !in toRemove[..i]
    {
      assert toRemove[..i + 1] == toRemove[..i] + [toRemove[i]];
      pairs' := pairs' - {toRemove[i]};
      i := i + 1;
    }
    assert toRemove[..i] == toRemove;
  }

  /** The entries the two scans invoked, as the declarative model names them. */
  function InvokedEntries(cls: ClassId, exactInvoked: set<Ctor>, pairInvoked: set<(ClassId, Ctor)>): set<Entry> {
    (set c | c in exactInvoked :: Entry(Exact, cls, c))
    + (set p | p in pairInvoked :: Entry(Inheritable, p.0, p.1))
  }

  lemma InvokedAgree(rt: Runtime, modId: string, s: Store, key: Obj, value: Obj, canRemove: bool,
                     exactInvoked: set<Ctor>, pairInvoked: set<(ClassId, Ctor)>)
    requires forall c :: c in exactInvoked <==>
      c in Multimap.Get(s.exact, rt.classOf(key)) && rt.capability(c).Some?
    requires forall p :: p in pairInvoked <==>
      p in s.inheritable && rt.capability(p.1).Some? && rt.isInstance(p.0, key)
    ensures InvokedEntries(rt.classOf(key), exactInvoked, pairInvoked)
         == OnLoad(rt, modId, s, key, value, canRemove).invoked
    ensures CtorsOf(InvokedEntries(rt.classOf(key), exactInvoked, pairInvoked))
         == exactInvoked + (set p | p in pairInvoked :: p.1)
  {
    var cls := rt.classOf(key);
    var invoked := InvokedEntries(cls, exactInvoked, pairInvoked);
    forall c | c in exactInvoked
      ensures c in CtorsOf(invoked)
    {
      assert Entry(Exact, cls, c) in invoked;
    }
    forall p | p in pairInvoked
      ensures p.1 in CtorsOf(invoked)
    {
      assert Entry(Inheritable, p.0, p.1) in invoked;
    }
  }

  lemma StoreAgrees(rt: Runtime, modId: string, s: Store, key: Obj, value: Obj, canRemove: bool,
                    toRemoveList: seq<Ctor>, toRemoveInheritableList: seq<(ClassId, Ctor)>,
                    inheritable': set<(ClassId, Ctor)>)
    requires canRemove ==> forall c :: c in toRemoveList <==>
      c in Multimap.Get(s.exact, rt.classOf(key)) && rt.capability(c).None?
    requires !canRemove ==> toRemoveList == []
    requires canRemove ==> forall p :: p in toRemoveInheritableList <==>
      p in s.inheritable && rt.capability(p.1).None?
    requires !canRemove ==> toRemoveInheritableList == []
    requires forall p :: p in inheritable' <==> p in s.inheritable && p !in toRemoveInheritableList
    requires Valid(s)
    ensures Store(Multimap.RemoveAll(s.exact, rt.classOf(key), Listed(toRemoveList)), inheritable')
         == OnLoad(rt, modId, s, key, value, canRemove).store
  {
    var cls := rt.classOf(key);
    if canRemove {
      assert Listed(toRemoveList) == set c | c in Multimap.Get(s.exact, cls) && rt.capability(c).None?;
      assert inheritable' == set p | p in s.inheritable && rt.capability(p.1).Some?;
    } else {
      assert Listed(toRemoveList) == {};
      Multimap.RemoveNothing(s.exact, cls);
    }
  }

  /**
   The five-argument `onLoad` as written: exact pass, its removals, then the
   inheritable pass and its removals.
   */
  method OnLoadScan(rt: Runtime, modId: string, s: Store, key: Obj, value: Obj, canRemove: bool)
    returns (r: Load)
    requires Valid(s)
    ensures r == OnLoad(rt, modId, s, key, value, canRemove)
  {
    var cls := rt.classOf(key);
    var constructors := Multimap.Get(s.exact, cls);
    var exactInvoked, exactAttached, toRemoveList := ScanExact(rt, modId, constructors, key, value, canRemove);
    var exact' := RemoveEach(s.exact, cls, toRemoveList);

    var pairInvoked, pairAttached, toRemoveInheritableList :=
      ScanInheritable(rt, modId, s.inheritable, key, value, canRemove);
    var inheritable' := RemovePairs(s.inheritable, toRemoveInheritableList);

    var invoked := InvokedEntries(cls, exactInvoked, pairInvoked);
    r := Load(Store(exact', inheritable'), invoked, exactAttached + pairAttached);

    InvokedAgree(rt, modId, s, key, value, canRemove, exactInvoked, pairInvoked);
    ProvidedUnion(rt, modId, exactInvoked, (set p | p in pairInvoked :: p.1), key, value);
    StoreAgrees(rt, modId, s, key, value, canRemove, toRemoveList, toRemoveInheritableList, inheritable');
  }
}
