/** Storage change notifications: subscribers register keys in an index, a trigger collects
    the changes anybody listens to, and each subscriber filters the shared change set. */
module Notifications {
  import opened Wrappers
  import opened ForkTree

  type Key = seq<bv8>
  type Data = Option<seq<bv8>>
  type Change = (Key, Data)
  type ChildChanges = (Key, seq<Change>)

  type SubscriberId = nat
  /** The keys a subscriber asked for; none means all. */
  type Filter = Option<set<Key>>
  type ChildFilters = Option<map<Key, Filter>>

  /** A change as a subscriber sees it, with the child trie it happened in. */
  type Item = (Option<Key>, Key, Data)

  predicate Wants(f: Filter, k: Key)
  {
    f.None? || k in f.value
  }

  function Select(f: Filter, child: Option<Key>, changes: seq<Change>): seq<Item>
  {
    if changes == [] then []
    else (if Wants(f, changes[0].0) then [(child, changes[0].0, changes[0].1)] else []) + Select(f, child, changes[1..])
  }

  function SelectChildren(filters: ChildFilters, changes: seq<ChildChanges>): seq<Item>
  {
    if changes == [] then []
    else (if filters.Some? && changes[0].0 in filters.value
          then Select(filters.value[changes[0].0], Some(changes[0].0), changes[0].1) else [])
         + SelectChildren(filters, changes[1..])
  }

  /** What is sent: the shared changes with the subscriber's own filters. */
  datatype ChangeSet = ChangeSet(changes: seq<Change>, childChanges: seq<ChildChanges>, filter: Filter, childFilters: ChildFilters) {
    function Iter(): seq<Item>
    {
      Select(filter, None, changes) + SelectChildren(childFilters, childChanges)
    }
  }

  // What a subscriber reads

  /** A change of a block: at the top level, or in one of the child tries. */
  datatype Place = Top(index: nat) | Child(trie: nat, index: nat)

  predicate IsPlace(changes: seq<Change>, childChanges: seq<ChildChanges>, p: Place)
  {
    match p
    case Top(i) => i < |changes|
    case Child(t, i) => t < |childChanges| && i < |childChanges[t].1|
  }

  function ItemAt(changes: seq<Change>, childChanges: seq<ChildChanges>, p: Place): Item
    requires IsPlace(changes, childChanges, p)
  {
    match p
    case Top(i) => (None, changes[i].0, changes[i].1)
    case Child(t, i) => (Some(childChanges[t].0), childChanges[t].1[i].0, childChanges[t].1[i].1)
  }

  /** The order of a block's changes: top level first, then one child trie after the other. */
  predicate Before(a: Place, b: Place)
  {
    match a
    case Top(i) => b.Child? || i < b.index
    case Child(t, i) => b.Child? && (t < b.trie || (t == b.trie && i < b.index))
  }

  /** The filters ask for the item: its key, in its trie, or everything there. */
  predicate Asked(f: Filter, filters: ChildFilters, item: Item)
  {
    match item.0
    case None => f.None? || item.1 in f.value
    case Some(c) => filters.Some? && c in filters.value && (filters.value[c].None? || item.1 in filters.value[c].value)
  }

  /** The items are those at the given places, in the block's order, and the places are
      exactly those asked for. */
  ghost predicate ReadAt(items: seq<Item>, at: seq<Place>, f: Filter, filters: ChildFilters,
                         changes: seq<Change>, childChanges: seq<ChildChanges>)
  {
    && |at| == |items|
    && (forall i, j :: 0 <= i < j < |at| ==> Before(at[i], at[j]))
    && (forall i :: 0 <= i < |at| ==> IsPlace(changes, childChanges, at[i]) && items[i] == ItemAt(changes, childChanges, at[i]))
    && (forall p :: IsPlace(changes, childChanges, p) ==> (p in at <==> Asked(f, filters, ItemAt(changes, childChanges, p))))
  }

  ghost predicate ReadsExactly(items: seq<Item>, f: Filter, filters: ChildFilters, changes: seq<Change>, childChanges: seq<ChildChanges>)
  {
    exists at :: ReadAt(items, at, f, filters, changes, childChanges)
  }

  /** The items of one trie come from strictly increasing positions, exactly those asked for. */
  ghost predicate Picks(at: seq<nat>, items: seq<Item>, f: Filter, child: Option<Key>, changes: seq<Change>)
  {
    && |at| == |items|
    && (forall i, j :: 0 <= i < j < |at| ==> at[i] < at[j])
    && (forall i :: 0 <= i < |at| ==> at[i] < |changes| && items[i] == (child, changes[at[i]].0, changes[at[i]].1))
    && (forall p: nat :: p < |changes| ==> (p in at <==> f.None? || changes[p].0 in f.value))
  }

  lemma {:induction false} SelectSnoc(f: Filter, child: Option<Key>, changes: seq<Change>, last: Change)
    ensures Select(f, child, changes + [last]) ==
            Select(f, child, changes) + if f.None? || last.0 in f.value then [(child, last.0, last.1)] else []
  {
    if changes == [] {
      assert changes + [last] == [last];
    } else {
      assert (changes + [last])[1..] == changes[1..] + [last];
      SelectSnoc(f, child, changes[1..], last);
    }
  }

  lemma PicksSnoc(at: seq<nat>, items: seq<Item>, f: Filter, child: Option<Key>, changes: seq<Change>, last: Change)
    requires Picks(at, items, f, child, changes)
    ensures if f.None? || last.0 in f.value
            then Picks(at + [|changes|], items + [(child, last.0, last.1)], f, child, changes + [last])
            else Picks(at, items, f, child, changes + [last])
  {
  }

  lemma {:induction false} SelectPicks(f: Filter, child: Option<Key>, changes: seq<Change>) returns (at: seq<nat>)
    ensures Picks(at, Select(f, child, changes), f, child, changes)
    decreases |changes|
  {
    at := [];
    if changes != [] {
      var init, last := changes[..|changes| - 1], changes[|changes| - 1];
      at := SelectPicks(f, child, init);
      SelectSnoc(f, child, init, last);
      PicksSnoc(at, Select(f, child, init), f, child, init, last);
      assert changes == init + [last];
      if f.None? || last.0 in f.value {
        at := at + [|init|];
      } else {
        assert Select(f, child, init) + [] == Select(f, child, init);
      }
    }
  }

  lemma TopRead(f: Filter, changes: seq<Change>) returns (at: seq<Place>)
    ensures ReadAt(Select(f, None, changes), at, f, None, changes, [])
  {
    var picked := SelectPicks(f, None, changes);
    at := seq(|picked|, i requires 0 <= i < |picked| => Top(picked[i]));
    forall p | IsPlace(changes, [], p) ensures p in at <==> Asked(f, None, ItemAt(changes, [], p)) {
      if p.index in picked {
        var i :| 0 <= i < |picked| && picked[i] == p.index;
        assert at[i] == p;
      }
    }
  }

  /** One more child trie: its places come after all others. */
  lemma LastChildRead(filters: ChildFilters, changes: seq<ChildChanges>, at: seq<Place>, items: seq<Item>,
                      last: ChildChanges, picked: seq<nat>, lastItems: seq<Item>)
    returns (all: seq<Place>)
    requires ReadAt(items, at, None, filters, [], changes)
    requires Picks(picked, lastItems, FilterAt(filters, last.0), Some(last.0), last.1)
    ensures ReadAt(items + lastItems, all, None, filters, [], changes + [last])
  {
    var n := |changes|;
    var lastAt := seq(|picked|, i requires 0 <= i < |picked| => Child(n, picked[i]));
    all := at + lastAt;
    forall p | IsPlace([], changes + [last], p) ensures p in all <==> Asked(None, filters, ItemAt([], changes + [last], p)) {
      LastChildPlace(filters, changes, at, items, last, picked, lastItems, lastAt, p);
    }
    forall i | 0 <= i < |at| ensures at[i].Child? && at[i].trie < n {
      assert IsPlace([], changes, at[i]);
    }
    forall i | 0 <= i < |all|
      ensures IsPlace([], changes + [last], all[i]) && (items + lastItems)[i] == ItemAt([], changes + [last], all[i])
    {
      if i < |at| {
        assert IsPlace([], changes, at[i]) && items[i] == ItemAt([], changes, at[i]);
      } else {
        assert all[i] == Child(n, picked[i - |at|]) && lastItems[i - |at|] == (items + lastItems)[i];
      }
    }
  }

  lemma LastChildPlace(filters: ChildFilters, changes: seq<ChildChanges>, at: seq<Place>, items: seq<Item>,
                       last: ChildChanges, picked: seq<nat>, lastItems: seq<Item>, lastAt: seq<Place>, p: Place)
    requires ReadAt(items, at, None, filters, [], changes)
    requires Picks(picked, lastItems, FilterAt(filters, last.0), Some(last.0), last.1)
    requires |lastAt| == |picked| && forall i :: 0 <= i < |picked| ==> lastAt[i] == Child(|changes|, picked[i])
    requires IsPlace([], changes + [last], p)
    ensures p in at + lastAt <==> Asked(None, filters, ItemAt([], changes + [last], p))
  {
    if p.trie == |changes| {
      assert p !in at;
      if p.index in picked {
        var i :| 0 <= i < |picked| && picked[i] == p.index;
        assert lastAt[i] == p;
      }
    } else {
      assert p !in lastAt;
      assert ItemAt([], changes + [last], p) == ItemAt([], changes, p);
    }
  }

  lemma {:induction false} SelectChildrenSnoc(filters: ChildFilters, changes: seq<ChildChanges>, last: ChildChanges)
    ensures SelectChildren(filters, changes + [last]) ==
            SelectChildren(filters, changes) + Select(FilterAt(filters, last.0), Some(last.0), last.1)
  {
    if changes == [] {
      assert changes + [last] == [last];
      SelectNothing(Some(last.0), last.1);
    } else {
      assert (changes + [last])[1..] == changes[1..] + [last];
      SelectChildrenSnoc(filters, changes[1..], last);
    }
  }

  lemma {:induction false} ChildrenRead(filters: ChildFilters, changes: seq<ChildChanges>) returns (at: seq<Place>)
    ensures ReadAt(SelectChildren(filters, changes), at, None, filters, [], changes)
    decreases |changes|
  {
    at := [];
    if changes != [] {
      var init, last := changes[..|changes| - 1], changes[|changes| - 1];
      at := ChildrenRead(filters, init);
      var picked := SelectPicks(FilterAt(filters, last.0), Some(last.0), last.1);
      SelectChildrenSnoc(filters, init, last);
      assert changes == init + [last];
      at := LastChildRead(filters, init, at, SelectChildren(filters, init),
                          last, picked, Select(FilterAt(filters, last.0), Some(last.0), last.1));
    }
  }

  lemma PlacesTogether(f: Filter, filters: ChildFilters, changes: seq<Change>, childChanges: seq<ChildChanges>,
                       a: seq<Item>, atA: seq<Place>, b: seq<Item>, atB: seq<Place>)
    requires ReadAt(a, atA, f, None, changes, []) && ReadAt(b, atB, None, filters, [], childChanges)
    ensures ReadAt(a + b, atA + atB, f, filters, changes, childChanges)
  {
    forall i | 0 <= i < |atA| ensures atA[i].Top? {
      assert IsPlace(changes, [], atA[i]);
    }
    forall i | 0 <= i < |atB| ensures atB[i].Child? {
      assert IsPlace([], childChanges, atB[i]);
    }
    var at := atA + atB;
    forall p | IsPlace(changes, childChanges, p) ensures p in at <==> Asked(f, filters, ItemAt(changes, childChanges, p)) {
      if p.Top? {
        assert IsPlace(changes, [], p) && ItemAt(changes, [], p) == ItemAt(changes, childChanges, p);
      } else {
        assert IsPlace([], childChanges, p) && ItemAt([], childChanges, p) == ItemAt(changes, childChanges, p);
      }
    }
  }

  /** A change set yields exactly the changes its filters ask for, each with its child trie,
      key and value, top-level changes first and otherwise in the order of the block. */
  lemma IterReadsExactly(set_: ChangeSet)
    ensures ReadsExactly(set_.Iter(), set_.filter, set_.childFilters, set_.changes, set_.childChanges)
  {
    var atA := TopRead(set_.filter, set_.changes);
    var atB := ChildrenRead(set_.childFilters, set_.childChanges);
    PlacesTogether(set_.filter, set_.childFilters, set_.changes, set_.childChanges,
                   Select(set_.filter, None, set_.changes), atA, SelectChildren(set_.childFilters, set_.childChanges), atB);
  }

  // The index

  datatype Registry = Registry(listeners: map<Key, set<SubscriberId>>, wildcards: set<SubscriberId>)

  const EMPTY := Registry(map[], {})

  predicate Has(reg: Registry, id: SubscriberId, k: Key)
  {
    k in reg.listeners && id in reg.listeners[k]
  }

  ghost predicate Tight(reg: Registry)
  {
    forall k :: k in reg.listeners ==> reg.listeners[k] != {}
  }

  /** The registry lists `id` exactly as the filter says. */
  ghost predicate Subscribed(reg: Registry, id: SubscriberId, f: Filter)
  {
    && (id in reg.wildcards <==> f.None?)
    && forall k :: Has(reg, id, k) <==> f.Some? && k in f.value
  }

  ghost predicate Unsubscribed(reg: Registry, id: SubscriberId)
  {
    Subscribed(reg, id, Some({}))
  }

  function RegistryOf(regs: map<Key, Registry>, c: Key): Registry
  {
    if c in regs then regs[c] else EMPTY
  }

  function FilterAt(filters: ChildFilters, c: Key): Filter
  {
    if filters.Some? && c in filters.value then filters.value[c] else Some({})
  }

  ghost predicate ChildSubscribed(regs: map<Key, Registry>, id: SubscriberId, filters: ChildFilters)
  {
    forall c :: Subscribed(RegistryOf(regs, c), id, FilterAt(filters, c))
  }

  // Collecting

  /** The changes somebody listens to. */
  function Pushed(reg: Registry, changes: seq<Change>): seq<Change>
  {
    if changes == [] then []
    else (if reg.wildcards != {} || changes[0].0 in reg.listeners then [changes[0]] else []) + Pushed(reg, changes[1..])
  }

  /** The subscribers some change is for. */
  function Hit(reg: Registry, changes: seq<Change>): set<SubscriberId>
  {
    if changes == [] then {}
    else (if changes[0].0 in reg.listeners then reg.listeners[changes[0].0] else {}) + reg.wildcards + Hit(reg, changes[1..])
  }

  function PushedChildren(regs: map<Key, Registry>, changes: seq<ChildChanges>): seq<ChildChanges>
  {
    if changes == [] then []
    else
      var p := Pushed(RegistryOf(regs, changes[0].0), changes[0].1);
      (if p != [] then [(changes[0].0, p)] else []) + PushedChildren(regs, changes[1..])
  }

  function HitChildren(regs: map<Key, Registry>, changes: seq<ChildChanges>): set<SubscriberId>
  {
    if changes == [] then {}
    else Hit(RegistryOf(regs, changes[0].0), changes[0].1) + HitChildren(regs, changes[1..])
  }

  /** Filtering the collected changes gives the same as filtering all of them, and a
      subscriber is hit exactly when that is not empty. */
  lemma {:induction false} SelectPushed(reg: Registry, id: SubscriberId, f: Filter, child: Option<Key>, changes: seq<Change>)
    requires Subscribed(reg, id, f)
    ensures Select(f, child, Pushed(reg, changes)) == Select(f, child, changes)
    ensures id in Hit(reg, changes) <==> Select(f, child, changes) != []
  {
    if changes != [] {
      SelectPushed(reg, id, f, child, changes[1..]);
      var k := changes[0].0;
      assert Has(reg, id, k) <==> f.Some? && k in f.value;
      var rest := Pushed(reg, changes[1..]);
      if reg.wildcards != {} || k in reg.listeners {
        assert ([changes[0]] + rest)[1..] == rest;
      } else {
        assert [] + rest == rest;
      }
    }
  }

  lemma {:induction false} PushedIffHit(reg: Registry, changes: seq<Change>)
    requires Tight(reg)
    ensures Pushed(reg, changes) != [] <==> Hit(reg, changes) != {}
  {
    if changes != [] {
      PushedIffHit(reg, changes[1..]);
    }
  }

  lemma {:induction false} SelectPushedChildren(regs: map<Key, Registry>, id: SubscriberId, filters: ChildFilters, changes: seq<ChildChanges>)
    requires ChildSubscribed(regs, id, filters)
    ensures SelectChildren(filters, PushedChildren(regs, changes)) == SelectChildren(filters, changes)
    ensures id in HitChildren(regs, changes) <==> SelectChildren(filters, changes) != []
  {
    if changes != [] {
      var c := changes[0].0;
      SelectPushedChildren(regs, id, filters, changes[1..]);
      SelectPushed(RegistryOf(regs, c), id, FilterAt(filters, c), Some(c), changes[0].1);
      SelectNothing(Some(c), changes[0].1);
      var p := Pushed(RegistryOf(regs, c), changes[0].1);
      var rest := PushedChildren(regs, changes[1..]);
      if p != [] {
        assert ([(c, p)] + rest)[1..] == rest;
      } else {
        assert [] + rest == rest;
      }
    }
  }

  lemma {:induction false} SelectNothing(child: Option<Key>, changes: seq<Change>)
    ensures Select(Some({}), child, changes) == []
  {
    if changes != [] {
      SelectNothing(child, changes[1..]);
    }
  }

  lemma {:induction false} PushedChildrenIffHit(regs: map<Key, Registry>, changes: seq<ChildChanges>)
    requires forall c :: c in regs ==> Tight(regs[c])
    ensures PushedChildren(regs, changes) != [] <==> HitChildren(regs, changes) != {}
  {
    if changes != [] {
      PushedChildrenIffHit(regs, changes[1..]);
      PushedIffHit(RegistryOf(regs, changes[0].0), changes[0].1);
    }
  }

  // Registering and unregistering

  function SetOf(keys: seq<Key>): set<Key>
  {
    set k | k in keys
  }

  function FilterOf(keys: Option<seq<Key>>): Filter
  {
    if keys.None? then None else Some(SetOf(keys.value))
  }

  function ListenersOf(reg: Registry, k: Key): set<SubscriberId>
  {
    if k in reg.listeners then reg.listeners[k] else {}
  }

  function Register(reg: Registry, id: SubscriberId, f: Filter): Registry
  {
    if f.None? then reg.(wildcards := reg.wildcards + {id})
    else reg.(listeners := map k | k in reg.listeners.Keys + f.value ::
                             if k in f.value then ListenersOf(reg, k) + {id} else reg.listeners[k])
  }

  function Unregister(reg: Registry, id: SubscriberId, f: Filter): Registry
  {
    if f.None? then reg.(wildcards := reg.wildcards - {id})
    else reg.(listeners := map k | k in reg.listeners && !(k in f.value && reg.listeners[k] - {id} == {}) ::
                             if k in f.value then reg.listeners[k] - {id} else reg.listeners[k])
  }

  /** What registering adds: one subscriber, the filter's keys, nothing else. */
  lemma RegisterEffect(reg: Registry, id: SubscriberId, f: Filter)
    ensures var reg' := Register(reg, id, f);
            && (Tight(reg) ==> Tight(reg'))
            && (forall j, k :: Has(reg', j, k) <==> Has(reg, j, k) || (j == id && f.Some? && k in f.value))
            && (forall j :: j in reg'.wildcards <==> j in reg.wildcards || (j == id && f.None?))
  {
  }

  lemma UnregisterEffect(reg: Registry, id: SubscriberId, f: Filter)
    ensures var reg' := Unregister(reg, id, f);
            && (Tight(reg) ==> Tight(reg'))
            && (forall j, k :: Has(reg', j, k) <==> Has(reg, j, k) && !(j == id && f.Some? && k in f.value))
            && (forall j :: j in reg'.wildcards <==> j in reg.wildcards && !(j == id && f.None?))
  {
    forall j, k | Has(reg, j, k) && j != id ensures Has(Unregister(reg, id, f), j, k) {
      assert j in reg.listeners[k] - {id};
    }
  }

  /** Unregistering undoes registering. */
  lemma RegisterRoundTrip(reg: Registry, id: SubscriberId, f: Filter)
    requires Tight(reg) && Unsubscribed(reg, id)
    ensures Unregister(Register(reg, id, f), id, f) == reg
  {
    if f.Some? {
      var reg' := Register(reg, id, f);
      forall k | k in reg'.listeners
        ensures k in reg.listeners ==> reg'.listeners[k] - {id} == reg.listeners[k]
        ensures k !in reg.listeners ==> k in f.value && reg'.listeners[k] - {id} == {}
        ensures k !in f.value ==> k in reg.listeners && reg'.listeners[k] == reg.listeners[k]
      {
        assert !Has(reg, id, k);
      }
    }
  }

  function AddListener(reg: Registry, id: SubscriberId, k: Key): Registry
  {
    reg.(listeners := reg.listeners[k := ListenersOf(reg, k) + {id}])
  }

  function DropListener(reg: Registry, id: SubscriberId, k: Key): Registry
  {
    if k !in reg.listeners then reg
    else if reg.listeners[k] - {id} == {} then reg.(listeners := reg.listeners - {k})
    else reg.(listeners := reg.listeners[k := reg.listeners[k] - {id}])
  }

  lemma RegisterStep(reg: Registry, id: SubscriberId, done: set<Key>, k: Key)
    ensures AddListener(Register(reg, id, Some(done)), id, k) == Register(reg, id, Some(done + {k}))
  {
    assert ListenersOf(Register(reg, id, Some(done)), k) + {id} == ListenersOf(reg, k) + {id};
  }

  lemma UnregisterStep(reg: Registry, id: SubscriberId, done: set<Key>, k: Key)
    requires k !in done
    ensures DropListener(Unregister(reg, id, Some(done)), id, k) == Unregister(reg, id, Some(done + {k}))
  {
    var a := DropListener(Unregister(reg, id, Some(done)), id, k).listeners;
    var b := Unregister(reg, id, Some(done + {k})).listeners;
    forall x ensures x in a <==> x in b {
    }
    forall x | x in a ensures a[x] == b[x] {
    }
    assert a == b;
  }

  /** Adds a subscriber to one registry and returns its filter. */
  method ListenFrom(reg: Registry, id: SubscriberId, keys: Option<seq<Key>>) returns (reg': Registry, filter: Filter)
    ensures filter == FilterOf(keys) && reg' == Register(reg, id, filter)
  {
    if keys.None? {
      return reg.(wildcards := reg.wildcards + {id}), None;
    }
    reg' := reg;
    var seen: set<Key> := {};
    for i := 0 to |keys.value|
      invariant seen == SetOf(keys.value[..i]) && reg' == Register(reg, id, Some(seen))
    {
      var k := keys.value[i];
      assert keys.value[..i + 1] == keys.value[..i] + [k];
      RegisterStep(reg, id, seen, k);
      reg' := AddListener(reg', id, k);
      seen := seen + {k};
    }
    assert keys.value[..|keys.value|] == keys.value;
    filter := Some(seen);
  }

  /** Removes a subscriber's entries from one registry. */
  method RemoveSubscriberFrom(reg: Registry, id: SubscriberId, filter: Filter) returns (reg': Registry)
    ensures reg' == Unregister(reg, id, filter)
  {
    if filter.None? {
      return reg.(wildcards := reg.wildcards - {id});
    }
    reg' := reg;
    var done: set<Key> := {};
    while done != filter.value
      invariant done <= filter.value && reg' == Unregister(reg, id, Some(done))
      decreases filter.value - done
    {
      var k: Key :| k in filter.value && k !in done;
      UnregisterStep(reg, id, done, k);
      reg' := DropListener(reg', id, k);
      done := done + {k};
    }
  }

  // Child tries

  type ChildKeys = seq<(Key, Option<seq<Key>>)>

  /** The stored filters: a later entry for the same child trie replaces an earlier one. */
  function LastFilters(list: ChildKeys): map<Key, Filter>
  {
    if list == [] then map[]
    else
      var (c, keys) := list[|list| - 1];
      LastFilters(list[..|list| - 1])[c := FilterOf(keys)]
  }

  /** The index, by contrast, collects all entries. */
  function RegisterChildren(regs: map<Key, Registry>, id: SubscriberId, list: ChildKeys): map<Key, Registry>
  {
    if list == [] then regs
    else
      var (c, keys) := list[|list| - 1];
      var before := RegisterChildren(regs, id, list[..|list| - 1]);
      before[c := Register(RegistryOf(before, c), id, FilterOf(keys))]
  }

  function UnregisterChildren(regs: map<Key, Registry>, id: SubscriberId, filters: map<Key, Filter>): map<Key, Registry>
  {
    map c | c in regs && !(c in filters && Unregister(regs[c], id, filters[c]) == EMPTY) ::
      if c in filters then Unregister(regs[c], id, filters[c]) else regs[c]
  }

  predicate Fits(entry: Filter, stored: Filter)
  {
    if entry.None? then stored.None? else entry.value == {} || (stored.Some? && entry.value <= stored.value)
  }

  /** No entry asks for more than the stored filter of its child trie. */
  ghost predicate Covered(list: ChildKeys)
  {
    forall i :: 0 <= i < |list| ==> Fits(FilterOf(list[i].1), FilterAt(Some(LastFilters(list)), list[i].0))
  }

  ghost predicate WildAt(list: ChildKeys, c: Key)
  {
    exists i :: 0 <= i < |list| && list[i].0 == c && list[i].1.None?
  }

  ghost predicate KeyAt(list: ChildKeys, c: Key, k: Key)
  {
    exists i :: 0 <= i < |list| && list[i].0 == c && list[i].1.Some? && k in list[i].1.value
  }

  lemma WildSnoc(init: ChildKeys, last: (Key, Option<seq<Key>>), c: Key)
    ensures WildAt(init + [last], c) <==> WildAt(init, c) || (last.0 == c && last.1.None?)
  {
    var list := init + [last];
    assert list[|init|] == last;
    if WildAt(init, c) {
      var i :| 0 <= i < |init| && init[i].0 == c && init[i].1.None?;
      assert list[i] == init[i];
    }
  }

  lemma KeySnoc(init: ChildKeys, last: (Key, Option<seq<Key>>), c: Key, k: Key)
    ensures KeyAt(init + [last], c, k) <==> KeyAt(init, c, k) || (last.0 == c && last.1.Some? && k in last.1.value)
  {
    var list := init + [last];
    assert list[|init|] == last;
    if KeyAt(init, c, k) {
      var i :| 0 <= i < |init| && init[i].0 == c && init[i].1.Some? && k in init[i].1.value;
      assert list[i] == init[i];
    }
  }

  /** What registering a list of entries adds to the registry of one child trie. */
  ghost predicate ChildEffect(reg: Registry, reg': Registry, id: SubscriberId, list: ChildKeys, c: Key)
  {
    && (Tight(reg) ==> Tight(reg'))
    && (forall j, k :: Has(reg', j, k) <==> Has(reg, j, k) || (j == id && KeyAt(list, c, k)))
    && (forall j :: j in reg'.wildcards <==> j in reg.wildcards || (j == id && WildAt(list, c)))
  }

  lemma ChildEffectSnoc(reg: Registry, mid: Registry, id: SubscriberId, init: ChildKeys, last: (Key, Option<seq<Key>>), c: Key)
    requires ChildEffect(reg, mid, id, init, c)
    ensures ChildEffect(reg, if last.0 == c then Register(mid, id, FilterOf(last.1)) else mid, id, init + [last], c)
  {
    var reg' := if last.0 == c then Register(mid, id, FilterOf(last.1)) else mid;
    WildSnoc(init, last, c);
    RegisterEffect(mid, id, FilterOf(last.1));
    forall j, k ensures Has(reg', j, k) <==> Has(reg, j, k) || (j == id && KeyAt(init + [last], c, k)) {
      KeySnoc(init, last, c, k);
      assert Has(mid, j, k) <==> Has(reg, j, k) || (j == id && KeyAt(init, c, k));
    }
  }

  lemma {:induction false} RegisterChildrenEffect(regs: map<Key, Registry>, id: SubscriberId, list: ChildKeys, c: Key)
    ensures ChildEffect(RegistryOf(regs, c), RegistryOf(RegisterChildren(regs, id, list), c), id, list, c)
    decreases |list|
  {
    if list != [] {
      var init, last := list[..|list| - 1], list[|list| - 1];
      RegisterChildrenEffect(regs, id, init, c);
      ChildEffectSnoc(RegistryOf(regs, c), RegistryOf(RegisterChildren(regs, id, init), c), id, init, last, c);
      assert list == init + [last];
    }
  }

  /** Entry `i` is the last for its child trie. */
  ghost predicate IsLastFor(list: ChildKeys, c: Key, i: int)
  {
    0 <= i < |list| && list[i].0 == c && forall j :: i < j < |list| ==> list[j].0 != c
  }

  /** The stored filter of a child trie is its last entry. */
  lemma {:induction false} LastFilterIsTheLastEntry(list: ChildKeys, c: Key)
    ensures c in LastFilters(list) <==> exists i :: 0 <= i < |list| && list[i].0 == c
    ensures c in LastFilters(list) ==> exists i :: IsLastFor(list, c, i) && LastFilters(list)[c] == FilterOf(list[i].1)
    decreases |list|
  {
    if list != [] {
      var n := |list| - 1;
      LastFilterIsTheLastEntry(list[..n], c);
      if list[n].0 == c {
        assert IsLastFor(list, c, n);
      } else if c in LastFilters(list) {
        var i :| IsLastFor(list[..n], c, i) && LastFilters(list[..n])[c] == FilterOf(list[..n][i].1);
        assert IsLastFor(list, c, i);
      }
    }
  }

  /** Covered means exactly that the index and the stored filters agree. */
  lemma CoveredIff(list: ChildKeys)
    ensures Covered(list) <==> forall c :: Agrees(list, c)
  {
    if Covered(list) {
      forall c ensures Agrees(list, c) {
        CoveredAgrees(list, c);
      }
    }
    if forall c :: Agrees(list, c) {
      forall i | 0 <= i < |list| ensures Fits(FilterOf(list[i].1), FilterAt(Some(LastFilters(list)), list[i].0)) {
        var c := list[i].0;
        assert Agrees(list, c);
        if list[i].1.Some? {
          assert forall k :: k in list[i].1.value ==> KeyAt(list, c, k);
        }
      }
    }
  }

  ghost predicate Agrees(list: ChildKeys, c: Key)
  {
    var f := FilterAt(Some(LastFilters(list)), c);
    (WildAt(list, c) <==> f.None?) && forall k :: KeyAt(list, c, k) <==> f.Some? && k in f.value
  }

  lemma CoveredAgrees(list: ChildKeys, c: Key)
    requires Covered(list)
    ensures Agrees(list, c)
  {
    LastFilterIsTheLastEntry(list, c);
    var f := FilterAt(Some(LastFilters(list)), c);
    forall k | KeyAt(list, c, k) ensures f.Some? && k in f.value {
      var i :| 0 <= i < |list| && list[i].0 == c && list[i].1.Some? && k in list[i].1.value;
      assert k in FilterOf(list[i].1).value;
    }
  }

  lemma UnregisterChildrenEffect(regs: map<Key, Registry>, id: SubscriberId, filters: map<Key, Filter>, c: Key)
    ensures RegistryOf(UnregisterChildren(regs, id, filters), c) ==
            if c in filters then Unregister(RegistryOf(regs, c), id, filters[c]) else RegistryOf(regs, c)
  {
    if c in filters {
      assert Unregister(EMPTY, id, filters[c]) == EMPTY;
    }
  }

  // The whole state

  /** A subscriber's channel: whether the receiver is alive, and what it has been sent. */
  datatype Sink = Sink(open: bool, queue: seq<(Hash, ChangeSet)>, filter: Filter, childFilters: ChildFilters) {
    /** The changes of a block this subscriber asked for, in order. */
    function Wanted(changes: seq<Change>, childChanges: seq<ChildChanges>): seq<Item>
    {
      ChangeSet(changes, childChanges, filter, childFilters).Iter()
    }
  }

  function TopFilter(sinks: map<SubscriberId, Sink>, id: SubscriberId): Filter
  {
    if id in sinks then sinks[id].filter else Some({})
  }

  function ChildFiltersOf(sinks: map<SubscriberId, Sink>, id: SubscriberId): ChildFilters
  {
    if id in sinks then sinks[id].childFilters else None
  }

  datatype Hub = Hub(top: Registry, children: map<Key, Registry>, sinks: map<SubscriberId, Sink>) {
    /** The index lists exactly what the live subscriptions' filters say. */
    ghost predicate Mirrors()
    {
      && Tight(top) && (forall c :: Tight(RegistryOf(children, c)))
      && forall id :: Subscribed(top, id, TopFilter(sinks, id)) && ChildSubscribed(children, id, ChildFiltersOf(sinks, id))
    }

    function Listened(id: SubscriberId, keys: Option<seq<Key>>, childKeys: Option<ChildKeys>): Hub
    {
      Hub(Register(top, id, FilterOf(keys)),
          if childKeys.None? then children else RegisterChildren(children, id, childKeys.value),
          sinks[id := Sink(true, [], FilterOf(keys), if childKeys.None? then None else Some(LastFilters(childKeys.value)))])
    }

    function Removed(id: SubscriberId): Hub
    {
      if id !in sinks then this
      else
        var sink := sinks[id];
        Hub(Unregister(top, id, sink.filter),
            if sink.childFilters.None? then children else UnregisterChildren(children, id, sink.childFilters.value),
            sinks - {id})
    }

    lemma RemovedKeeps(id: SubscriberId)
      requires Mirrors()
      ensures Removed(id).Mirrors()
    {
      if id in sinks {
        var h, sink := Removed(id), sinks[id];
        UnregisterEffect(top, id, sink.filter);
        forall j ensures Subscribed(h.top, j, TopFilter(h.sinks, j)) {
          assert Subscribed(top, j, TopFilter(sinks, j));
        }
        forall c ensures Tight(RegistryOf(h.children, c))
          ensures forall j :: Subscribed(RegistryOf(h.children, c), j, FilterAt(ChildFiltersOf(h.sinks, j), c))
        {
          RemovedKeepsChild(id, c);
        }
      }
    }

    lemma RemovedKeepsChild(id: SubscriberId, c: Key)
      requires Mirrors() && id in sinks
      ensures Tight(RegistryOf(Removed(id).children, c))
      ensures forall j :: Subscribed(RegistryOf(Removed(id).children, c), j, FilterAt(ChildFiltersOf(Removed(id).sinks, j), c))
    {
      var filters := sinks[id].childFilters;
      if filters.Some? {
        UnregisterChildrenEffect(children, id, filters.value, c);
        if c in filters.value {
          UnregisterEffect(RegistryOf(children, c), id, filters.value[c]);
        }
      }
      forall j ensures Subscribed(RegistryOf(Removed(id).children, c), j, FilterAt(ChildFiltersOf(Removed(id).sinks, j), c)) {
        assert ChildSubscribed(children, j, ChildFiltersOf(sinks, j));
        assert Subscribed(RegistryOf(children, c), j, FilterAt(ChildFiltersOf(sinks, j), c));
      }
    }

    lemma Stranger(id: SubscriberId, c: Key)
      requires Mirrors() && id !in sinks
      ensures Unsubscribed(RegistryOf(children, c), id)
    {
      assert ChildSubscribed(children, id, ChildFiltersOf(sinks, id));
      assert FilterAt(None, c) == Some({});
    }

    /** What listening leaves in one child registry. */
    lemma ListenedChild(id: SubscriberId, list: ChildKeys, c: Key)
      requires Mirrors() && id !in sinks
      ensures var reg := RegistryOf(RegisterChildren(children, id, list), c);
              && Tight(reg)
              && (forall j :: j != id ==> Subscribed(reg, j, FilterAt(ChildFiltersOf(sinks, j), c)))
              && (Subscribed(reg, id, FilterAt(Some(LastFilters(list)), c)) <==> Agrees(list, c))
    {
      RegisterChildrenEffect(children, id, list, c);
      forall j ensures Subscribed(RegistryOf(children, c), j, FilterAt(ChildFiltersOf(sinks, j), c)) {
        assert ChildSubscribed(children, j, ChildFiltersOf(sinks, j));
      }
      Stranger(id, c);
      var reg := RegistryOf(RegisterChildren(children, id, list), c);
      assert forall k :: Has(reg, id, k) <==> KeyAt(list, c, k);
      assert id in reg.wildcards <==> WildAt(list, c);
    }

    lemma ListenedTop(id: SubscriberId, f: Filter, j: SubscriberId)
      requires Mirrors() && id !in sinks
      ensures Tight(Register(top, id, f))
      ensures Subscribed(Register(top, id, f), j, if j == id then f else TopFilter(sinks, j))
    {
      RegisterEffect(top, id, f);
      assert Subscribed(top, j, TopFilter(sinks, j));
    }

    /** A new subscription keeps the index exact if and only if its child entries are covered
        by the filters that are stored. */
    lemma ListenedIff(id: SubscriberId, keys: Option<seq<Key>>, childKeys: Option<ChildKeys>)
      requires Mirrors() && id !in sinks
      ensures Listened(id, keys, childKeys).Mirrors() <==> childKeys.None? || Covered(childKeys.value)
    {
      var h := Listened(id, keys, childKeys);
      forall j ensures Subscribed(h.top, j, TopFilter(h.sinks, j)) && Tight(h.top) {
        ListenedTop(id, FilterOf(keys), j);
      }
      if childKeys.Some? {
        var list := childKeys.value;
        CoveredIff(list);
        forall c
          ensures Tight(RegistryOf(h.children, c))
          ensures forall j :: j != id ==> Subscribed(RegistryOf(h.children, c), j, FilterAt(ChildFiltersOf(h.sinks, j), c))
          ensures Subscribed(RegistryOf(h.children, c), id, FilterAt(ChildFiltersOf(h.sinks, id), c)) <==> Agrees(list, c)
        {
          ListenedChild(id, list, c);
          forall j | j != id ensures ChildFiltersOf(h.sinks, j) == ChildFiltersOf(sinks, j) {
          }
        }
        assert ChildSubscribed(h.children, id, ChildFiltersOf(h.sinks, id)) <==> Covered(list);
      } else {
        forall j ensures ChildSubscribed(h.children, j, ChildFiltersOf(h.sinks, j)) {
          assert ChildSubscribed(children, j, ChildFiltersOf(sinks, j));
        }
      }
    }

    /** Closing a subscription removes every trace of it if and only if its child entries were
        covered; otherwise the index keeps an identifier that has no sink. */
    lemma ListenThenRemoveIff(id: SubscriberId, keys: Option<seq<Key>>, list: ChildKeys)
      requires Mirrors() && id !in sinks
      ensures ChildSubscribed(Listened(id, keys, Some(list)).Removed(id).children, id, None) <==> Covered(list)
    {
      var regs, filters := RegisterChildren(children, id, list), LastFilters(list);
      CoveredIff(list);
      forall c
        ensures Subscribed(RegistryOf(UnregisterChildren(regs, id, filters), c), id, Some({})) <==> Agrees(list, c)
      {
        Stranger(id, c);
        RegisterChildrenEffect(children, id, list, c);
        UnregisterChildrenEffect(regs, id, filters, c);
        LastFilterIsTheLastEntry(list, c);
        if c in filters {
          UnregisterEffect(RegistryOf(regs, c), id, filters[c]);
        }
        var reg := RegistryOf(regs, c);
        assert forall k :: Has(reg, id, k) <==> KeyAt(list, c, k);
      }
    }
  }

  /** Two entries for one child trie: after the subscription is closed, the first entry's key
      still leads to an identifier without a sink. */
  lemma RepeatedChildKeyGoesStale(h: Hub, id: SubscriberId, c: Key, a: Key, b: Key)
    requires h.Mirrors() && id !in h.sinks && a != b
    ensures var removed := h.Listened(id, None, Some([(c, Some([a])), (c, Some([b]))])).Removed(id);
            id !in removed.sinks && Has(RegistryOf(removed.children, c), id, a)
  {
    var list: ChildKeys := [(c, Some([a])), (c, Some([b]))];
    var regs := RegisterChildren(h.children, id, list);
    RegisterChildrenEffect(h.children, id, list, c);
    assert list[0].0 == c && a in list[0].1.value;
    assert KeyAt(list, c, a);
    assert list[..1] == [(c, Some([a]))];
    assert LastFilters(list)[c] == FilterOf(Some([b]));
    UnregisterChildrenEffect(regs, id, LastFilters(list), c);
    UnregisterEffect(RegistryOf(regs, c), id, FilterOf(Some([b])));
  }

  /** The subscriber asked for one of the changes. */
  ghost predicate AsksForOne(sink: Sink, changes: seq<Change>, childChanges: seq<ChildChanges>)
  {
    exists p :: IsPlace(changes, childChanges, p) && Asked(sink.filter, sink.childFilters, ItemAt(changes, childChanges, p))
  }

  lemma WantedIff(sink: Sink, changes: seq<Change>, childChanges: seq<ChildChanges>)
    ensures ReadsExactly(sink.Wanted(changes, childChanges), sink.filter, sink.childFilters, changes, childChanges)
    ensures sink.Wanted(changes, childChanges) != [] <==> AsksForOne(sink, changes, childChanges)
  {
    var items := sink.Wanted(changes, childChanges);
    IterReadsExactly(ChangeSet(changes, childChanges, sink.filter, sink.childFilters));
    var at :| ReadAt(items, at, sink.filter, sink.childFilters, changes, childChanges);
    if items != [] {
      assert IsPlace(changes, childChanges, at[0]);
      assert Asked(sink.filter, sink.childFilters, ItemAt(changes, childChanges, at[0]));
    }
  }

  /** Who gets an event: those who asked for one of the changes, and the subscribers to all
      top-level keys as soon as anybody asked for one. */
  ghost predicate Notified(sinks: map<SubscriberId, Sink>, id: SubscriberId, changes: seq<Change>, childChanges: seq<ChildChanges>)
  {
    && id in sinks
    && (|| AsksForOne(sinks[id], changes, childChanges)
        || (sinks[id].filter.None? && exists j :: j in sinks && AsksForOne(sinks[j], changes, childChanges)))
  }

  lemma {:induction false} SelectNoChildren(changes: seq<ChildChanges>)
    ensures SelectChildren(None, changes) == []
  {
    if changes != [] {
      SelectNoChildren(changes[1..]);
    }
  }

  /** One subscriber's part of the collection. */
  lemma CollectedFor(h: Hub, id: SubscriberId, changes: seq<Change>, childChanges: seq<ChildChanges>)
    requires h.Mirrors()
    ensures id in Hit(h.top, changes) + HitChildren(h.children, childChanges) <==>
            id in h.sinks && h.sinks[id].Wanted(changes, childChanges) != []
    ensures id in h.sinks ==>
              h.sinks[id].Wanted(Pushed(h.top, changes), PushedChildren(h.children, childChanges)) ==
              h.sinks[id].Wanted(changes, childChanges)
  {
    assert Subscribed(h.top, id, TopFilter(h.sinks, id)) && ChildSubscribed(h.children, id, ChildFiltersOf(h.sinks, id));
    SelectPushed(h.top, id, TopFilter(h.sinks, id), None, changes);
    SelectPushedChildren(h.children, id, ChildFiltersOf(h.sinks, id), childChanges);
    SelectNothing(None, changes);
    SelectNoChildren(childChanges);
  }

  lemma AnybodyHit(h: Hub, changes: seq<Change>, childChanges: seq<ChildChanges>)
    requires h.Mirrors()
    ensures Pushed(h.top, changes) != [] || PushedChildren(h.children, childChanges) != [] <==>
            exists j :: j in h.sinks && h.sinks[j].Wanted(changes, childChanges) != []
  {
    PushedIffHit(h.top, changes);
    forall c | c in h.children ensures Tight(h.children[c]) {
      assert Tight(RegistryOf(h.children, c));
    }
    PushedChildrenIffHit(h.children, childChanges);
    var hit := Hit(h.top, changes) + HitChildren(h.children, childChanges);
    forall id ensures id in hit <==> id in h.sinks && h.sinks[id].Wanted(changes, childChanges) != [] {
      CollectedFor(h, id, changes, childChanges);
    }
    if hit != {} {
      var j :| j in hit;
      assert j in h.sinks;
    }
  }

  /** The collected subscribers are exactly those to notify, and nothing is collected exactly
      when nobody asked for anything. */
  lemma CollectExact(h: Hub, id: SubscriberId, changes: seq<Change>, childChanges: seq<ChildChanges>)
    requires h.Mirrors()
    ensures Notified(h.sinks, id, changes, childChanges) <==>
            && (Pushed(h.top, changes) != [] || PushedChildren(h.children, childChanges) != [])
            && id in h.top.wildcards + Hit(h.top, changes) + HitChildren(h.children, childChanges)
  {
    AnybodyHit(h, changes, childChanges);
    CollectedFor(h, id, changes, childChanges);
    assert Subscribed(h.top, id, TopFilter(h.sinks, id));
    forall j | j in h.sinks
      ensures h.sinks[j].Wanted(changes, childChanges) != [] <==> AsksForOne(h.sinks[j], changes, childChanges)
    {
      WantedIff(h.sinks[j], changes, childChanges);
    }
  }

  // The operations

  lemma {:induction false} PushedSnoc(reg: Registry, changes: seq<Change>, last: Change)
    ensures Pushed(reg, changes + [last]) ==
            Pushed(reg, changes) + if reg.wildcards != {} || last.0 in reg.listeners then [last] else []
    ensures Hit(reg, changes + [last]) == Hit(reg, changes) + ListenersOf(reg, last.0) + reg.wildcards
  {
    if changes == [] {
      assert changes + [last] == [last];
    } else {
      assert (changes + [last])[1..] == changes[1..] + [last];
      PushedSnoc(reg, changes[1..], last);
    }
  }

  method CollectTop(reg: Registry, changes: seq<Change>) returns (pushed: seq<Change>, subscribers: set<SubscriberId>)
    ensures pushed == Pushed(reg, changes) && subscribers == reg.wildcards + Hit(reg, changes)
  {
    pushed, subscribers := [], reg.wildcards;
    for i := 0 to |changes|
      invariant pushed == Pushed(reg, changes[..i]) && subscribers == reg.wildcards + Hit(reg, changes[..i])
    {
      var (k, v) := changes[i];
      assert changes[..i + 1] == changes[..i] + [changes[i]];
      PushedSnoc(reg, changes[..i], changes[i]);
      if k in reg.listeners {
        subscribers := subscribers + reg.listeners[k];
      }
      if reg.wildcards != {} || k in reg.listeners {
        pushed := pushed + [(k, v)];
      }
    }
    assert changes[..|changes|] == changes;
  }

  method CollectChild(reg: Registry, changes: seq<Change>) returns (pushed: seq<Change>, subscribers: set<SubscriberId>)
    ensures pushed == Pushed(reg, changes) && subscribers == Hit(reg, changes)
  {
    pushed, subscribers := [], {};
    for i := 0 to |changes|
      invariant pushed == Pushed(reg, changes[..i]) && subscribers == Hit(reg, changes[..i])
    {
      var (k, v) := changes[i];
      assert changes[..i + 1] == changes[..i] + [changes[i]];
      PushedSnoc(reg, changes[..i], changes[i]);
      if k in reg.listeners {
        subscribers := subscribers + reg.listeners[k];
      }
      subscribers := subscribers + reg.wildcards;
      if reg.wildcards != {} || k in reg.listeners {
        pushed := pushed + [(k, v)];
      }
    }
    assert changes[..|changes|] == changes;
  }

  lemma {:induction false} NothingInEmpty(changes: seq<Change>)
    ensures Pushed(EMPTY, changes) == [] && Hit(EMPTY, changes) == {}
  {
    if changes != [] {
      NothingInEmpty(changes[1..]);
    }
  }

  lemma {:induction false} NoChildrenInEmpty(changes: seq<ChildChanges>)
    ensures PushedChildren(map[], changes) == [] && HitChildren(map[], changes) == {}
  {
    if changes != [] {
      NoChildrenInEmpty(changes[1..]);
      NothingInEmpty(changes[0].1);
    }
  }

  lemma {:induction false} CollectSnoc(regs: map<Key, Registry>, changes: seq<ChildChanges>, last: ChildChanges)
    ensures var p := Pushed(RegistryOf(regs, last.0), last.1);
            PushedChildren(regs, changes + [last]) == PushedChildren(regs, changes) + if p != [] then [(last.0, p)] else []
    ensures HitChildren(regs, changes + [last]) == HitChildren(regs, changes) + Hit(RegistryOf(regs, last.0), last.1)
  {
    if changes == [] {
      assert changes + [last] == [last];
    } else {
      assert (changes + [last])[1..] == changes[1..] + [last];
      CollectSnoc(regs, changes[1..], last);
    }
  }

  method CollectChildren(regs: map<Key, Registry>, changes: seq<ChildChanges>)
    returns (pushed: seq<ChildChanges>, subscribers: set<SubscriberId>)
    ensures pushed == PushedChildren(regs, changes) && subscribers == HitChildren(regs, changes)
  {
    pushed, subscribers := [], {};
    for i := 0 to |changes|
      invariant pushed == PushedChildren(regs, changes[..i]) && subscribers == HitChildren(regs, changes[..i])
    {
      var (sk, inner) := changes[i];
      assert changes[..i + 1] == changes[..i] + [changes[i]];
      CollectSnoc(regs, changes[..i], changes[i]);
      NothingInEmpty(inner);
      if sk in regs {
        var p, hit := CollectChild(regs[sk], inner);
        subscribers := subscribers + hit;
        if p != [] {
          pushed := pushed + [(sk, p)];
        }
      }
    }
    assert changes[..|changes|] == changes;
  }

  class StorageNotifications {
    var nextId: SubscriberId
    var wildcardListeners: set<SubscriberId>
    var listeners: map<Key, set<SubscriberId>>
    var childListeners: map<Key, Registry>
    var sinks: map<SubscriberId, Sink>

    ghost function View(): Hub
      reads this
    {
      Hub(Registry(listeners, wildcardListeners), childListeners, sinks)
    }

    ghost predicate Valid()
      reads this
    {
      View().Mirrors() && forall id :: id in sinks ==> id <= nextId
    }

    constructor ()
      ensures Valid() && View() == Hub(EMPTY, map[], map[])
    {
      nextId, wildcardListeners, listeners, childListeners, sinks := 0, {}, map[], map[], map[];
    }

    /** Starts a subscription under a fresh identifier. */
    method Listen(filterKeys: Option<seq<Key>>, filterChildKeys: Option<ChildKeys>) returns (id: SubscriberId)
      requires Valid()
      modifies this
      ensures id !in old(sinks) && nextId == old(nextId) + 1
      ensures View() == old(View()).Listened(id, filterKeys, filterChildKeys)
      ensures sinks.Keys == old(sinks).Keys + {id} && forall j :: j in old(sinks) ==> sinks[j] == old(sinks)[j]
      ensures sinks[id].open && sinks[id].queue == [] && (sinks[id].filter.None? <==> filterKeys.None?)
      ensures filterKeys.Some? ==> forall k :: k in sinks[id].filter.value <==> k in filterKeys.value
      ensures Valid() <==> filterChildKeys.None? || Covered(filterChildKeys.value)
    {
      nextId := nextId + 1;
      id := nextId;
      View().ListenedIff(id, filterKeys, filterChildKeys);
      var top, keys := ListenFrom(Registry(listeners, wildcardListeners), id, filterKeys);
      listeners, wildcardListeners := top.listeners, top.wildcards;
      var childKeys: ChildFilters := None;
      if filterChildKeys.Some? {
        var regs, filters := ListenFromChildren(childListeners, id, filterChildKeys.value);
        childListeners, childKeys := regs, Some(filters);
      }
      sinks := sinks[id := Sink(true, [], keys, childKeys)];
    }

    static method ListenFromChildren(regs: map<Key, Registry>, id: SubscriberId, list: ChildKeys)
      returns (regs': map<Key, Registry>, filters: map<Key, Filter>)
      ensures regs' == RegisterChildren(regs, id, list) && filters == LastFilters(list)
    {
      regs', filters := regs, map[];
      for i := 0 to |list|
        invariant regs' == RegisterChildren(regs, id, list[..i]) && filters == LastFilters(list[..i])
      {
        var (c, keys) := list[i];
        assert list[..i + 1][..i] == list[..i];
        var reg, filter := ListenFrom(RegistryOf(regs', c), id, keys);
        regs', filters := regs'[c := reg], filters[c := filter];
      }
      assert list[..|list|] == list;
    }

    /** The receiver's end is dropped. */
    method Close(id: SubscriberId)
      requires Valid() && id in sinks
      modifies this
      ensures Valid() && sinks == old(sinks)[id := old(sinks)[id].(open := false)]
    {
      SinkUpdateKeeps(View(), id, sinks[id].(open := false));
      sinks := sinks[id := sinks[id].(open := false)];
    }

    method RemoveSubscriber(id: SubscriberId)
      requires Valid()
      modifies this
      ensures Valid() && sinks == old(sinks) - {id} && nextId == old(nextId)
      ensures View() == old(View()).Removed(id)
    {
      View().RemovedKeeps(id);
      if id in sinks {
        var sink := sinks[id];
        sinks := sinks - {id};
        var top := RemoveSubscriberFrom(Registry(listeners, wildcardListeners), id, sink.filter);
        listeners, wildcardListeners := top.listeners, top.wildcards;
        if sink.childFilters.Some? {
          childListeners := RemoveFromChildren(childListeners, id, sink.childFilters.value);
        }
      }
    }

    static method RemoveFromChildren(regs: map<Key, Registry>, id: SubscriberId, filters: map<Key, Filter>)
      returns (regs': map<Key, Registry>)
      ensures regs' == UnregisterChildren(regs, id, filters)
    {
      regs' := regs;
      var done: map<Key, Filter> := map[];
      while done.Keys != filters.Keys
        invariant done.Keys <= filters.Keys && (forall c :: c in done ==> done[c] == filters[c])
        invariant regs' == UnregisterChildren(regs, id, done)
        decreases filters.Keys - done.Keys
      {
        var c: Key :| c in filters && c !in done;
        if c in regs' {
          var reg := RemoveSubscriberFrom(regs'[c], id, filters[c]);
          regs' := if reg.listeners == map[] && reg.wildcards == {} then regs' - {c} else regs'[c := reg];
        }
        ghost var left := filters.Keys - done.Keys;
        done := done[c := filters[c]];
        assert filters.Keys - done.Keys == left - {c};
      }
      assert done == filters;
    }

    /** Sends the changes of block `hash` to everybody who listens to one of them. */
    method Trigger(hash: Hash, changes: seq<Change>, childChanges: seq<ChildChanges>)
      requires Valid()
      modifies this
      ensures Valid() && nextId == old(nextId)
      ensures forall id :: id in sinks ==> id in old(sinks)
      ensures forall id :: id in old(sinks) ==>
                Outcome(old(sinks)[id], if id in sinks then Some(sinks[id]) else None, hash, changes, childChanges,
                        Notified(old(sinks), id, changes, childChanges))
    {
      ghost var hub := View();
      forall id ensures Notified(sinks, id, changes, childChanges) <==>
                        && (Pushed(hub.top, changes) != [] || PushedChildren(hub.children, childChanges) != [])
                        && id in hub.top.wildcards + Hit(hub.top, changes) + HitChildren(hub.children, childChanges)
      {
        CollectExact(hub, id, changes, childChanges);
      }
      if wildcardListeners == {} && listeners == map[] && childListeners == map[] {
        NothingInEmpty(changes);
        NoChildrenInEmpty(childChanges);
        return;
      }
      var pushed, subscribers := CollectTop(Registry(listeners, wildcardListeners), changes);
      var pushedChildren, childSubscribers := CollectChildren(childListeners, childChanges);
      if pushed == [] && pushedChildren == [] {
        return;
      }
      SendAll(subscribers + childSubscribers, hash, pushed, pushedChildren);
      forall id | id in old(sinks)
        ensures Outcome(old(sinks)[id], if id in sinks then Some(sinks[id]) else None, hash, changes, childChanges,
                        Notified(old(sinks), id, changes, childChanges))
      {
        CollectedFor(hub, id, changes, childChanges);
        SentIsOutcome(old(sinks)[id], if id in sinks then Some(sinks[id]) else None, hash, pushed, pushedChildren,
                      changes, childChanges, id in subscribers + childSubscribers);
      }
    }

    /** Sends one change set to each subscriber; a dropped receiver ends the subscription. */
    method SendAll(subscribers: set<SubscriberId>, hash: Hash, changes: seq<Change>, childChanges: seq<ChildChanges>)
      requires Valid() && forall id :: id in subscribers ==> id in sinks
      modifies this
      ensures Valid() && nextId == old(nextId)
      ensures forall id :: id in sinks ==> id in old(sinks)
      ensures forall id :: id in old(sinks) ==>
                Sent(old(sinks)[id], if id in sinks then Some(sinks[id]) else None, hash, changes, childChanges, id in subscribers)
    {
      var done: set<SubscriberId> := {};
      while done != subscribers
        invariant done <= subscribers
        invariant Valid() && nextId == old(nextId)
        invariant forall id :: id in sinks ==> id in old(sinks)
        invariant forall id :: id in old(sinks) ==>
                    Sent(old(sinks)[id], if id in sinks then Some(sinks[id]) else None, hash, changes, childChanges, id in done)
        decreases subscribers - done
      {
        var id :| id in subscribers && id !in done;
        var sink := sinks[id];
        if sink.open {
          var sent := sink.(queue := sink.queue + [(hash, ChangeSet(changes, childChanges, sink.filter, sink.childFilters))]);
          SinkUpdateKeeps(View(), id, sent);
          sinks := sinks[id := sent];
        } else {
          RemoveSubscriber(id);
        }
        done := done + {id};
      }
    }
  }

  /** A sink after sending: a live one has one more message, a dead one is gone. */
  predicate Sent(before: Sink, after: Option<Sink>, hash: Hash, changes: seq<Change>, childChanges: seq<ChildChanges>, toIt: bool)
  {
    if !toIt then after == Some(before)
    else if !before.open then after == None
    else after == Some(before.(queue := before.queue + [(hash, ChangeSet(changes, childChanges, before.filter, before.childFilters))]))
  }

  /** A sink after a trigger, in terms of the block's own changes: what the subscriber reads
      off the message is exactly what it asked for. */
  ghost predicate Outcome(before: Sink, after: Option<Sink>, hash: Hash, changes: seq<Change>, childChanges: seq<ChildChanges>, notified: bool)
  {
    if !notified then after == Some(before)
    else if !before.open then after == None
    else
      && after.Some? && |after.value.queue| == |before.queue| + 1
      && after.value == before.(queue := after.value.queue)
      && after.value.queue[..|before.queue|] == before.queue
      && after.value.queue[|before.queue|].0 == hash
      && ReadsExactly(after.value.queue[|before.queue|].1.Iter(), before.filter, before.childFilters, changes, childChanges)
  }

  lemma SentIsOutcome(before: Sink, after: Option<Sink>, hash: Hash, pushed: seq<Change>, pushedChildren: seq<ChildChanges>,
                      changes: seq<Change>, childChanges: seq<ChildChanges>, toIt: bool)
    requires Sent(before, after, hash, pushed, pushedChildren, toIt)
    requires before.Wanted(pushed, pushedChildren) == before.Wanted(changes, childChanges)
    ensures Outcome(before, after, hash, changes, childChanges, toIt)
  {
    WantedIff(before, changes, childChanges);
  }

  lemma SinkUpdateKeeps(h: Hub, id: SubscriberId, sink: Sink)
    requires h.Mirrors() && id in h.sinks
    requires sink.filter == h.sinks[id].filter && sink.childFilters == h.sinks[id].childFilters
    ensures h.(sinks := h.sinks[id := sink]).Mirrors()
  {
    var sinks := h.sinks[id := sink];
    forall j ensures Subscribed(h.top, j, TopFilter(sinks, j)) && ChildSubscribed(h.children, j, ChildFiltersOf(sinks, j)) {
      assert Subscribed(h.top, j, TopFilter(h.sinks, j)) && ChildSubscribed(h.children, j, ChildFiltersOf(h.sinks, j));
    }
  }
}
