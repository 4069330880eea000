/**
 * The response cache of cache.go: a fixed-capacity LRU built from a recency
 * list (front = most recently used) and an index from keys to list elements.
 * List elements have an identity in Go; here each carries a fresh `id`, and
 * the index maps a key to the id of its element.
 */
module LruCache {
  import opened Errors

  datatype Entry = Entry(id: nat, key: string, value: string)

  /** The cache's fields: the recency list, the index, and the next fresh element id. */
  datatype State = State(evictList: seq<Entry>, items: map<string, nat>, nextId: nat)

  const Empty: State := State([], map[], 0)

  /** The position of the element with identity `id`, or -1. */
  function Find(l: seq<Entry>, id: nat): (i: int)
    ensures -1 <= i < |l|
    ensures 0 <= i ==> l[i].id == id
    ensures i == -1 ==> forall j :: 0 <= j < |l| ==> l[j].id != id
  {
    if l == [] then -1
    else if l[0].id == id then 0
    else
      var r := Find(l[1..], id);
      if r == -1 then -1 else r + 1
  }

  ghost predicate DistinctIds(l: seq<Entry>)
  {
    forall i, j :: 0 <= i < j < |l| ==> l[i].id != l[j].id
  }

  lemma {:induction false} FindAt(l: seq<Entry>, p: int)
    requires DistinctIds(l) && 0 <= p < |l|
    ensures Find(l, l[p].id) == p
  {
    if p > 0 {
      assert l[1..][p - 1] == l[p];
      FindAt(l[1..], p - 1);
    }
  }

  /**
   * The index only points at live elements, and at elements with that key;
   * element identities are distinct and older than the next fresh one.
   */
  ghost predicate Linked(s: State)
  {
    && DistinctIds(s.evictList)
    && (forall i :: 0 <= i < |s.evictList| ==> s.evictList[i].id < s.nextId)
    && (forall k :: k in s.items ==>
          0 <= Find(s.evictList, s.items[k]) && s.evictList[Find(s.evictList, s.items[k])].key == k)
  }

  /** The cache invariant: linked, and no more elements than the capacity. */
  ghost predicate Valid(s: State, size: int)
  {
    Linked(s) && 0 < size && |s.evictList| <= size
  }

  /** Every element is the one its key's index entry points at (one element per key). */
  ghost predicate Clean(s: State)
  {
    Linked(s) && Indexed(s.evictList, s.items)
  }

  /** Every element of `l` is the one `items` indexes under its key. */
  ghost predicate Indexed(l: seq<Entry>, items: map<string, nat>)
  {
    forall i :: 0 <= i < |l| ==> l[i].key in items && items[l[i].key] == l[i].id
  }

  /**
   * MoveToFront of the element at position i, with its value then set to
   * `value` (Get keeps the value, Add sets it).
   */
  function Promote(l: seq<Entry>, i: int, value: string): (m: seq<Entry>)
    requires 0 <= i < |l|
    ensures |m| == |l| && m[0] == l[i].(value := value)
    ensures forall j :: 1 <= j <= i ==> m[j] == l[j - 1]
    ensures forall j :: i < j < |l| ==> m[j] == l[j]
  {
    [l[i].(value := value)] + l[..i] + l[i + 1..]
  }

  /** Where the element at position p ends up after MoveToFront(l, i). */
  function MovedTo(i: int, p: int): int
  {
    if p == i then 0 else if p < i then p + 1 else p
  }

  /** What Get returns: the value of the key's element, or "" for a missing key. */
  function Lookup(s: State, key: string): string
    requires Linked(s)
  {
    if key in s.items then s.evictList[Find(s.evictList, s.items[key])].value else ""
  }

  /** What Get does to the state: the key's element moves to the front. */
  function Touch(s: State, key: string): State
    requires Linked(s)
  {
    if key in s.items then
      var p := Find(s.evictList, s.items[key]);
      s.(evictList := Promote(s.evictList, p, s.evictList[p].value))
    else s
  }

  /** The list without its element at position i. */
  function Without(l: seq<Entry>, i: int): (m: seq<Entry>)
    requires 0 <= i < |l|
    ensures |m| == |l| - 1
    ensures forall j :: 0 <= j < i ==> m[j] == l[j]
    ensures forall j :: i <= j < |m| ==> m[j] == l[j + 1]
  {
    l[..i] + l[i + 1..]
  }

  /** What removeElement does to the element at position i: unlink it, and drop its key from the index. */
  function RemovedAt(s: State, i: int): State
    requires 0 <= i < |s.evictList|
  {
    s.(evictList := Without(s.evictList, i), items := s.items - {s.evictList[i].key})
  }

  /** What removeOldest does: remove the back element, if any. */
  function OldestRemoved(s: State): State
  {
    if s.evictList == [] then s else RemovedAt(s, |s.evictList| - 1)
  }

  /** A fresh element for (key, value) at the front, indexed under key, then evict past capacity. */
  function Pushed(s: State, size: int, key: string, value: string): State
  {
    var pushed := State([Entry(s.nextId, key, value)] + s.evictList, s.items[key := s.nextId], s.nextId + 1);
    if |pushed.evictList| > size then OldestRemoved(pushed) else pushed
  }

  /**
   * Add as written: an existing key's element is moved to the front and
   * updated, and then a second element for the key is pushed in front of it.
   */
  function AddStep(s: State, size: int, key: string, value: string): State
    requires Linked(s)
  {
    var moved :=
      if key in s.items then Promote(s.evictList, Find(s.evictList, s.items[key]), value)
      else s.evictList;
    Pushed(s.(evictList := moved), size, key, value)
  }

  /** Add without the second push: an existing key's element is moved to the front and updated. */
  function AddCorrectedStep(s: State, size: int, key: string, value: string): State
    requires Linked(s)
  {
    if key in s.items then s.(evictList := Promote(s.evictList, Find(s.evictList, s.items[key]), value))
    else Pushed(s, size, key, value)
  }

  // Invariant preservation, step by step.

  lemma PromoteDistinct(l: seq<Entry>, i: int, value: string, bound: nat)
    requires DistinctIds(l) && 0 <= i < |l|
    requires forall j :: 0 <= j < |l| ==> l[j].id < bound
    ensures DistinctIds(Promote(l, i, value))
    ensures forall j :: 0 <= j < |l| ==> Promote(l, i, value)[j].id < bound
  {
    var m := Promote(l, i, value);
    forall a, b | 0 <= a < b < |m| ensures m[a].id != m[b].id {
      assert m[a].id == l[Unmoved(i, a)].id && m[b].id == l[Unmoved(i, b)].id;
    }
    forall j | 0 <= j < |l| ensures m[j].id < bound {
      assert m[j].id == l[Unmoved(i, j)].id;
    }
  }

  lemma PromoteFind(l: seq<Entry>, i: int, value: string, p: int)
    requires 0 <= i < |l| && 0 <= p < |l| && DistinctIds(l) && DistinctIds(Promote(l, i, value))
    ensures Find(Promote(l, i, value), l[p].id) == MovedTo(i, p)
    ensures Promote(l, i, value)[MovedTo(i, p)].key == l[p].key
  {
    var m := Promote(l, i, value);
    assert m[MovedTo(i, p)].id == l[p].id;
    FindAt(m, MovedTo(i, p));
  }

  lemma MoveKeepsLinked(s: State, i: int, value: string)
    requires Linked(s) && 0 <= i < |s.evictList|
    ensures Linked(s.(evictList := Promote(s.evictList, i, value)))
  {
    var l := s.evictList;
    var m := Promote(l, i, value);
    PromoteDistinct(l, i, value, s.nextId);
    forall k | k in s.items
      ensures 0 <= Find(m, s.items[k]) && m[Find(m, s.items[k])].key == k
    {
      PromoteFind(l, i, value, Find(l, s.items[k]));
    }
  }

  /** The position before Promote(l, i, _) of the element now at position q. */
  function Unmoved(i: int, q: int): int
  {
    if q == 0 then i else if q <= i then q - 1 else q
  }

  lemma PushKeepsLinked(s: State, key: string, value: string)
    requires Linked(s)
    ensures Linked(State([Entry(s.nextId, key, value)] + s.evictList, s.items[key := s.nextId], s.nextId + 1))
  {
    var l := s.evictList;
    var l' := [Entry(s.nextId, key, value)] + l;
    var items' := s.items[key := s.nextId];
    assert DistinctIds(l') by {
      forall a, b | 0 <= a < b < |l'| ensures l'[a].id != l'[b].id {
        assert l'[b] == l[b - 1];
        if a > 0 { assert l'[a] == l[a - 1]; }
      }
    }
    forall k | k in items'
      ensures 0 <= Find(l', items'[k]) && l'[Find(l', items'[k])].key == k
    {
      if k == key {
        FindAt(l', 0);
      } else {
        var p := Find(l, s.items[k]);
        assert l'[p + 1] == l[p];
        FindAt(l', p + 1);
      }
    }
  }

  lemma RemoveDistinct(l: seq<Entry>, i: int)
    requires DistinctIds(l) && 0 <= i < |l|
    ensures DistinctIds(Without(l, i))
  {
    var l' := Without(l, i);
    forall a, b | 0 <= a < b < |l'| ensures l'[a].id != l'[b].id {
      assert l'[a] == l[if a < i then a else a + 1];
      assert l'[b] == l[if b < i then b else b + 1];
    }
  }

  lemma RemoveKeepsLinked(s: State, i: int)
    requires Linked(s) && 0 <= i < |s.evictList|
    ensures Linked(RemovedAt(s, i))
  {
    var l := s.evictList;
    var r := RemovedAt(s, i);
    var l' := r.evictList;
    RemoveDistinct(l, i);
    forall k | k in r.items
      ensures 0 <= Find(l', r.items[k]) && l'[Find(l', r.items[k])].key == k
    {
      var p := Find(l, s.items[k]);
      var q := if p < i then p else p - 1;
      assert l'[q] == l[p];
      FindAt(l', q);
    }
  }

  lemma RemoveOldestKeepsLinked(s: State)
    requires Linked(s)
    ensures Linked(OldestRemoved(s))
    ensures |OldestRemoved(s).evictList| == if s.evictList == [] then 0 else |s.evictList| - 1
  {
    if s.evictList != [] {
      RemoveKeepsLinked(s, |s.evictList| - 1);
    }
  }

  lemma PushedKeepsValid(s: State, size: int, key: string, value: string)
    requires Linked(s) && 0 < size && |s.evictList| <= size
    ensures Valid(Pushed(s, size, key, value), size)
  {
    PushKeepsLinked(s, key, value);
    RemoveOldestKeepsLinked(State([Entry(s.nextId, key, value)] + s.evictList, s.items[key := s.nextId], s.nextId + 1));
  }

  /** Add keeps the cache within its capacity, and its index pointing at live elements. */
  lemma {:induction false} AddKeepsValid(s: State, size: int, key: string, value: string)
    requires Valid(s, size)
    ensures Valid(AddStep(s, size, key, value), size)
  {
    if key in s.items {
      var i := Find(s.evictList, s.items[key]);
      MoveKeepsLinked(s, i, value);
      PushedKeepsValid(s.(evictList := Promote(s.evictList, i, value)), size, key, value);
    } else {
      PushedKeepsValid(s, size, key, value);
    }
  }

  /** Get changes no value, moves the key's element to the front, and keeps the invariant. */
  lemma {:induction false} TouchKeepsValues(s: State, size: int, key: string)
    requires Valid(s, size)
    ensures Valid(Touch(s, key), size)
    ensures forall k :: Lookup(Touch(s, key), k) == Lookup(s, k)
    ensures key in s.items ==> Touch(s, key).evictList[0].key == key
    ensures |Touch(s, key).evictList| == |s.evictList|
    ensures key !in s.items ==> Touch(s, key) == s
  {
    if key in s.items {
      var l := s.evictList;
      var i := Find(l, s.items[key]);
      MoveKeepsLinked(s, i, l[i].value);
      forall k ensures Lookup(Touch(s, key), k) == Lookup(s, k) {
        TouchLookup(s, key, k);
      }
    }
  }

  lemma TouchLookup(s: State, key: string, k: string)
    requires Linked(s) && key in s.items
    requires Linked(Touch(s, key))
    ensures Lookup(Touch(s, key), k) == Lookup(s, k)
  {
    if k in s.items {
      var l := s.evictList;
      var i := Find(l, s.items[key]);
      PromoteFind(l, i, l[i].value, Find(l, s.items[k]));
    }
  }

  lemma PromoteKeepsIndexed(l: seq<Entry>, items: map<string, nat>, i: int, value: string)
    requires Indexed(l, items) && 0 <= i < |l|
    ensures Indexed(Promote(l, i, value), items)
  {
    var m := Promote(l, i, value);
    forall j | 0 <= j < |m| ensures m[j].key in items && items[m[j].key] == m[j].id {
      assert m[j].key == l[Unmoved(i, j)].key && m[j].id == l[Unmoved(i, j)].id;
    }
  }

  /** In a clean cache, the element at position j is the one its key's index entry finds. */
  lemma CleanFind(s: State, j: int)
    requires Clean(s) && 0 <= j < |s.evictList|
    ensures Find(s.evictList, s.items[s.evictList[j].key]) == j
  {
    FindAt(s.evictList, j);
  }

  lemma PushIndexed(l: seq<Entry>, items: map<string, nat>, e: Entry)
    requires Indexed(l, items) && e.key !in items
    ensures Indexed([e] + l, items[e.key := e.id])
  {
    var l' := [e] + l;
    forall j | 0 <= j < |l'| ensures l'[j].key in items[e.key := e.id] && items[e.key := e.id][l'[j].key] == l'[j].id {
      if j > 0 {
        assert l'[j] == l[j - 1];
      }
    }
  }

  lemma RemoveLastIndexed(l: seq<Entry>, items: map<string, nat>)
    requires Indexed(l, items) && DistinctIds(l) && l != []
    ensures Indexed(Without(l, |l| - 1), items - {l[|l| - 1].key})
  {
    var last := |l| - 1;
    var m := Without(l, last);
    forall j | 0 <= j < |m| ensures m[j].key in items - {l[last].key} && (items - {l[last].key})[m[j].key] == m[j].id {
      assert m[j] == l[j];
      assert l[j].id != l[last].id;
    }
  }

  lemma RemoveOldestKeepsClean(t: State)
    requires Clean(t)
    ensures Clean(OldestRemoved(t))
  {
    if t.evictList != [] {
      RemoveKeepsLinked(t, |t.evictList| - 1);
      RemoveLastIndexed(t.evictList, t.items);
    }
  }

  lemma PushKeepsClean(s: State, key: string, value: string)
    requires Clean(s) && key !in s.items
    ensures Clean(State([Entry(s.nextId, key, value)] + s.evictList, s.items[key := s.nextId], s.nextId + 1))
  {
    PushKeepsLinked(s, key, value);
    PushIndexed(s.evictList, s.items, Entry(s.nextId, key, value));
  }

  /** Pushing a new key's element, and evicting past capacity, keeps Clean. */
  lemma PushedKeepsClean(s: State, size: int, key: string, value: string)
    requires Clean(s) && key !in s.items
    ensures Clean(Pushed(s, size, key, value))
  {
    var pushed := State([Entry(s.nextId, key, value)] + s.evictList, s.items[key := s.nextId], s.nextId + 1);
    PushKeepsClean(s, key, value);
    RemoveOldestKeepsClean(pushed);
  }

  /** The corrected Add keeps the cache clean and stores the value under its key. */
  lemma {:induction false} CorrectedStores(s: State, size: int, key: string, value: string)
    requires Valid(s, size) && Clean(s)
    ensures Valid(AddCorrectedStep(s, size, key, value), size)
    ensures Clean(AddCorrectedStep(s, size, key, value))
    ensures Lookup(AddCorrectedStep(s, size, key, value), key) == value
  {
    var l := s.evictList;
    if key in s.items {
      var i := Find(l, s.items[key]);
      MoveKeepsLinked(s, i, value);
      PromoteKeepsIndexed(l, s.items, i, value);
      PromoteFind(l, i, value, i);
    } else {
      PushedKeepsValid(s, size, key, value);
      PushedKeepsClean(s, size, key, value);
      var after := Pushed(s, size, key, value);
      assert after.evictList[0] == Entry(s.nextId, key, value);
      CleanFind(after, 0);
    }
  }

  /**
   * As written, Add of a key that is not present puts a fresh element for it
   * at the front, and a following Get returns the new value.
   */
  lemma NewKeyStored(s: State, size: int, key: string, value: string)
    requires Valid(s, size) && Clean(s) && key !in s.items
    ensures AddStep(s, size, key, value).evictList[0] == Entry(s.nextId, key, value)
    ensures Valid(AddStep(s, size, key, value), size) && Clean(AddStep(s, size, key, value))
    ensures Lookup(AddStep(s, size, key, value), key) == value
  {
    assert s.(evictList := s.evictList) == s;
    CorrectedStores(s, size, key, value);
  }

  /**
   * As written, adding a key twice to a cache of capacity 1 loses it: the
   * stale element is evicted, and with it the index entry of the live one.
   */
  lemma DuplicateAddLosesValue(key: string, a: string, b: string)
    ensures Valid(AddStep(Empty, 1, key, a), 1)
    ensures Valid(AddStep(AddStep(Empty, 1, key, a), 1, key, b), 1)
    ensures Lookup(AddStep(AddStep(Empty, 1, key, a), 1, key, b), key) == ""
  {
    AddKeepsValid(Empty, 1, key, a);
    AddKeepsValid(AddStep(Empty, 1, key, a), 1, key, b);
  }

  /**
   * As written, the stale element a duplicate Add leaves behind also costs a
   * later Add of the same key: at capacity 2, after Add(k, a), Add(k, b) and
   * Add(j, x) the index has lost k while its stale element is still listed, so
   * Add(k, c) is the Add of a new key, evicts that stale element, and with it
   * drops the index entry it has just made.
   */
  lemma DuplicateAddLosesLaterKey(k: string, j: string, a: string, b: string, x: string, c: string)
    requires k != j
    ensures var s3 := AddStep(AddStep(AddStep(Empty, 2, k, a), 2, k, b), 2, j, x);
            && Valid(s3, 2) && k !in s3.items && !Clean(s3)
            && Valid(AddStep(s3, 2, k, c), 2)
            && Lookup(AddStep(s3, 2, k, c), k) == ""
  {
    var s3 := AddStep(AddStep(AddStep(Empty, 2, k, a), 2, k, b), 2, j, x);
    ThreeAdds(k, j, a, b, x);
    FourthAdd(k, j, b, x, c);
    AddKeepsValid(s3, 2, k, c);
  }

  /** The state after Add(k, a), Add(k, b) and Add(j, x) at capacity 2: k's stale element is still listed, its index entry gone. */
  lemma ThreeAdds(k: string, j: string, a: string, b: string, x: string)
    requires k != j
    ensures var s3 := AddStep(AddStep(AddStep(Empty, 2, k, a), 2, k, b), 2, j, x);
            && s3 == State([Entry(2, j, x), Entry(1, k, b)], map[j := 2], 3)
            && Valid(s3, 2) && !Clean(s3)
  {
    var s1 := AddStep(Empty, 2, k, a);
    var s2 := AddStep(s1, 2, k, b);
    FirstTwoAdds(k, a, b);
    ThirdAdd(k, j, b, x);
    AddKeepsValid(Empty, 2, k, a);
    AddKeepsValid(s1, 2, k, b);
    AddKeepsValid(s2, 2, j, x);
    var s3 := AddStep(s2, 2, j, x);
    assert s3.evictList[1].key == k;
  }

  lemma FirstTwoAdds(k: string, a: string, b: string)
    ensures AddStep(Empty, 2, k, a) == State([Entry(0, k, a)], map[k := 0], 1)
    ensures AddStep(AddStep(Empty, 2, k, a), 2, k, b) == State([Entry(1, k, b), Entry(0, k, b)], map[k := 1], 2)
  {
    var s1 := State([Entry(0, k, a)], map[k := 0], 1);
    assert AddStep(Empty, 2, k, a) == s1;
    assert Find(s1.evictList, 0) == 0;
  }

  lemma ThirdAdd(k: string, j: string, b: string, x: string)
    requires k != j
    ensures AddStep(State([Entry(1, k, b), Entry(0, k, b)], map[k := 1], 2), 2, j, x) ==
              State([Entry(2, j, x), Entry(1, k, b)], map[j := 2], 3)
  {
    var s2 := State([Entry(1, k, b), Entry(0, k, b)], map[k := 1], 2);
    assert Find(s2.evictList, 1) == 0;
    assert Linked(s2);
    var pushed := State([Entry(2, j, x), Entry(1, k, b), Entry(0, k, b)], map[k := 1, j := 2], 3);
    assert Pushed(s2, 2, j, x) == RemovedAt(pushed, 2);
    assert Without(pushed.evictList, 2) == [Entry(2, j, x), Entry(1, k, b)];
    assert pushed.items - {k} == map[j := 2];
  }

  lemma FourthAdd(k: string, j: string, b: string, x: string, c: string)
    requires k != j
    ensures AddStep(State([Entry(2, j, x), Entry(1, k, b)], map[j := 2], 3), 2, k, c) ==
              State([Entry(3, k, c), Entry(2, j, x)], map[j := 2], 4)
  {
    var s3 := State([Entry(2, j, x), Entry(1, k, b)], map[j := 2], 3);
    assert Find(s3.evictList, 2) == 0;
    assert Linked(s3);
    var pushed := State([Entry(3, k, c), Entry(2, j, x), Entry(1, k, b)], map[j := 2, k := 3], 4);
    assert Pushed(s3, 2, k, c) == RemovedAt(pushed, 2);
    assert Without(pushed.evictList, 2) == [Entry(3, k, c), Entry(2, j, x)];
    assert pushed.items - {k} == map[j := 2];
  }

  /**
   * As written, adding a key that is present leaves two elements for it, the
   * stale one right behind the live one, so the cache is no longer clean.
   */
  lemma AddExistingDuplicates(s: State, size: int, key: string, value: string)
    requires Valid(s, size) && Clean(s) && key in s.items && |s.evictList| < size
    ensures var after := AddStep(s, size, key, value);
            && |after.evictList| == |s.evictList| + 1
            && after.evictList[0].key == key && after.evictList[1].key == key
            && !Clean(after)
  {
    var after := AddStep(s, size, key, value);
    AddKeepsValid(s, size, key, value);
    assert after.evictList[0].id != after.evictList[1].id;
  }

  /**
   * Adding a new key to a full cache evicts the least recently used key (the
   * back element's) and nothing else: every other key reads as before.
   */
  lemma {:induction false} NewKeyEvictsOldest(s: State, size: int, key: string, value: string, k: string)
    requires Valid(s, size) && Clean(s) && key !in s.items && |s.evictList| == size
    requires k != key && k != s.evictList[|s.evictList| - 1].key
    ensures Valid(AddStep(s, size, key, value), size)
    ensures s.evictList[|s.evictList| - 1].key !in AddStep(s, size, key, value).items
    ensures Lookup(AddStep(s, size, key, value), k) == Lookup(s, k)
  {
    var l := s.evictList;
    AddKeepsValid(s, size, key, value);
    var after := AddStep(s, size, key, value);
    var pushed := [Entry(s.nextId, key, value)] + l;
    assert after.evictList == Without(pushed, |l|);
    if k in s.items {
      var p := Find(l, s.items[k]);
      assert p != |l| - 1;
      assert after.evictList[p + 1] == l[p];
      FindAt(after.evictList, p + 1);
    }
  }

  /** The cache of cache.go; `Model()` is its fields as a State. */
  class Cache {
    var size: int
    var evictList: seq<Entry>
    var items: map<string, nat>
    var nextId: nat

    function Model(): State
      reads this
    {
      State(evictList, items, nextId)
    }

    constructor (size: int)
      requires 0 < size
      ensures this.size == size && Model() == Empty && Valid(Model(), size) && Clean(Model())
    {
      this.size := size;
      evictList := [];
      items := map[];
      nextId := 0;
    }

    /** Add as written (see AddStep). */
    method Add(key: string, value: string)
      requires Valid(Model(), size)
      modifies this
      ensures size == old(size)
      ensures Model() == AddStep(old(Model()), size, key, value)
      ensures Valid(Model(), size)
    {
      AddKeepsValid(Model(), size, key, value);
      if key in items {
        var i := Find(evictList, items[key]);
        evictList := Promote(evictList, i, value);
      }
      PushFront(key, value);
    }

    /** The tail of Add: push a fresh element for (key, value) and evict past capacity. */
    method PushFront(key: string, value: string)
      modifies this
      ensures size == old(size)
      ensures Model() == Pushed(old(Model()), size, key, value)
    {
      evictList := [Entry(nextId, key, value)] + evictList;
      items := items[key := nextId];
      nextId := nextId + 1;
      if |evictList| > size {
        RemoveOldest();
      }
    }

    /** Get: the key's value, or "" for a missing key; the key's element moves to the front. */
    method Get(key: string) returns (value: string)
      requires Valid(Model(), size)
      modifies this
      ensures size == old(size)
      ensures value == Lookup(old(Model()), key)
      ensures Model() == Touch(old(Model()), key)
      ensures Valid(Model(), size)
    {
      TouchKeepsValues(Model(), size, key);
      if key in items {
        var i := Find(evictList, items[key]);
        var ent := evictList[i];
        evictList := Promote(evictList, i, ent.value);
        return ent.value;
      }
      return "";
    }

    method RemoveOldest()
      modifies this
      ensures size == old(size)
      ensures Model() == OldestRemoved(old(Model()))
    {
      if evictList != [] {
        RemoveElement(|evictList| - 1);
      }
    }

    method RemoveElement(i: int)
      requires 0 <= i < |evictList|
      modifies this
      ensures size == old(size)
      ensures Model() == RemovedAt(old(Model()), i)
    {
      var kv := evictList[i];
      evictList := Without(evictList, i);
      items := items - {kv.key};
    }

    /** Add without the second push (see AddCorrectedStep). */
    method AddCorrected(key: string, value: string)
      requires Valid(Model(), size) && Clean(Model())
      modifies this
      ensures size == old(size)
      ensures Model() == AddCorrectedStep(old(Model()), size, key, value)
      ensures Valid(Model(), size) && Clean(Model()) && Lookup(Model(), key) == value
    {
      CorrectedStores(Model(), size, key, value);
      if key in items {
        var i := Find(evictList, items[key]);
        evictList := Promote(evictList, i, value);
      } else {
        PushFront(key, value);
      }
    }
  }

  /** newCache: a capacity below 1 is refused. */
  method NewCache(size: int) returns (r: Result<Cache>)
    ensures size <= 0 ==> r == Failure(InvalidCacheSize)
    ensures 0 < size ==> r.Success? && fresh(r.value) && r.value.size == size && r.value.Model() == Empty
  {
    if size <= 0 {
      return Failure(InvalidCacheSize);
    }
    var c := new Cache(size);
    return Success(c);
  }
}

/**
 * The DNS cache of cache.go: a ring of the addresses a host resolved to,
 * handed out round-robin. The ring is an array with a cursor; a ring value
 * may be something other than an address string.
 */
module DnsRing {
  import opened Errors

  /** A ring value: unset, an address string, or any other value. */
  datatype Slot = Nil | Address(ip: string) | Other(n: int)

  /** What getIP returns at the cursor. */
  function IPAt(slots: seq<Slot>, cursor: int): (r: Result<string>)
    requires 0 <= cursor < |slots|
    ensures r.Success? <==> slots[cursor].Address?
    ensures r.Success? ==> r.value == slots[cursor].ip
    ensures r.Failure? ==> r.error == InvalidAddress
  {
    match slots[cursor]
    case Address(ip) => Success(ip)
    case _ => Failure(InvalidAddress)
  }

  /** Where getIP leaves the cursor: on to the next slot of the ring after an address, unmoved otherwise. */
  function NextCursor(slots: seq<Slot>, cursor: int): (c: int)
    requires 0 <= cursor < |slots|
    ensures 0 <= c < |slots|
    ensures c == if !slots[cursor].Address? then cursor else (cursor + 1) % |slots|
  {
    if !slots[cursor].Address? then cursor
    else if cursor + 1 == |slots| then 0
    else cursor + 1
  }

  /** The results of k calls to getIP from the given cursor. */
  function Calls(slots: seq<Slot>, cursor: int, k: nat): (rs: seq<Result<string>>)
    requires 0 <= cursor < |slots|
    ensures |rs| == k
    decreases k
  {
    if k == 0 then [] else [IPAt(slots, cursor)] + Calls(slots, NextCursor(slots, cursor), k - 1)
  }

  /** The cursor after k calls. */
  function CursorAfter(slots: seq<Slot>, cursor: int, k: nat): (c: int)
    requires 0 <= cursor < |slots|
    ensures 0 <= c < |slots|
    decreases k
  {
    if k == 0 then cursor else CursorAfter(slots, NextCursor(slots, cursor), k - 1)
  }

  predicate AllAddresses(slots: seq<Slot>)
  {
    forall i :: 0 <= i < |slots| ==> slots[i].Address?
  }

  /** Calls compose: a + b calls are a calls, then b calls from where those left the cursor. */
  lemma {:induction false} CallsSplit(slots: seq<Slot>, cursor: int, a: nat, b: nat)
    requires 0 <= cursor < |slots|
    ensures Calls(slots, cursor, a + b) == Calls(slots, cursor, a) + Calls(slots, CursorAfter(slots, cursor, a), b)
    decreases a
  {
    if a > 0 {
      CallsSplit(slots, NextCursor(slots, cursor), a - 1, b);
    }
  }

  /** Over addresses, calls from cursor c hand out slots c, c + 1, ... up to the end of the ring. */
  lemma {:induction false} CallsInOrder(slots: seq<Slot>, cursor: int, k: nat, j: int)
    requires 0 <= cursor && AllAddresses(slots) && 0 <= j < k && cursor + j < |slots|
    ensures Calls(slots, cursor, k)[j] == Success(slots[cursor + j].ip)
    ensures CursorAfter(slots, cursor, j) == cursor + j
    decreases k
  {
    if j > 0 {
      CallsInOrder(slots, cursor + 1, k - 1, j - 1);
    }
  }

  /**
   * Round robin: from the first slot, n calls over a ring of n addresses hand
   * out every address once, in ring order, and bring the cursor back to the
   * first slot, so the next n calls repeat them.
   */
  lemma FullTurn(slots: seq<Slot>, more: nat)
    requires |slots| > 0 && AllAddresses(slots)
    ensures Calls(slots, 0, |slots|) == seq(|slots|, i requires 0 <= i < |slots| => Success(slots[i].ip))
    ensures CursorAfter(slots, 0, |slots|) == 0
    ensures Calls(slots, 0, |slots| + more) == Calls(slots, 0, |slots|) + Calls(slots, 0, more)
  {
    var n := |slots|;
    forall j | 0 <= j < n
      ensures Calls(slots, 0, n)[j] == Success(slots[j].ip)
    {
      CallsInOrder(slots, 0, n, j);
    }
    CallsInOrder(slots, 0, n, n - 1);
    CursorAfterSplit(slots, 0, n - 1, 1);
    CallsSplit(slots, 0, n, more);
  }

  lemma {:induction false} CursorAfterSplit(slots: seq<Slot>, cursor: int, a: nat, b: nat)
    requires 0 <= cursor < |slots|
    ensures CursorAfter(slots, cursor, a + b) == CursorAfter(slots, CursorAfter(slots, cursor, a), b)
    decreases a
  {
    if a > 0 {
      CursorAfterSplit(slots, NextCursor(slots, cursor), a - 1, b);
    }
  }

  /** A value other than an address stops the ring: every later call fails the same way. */
  lemma {:induction false} StuckOnOther(slots: seq<Slot>, cursor: int, k: nat, j: int)
    requires 0 <= cursor < |slots| && !slots[cursor].Address? && 0 <= j < k
    ensures Calls(slots, cursor, k)[j] == Failure(InvalidAddress)
    decreases k
  {
    if j > 0 {
      StuckOnOther(slots, cursor, k - 1, j - 1);
    }
  }

  class DnsCache {
    var ips: array<Slot>
    var cursor: nat

    ghost predicate Valid()
      reads this
    {
      cursor < ips.Length
    }

    constructor (ips: array<Slot>)
      ensures this.ips == ips && cursor == 0
    {
      this.ips := ips;
      cursor := 0;
    }

    /** getIP: the address at the cursor, which then steps on; any other value fails in place. */
    method GetIP() returns (r: Result<string>)
      requires Valid()
      modifies this`cursor
      ensures Valid()
      ensures r == IPAt(ips[..], old(cursor))
      ensures cursor == NextCursor(ips[..], old(cursor))
    {
      match ips[cursor]
      case Address(ip) =>
        cursor := if cursor + 1 == ips.Length then 0 else cursor + 1;
        return Success(ip);
      case _ =>
        return Failure(InvalidAddress);
    }
  }

  /**
   * newDNSCache, with the resolver's answer as a parameter: its error is
   * returned; otherwise a ring holding the addresses in order, at the first.
   */
  method NewDnsCache(lookup: Result<seq<string>>) returns (r: Result<DnsCache>)
    ensures lookup.Failure? ==> r == Failure(lookup.error)
    ensures lookup.Success? ==> r.Success? && fresh(r.value) && fresh(r.value.ips) && r.value.cursor == 0
    ensures lookup.Success? ==> r.value.ips[..] == seq(|lookup.value|, i requires 0 <= i < |lookup.value| => Address(lookup.value[i]))
  {
    if lookup.Failure? {
      return Failure(lookup.error);
    }
    var addrs := lookup.value;
    var n := |addrs|;
    var ring := new Slot[n](_ => Nil);
    var at := 0;
    for i := 0 to n
      invariant at == (if i < n then i else 0)
      invariant forall j :: 0 <= j < i ==> ring[j] == Address(addrs[j])
    {
      ring[at] := Address(addrs[i]);
      at := if at + 1 == n then 0 else at + 1;
    }
    var d := new DnsCache(ring);
    return Success(d);
  }
}
