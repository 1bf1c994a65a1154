/**
 Dumping a kernel hash map with get-next-key, while the kernel goes on inserting and deleting
 entries and updating values. A key that has gone makes the walk start over.
 */
module MapWalk {
  import opened Words

  type Key(==) = nat

  ghost predicate NoDuplicates(s: seq<Key>) {
    forall i, j :: 0 <= i < j < |s| ==> s[i] != s[j]
  }

  /** What somebody else may do to the map; a new key turns up anywhere in its order. */
  datatype Change = Update(k: Key, v: U32) | Put(i: nat, k: Key, v: U32) | Remove(i: nat)

  /** The keys in the order the kernel walks them, their values, and every content the map has had. */
  class HashMap {
    var order: seq<Key>
    var vals: map<Key, U32>
    ghost var versions: seq<map<Key, U32>>
    /** How many more entries will be inserted or deleted: any number, but not without end. */
    var changes: nat
    /** The keys deleted since a walk began: they do not come back before it ends. */
    var deleted: set<Key>

    constructor (changes: nat)
      ensures Valid() && order == [] && vals == map[] && this.changes == changes
    {
      order, vals, versions, deleted := [], map[], [map[]], {};
      this.changes := changes;
    }

    ghost predicate Valid()
      reads this
    {
      && NoDuplicates(order) && (forall k :: k in order <==> k in vals) && (forall k :: k in order ==> k !in deleted)
      && versions != [] && versions[|versions| - 1] == vals
    }

    predicate Possible(c: Change)
      reads this
    {
      match c
      case Update(k, _) => k in vals
      case Put(i, k, _) => changes > 0 && i <= |order| && k !in vals && k !in deleted
      case Remove(i) => changes > 0 && i < |order|
    }

    /** The keys and values after a possible change. */
    twostate predicate Made(c: Change)
      requires old(Possible(c))
      reads this
    {
      match c
      case Update(k, v) => order == old(order) && vals == old(vals)[k := v] && changes == old(changes)
      case Put(i, k, v) => order == old(order)[..i] + [k] + old(order)[i..] && vals == old(vals)[k := v] && changes + 1 == old(changes)
      case Remove(i) => order == old(order)[..i] + old(order)[i + 1..] && vals == old(vals) - {old(order)[i]} && changes + 1 == old(changes)
    }

    /** Makes a change if it is possible, and records what the map holds then. */
    method Interfere(c: Change)
      requires Valid()
      modifies this
      ensures Valid() && Outlives(old(order), old(deleted))
      ensures if old(Possible(c)) then Made(c) && versions == old(versions) + [vals] && (!c.Update? ==> Shifted(old(order), order))
              else order == old(order) && vals == old(vals) && changes == old(changes) && versions == old(versions)
    {
      if Possible(c) {
        match c
        case Update(k, v) =>
          vals := vals[k := v];
          versions := versions + [vals];
        case Put(i, k, v) => Insert(i, k, v);
        case Remove(i) => Delete(i);
      }
    }

    /** What was in the map is in it still, or has been deleted. */
    ghost predicate Outlives(before: seq<Key>, gone: set<Key>)
      reads this
    {
      gone <= deleted && forall k :: k in before ==> k in order || k in deleted
    }

    method Insert(i: nat, k: Key, v: U32)
      requires Valid() && k !in vals && k !in deleted && i <= |order| && changes > 0
      modifies this
      ensures Valid() && Outlives(old(order), old(deleted)) && versions == old(versions) + [vals]
      ensures Made(Put(i, k, v)) && Shifted(old(order), order)
    {
      ghost var before := order;
      order := order[..i] + [k] + order[i..];
      vals, changes := vals[k := v], changes - 1;
      versions := versions + [vals];
      assert forall x :: x in order <==> x in before || x == k;
    }

    method Delete(i: nat)
      requires Valid() && i < |order| && changes > 0
      modifies this
      ensures Valid() && Outlives(old(order), old(deleted)) && versions == old(versions) + [vals]
      ensures Made(Remove(i)) && Shifted(old(order), order)
    {
      ghost var before := order;
      var k := order[i];
      order := order[..i] + order[i + 1..];
      vals, changes, deleted := vals - {k}, changes - 1, deleted + {k};
      versions := versions + [vals];
      assert before == order[..i] + [k] + order[i..];
      assert forall x :: x in before <==> x in order || x == k;
    }

    method Lookup(k: Key) returns (v: Option<U32>)
      requires Valid()
      ensures v == if k in vals then Some(vals[k]) else None
    {
      v := if k in vals then Some(vals[k]) else None;
    }

    /** The key after the given one; the first when there is none to go on from, or it has gone. */
    method GetNextKey(key: Option<Key>) returns (next: Option<Key>)
      requires Valid()
      ensures next == if key.Some? && key.value in order then Successor(order, key.value) else First(order)
    {
      if key.None? || key.value !in order {
        next := if order == [] then None else Some(order[0]);
      } else {
        var i := 0;
        while order[i] != key.value
          invariant 0 <= i < |order| && key.value !in order[..i]
          decreases |order| - i
        {
          assert key.value in order[i..];
          i := i + 1;
        }
        IndexUnique(order, key.value, i);
        next := if i + 1 < |order| then Some(order[i + 1]) else None;
      }
    }
  }

  /** One key was put in somewhere. */
  ghost predicate Inserted(order: seq<Key>, order': seq<Key>) {
    exists i, k :: 0 <= i <= |order| && k !in order && order' == order[..i] + [k] + order[i..]
  }

  /** One key was put in or taken out. */
  ghost predicate Shifted(order: seq<Key>, order': seq<Key>) {
    Inserted(order, order') || Inserted(order', order)
  }

  function First(order: seq<Key>): Option<Key> {
    if order == [] then None else Some(order[0])
  }

  function Index(order: seq<Key>, k: Key): (i: nat)
    requires k in order
    ensures i < |order| && order[i] == k
  {
    if order[0] == k then 0 else 1 + Index(order[1..], k)
  }

  function Successor(order: seq<Key>, k: Key): Option<Key>
    requires k in order
  {
    var i := Index(order, k) + 1;
    if i < |order| then Some(order[i]) else None
  }

  lemma IndexUnique(order: seq<Key>, k: Key, i: nat)
    requires NoDuplicates(order) && i < |order| && order[i] == k
    ensures k in order && Index(order, k) == i
  {
  }

  // ----- What a walk finds ---------------------------------------------------------------

  /** The key has been in the map in all its contents from versions[since] on. */
  ghost predicate Stays(k: Key, versions: seq<map<Key, U32>>, since: nat) {
    forall v :: since <= v < |versions| ==> k in versions[v]
  }

  /** Every pair was in the map at some moment since its contents were versions[since]. */
  ghost predicate Sourced(res: map<Key, U32>, versions: seq<map<Key, U32>>, since: nat) {
    forall k :: k in res ==> exists v :: since <= v < |versions| && k in versions[v] && versions[v][k] == res[k]
  }

  /** The keys that stay and that the walk is past are in the result. */
  ghost predicate PassedOver(order: seq<Key>, upTo: nat, versions: seq<map<Key, U32>>, since: nat, res: map<Key, U32>) {
    forall i :: 0 <= i < upTo && i < |order| && Stays(order[i], versions, since) ==> order[i] in res
  }

  /** The walk has come as far as `current`, unless that key has gone, and missed nothing that stays before it. */
  ghost predicate Walking(m: HashMap, current: Key, res: map<Key, U32>, since: nat)
    reads m
  {
    && m.Valid() && since < |m.versions| && Sourced(res, m.versions, since)
    && (current in m.order || current in m.deleted)
    && (current in m.order ==> PassedOver(m.order, Index(m.order, current), m.versions, since, res))
  }

  lemma StaysShrinks(versions: seq<map<Key, U32>>, versions': seq<map<Key, U32>>, since: nat, k: Key)
    requires versions <= versions' && since < |versions| && Stays(k, versions', since)
    ensures Stays(k, versions, since) && k in versions[|versions| - 1] && k in versions'[|versions'| - 1]
  {
    assert forall v :: since <= v < |versions| ==> versions[v] == versions'[v];
  }

  lemma SourcedGrows(res: map<Key, U32>, versions: seq<map<Key, U32>>, versions': seq<map<Key, U32>>, since: nat)
    requires versions <= versions' && Sourced(res, versions, since)
    ensures Sourced(res, versions', since)
  {
    forall k | k in res ensures exists v :: since <= v < |versions'| && k in versions'[v] && versions'[v][k] == res[k] {
      var v :| since <= v < |versions| && k in versions[v] && versions[v][k] == res[k];
      assert versions'[v] == versions[v];
    }
  }

  /** Where a key is after another one has been put in before or behind it. */
  lemma IndexShifts(order: seq<Key>, order': seq<Key>, i: nat, k: Key, current: Key)
    requires NoDuplicates(order) && NoDuplicates(order')
    requires i <= |order| && k !in order && order' == order[..i] + [k] + order[i..] && current in order
    ensures current in order'
    ensures var c := Index(order, current); Index(order', current) == if c < i then c else c + 1
  {
    var c := Index(order, current);
    IndexUnique(order', current, if c < i then c else c + 1);
  }

  /** Putting a key into an order leaves the other keys before a given one before it. */
  lemma BeforeStays(order: seq<Key>, order': seq<Key>, i: nat, k: Key, c: nat)
    requires i <= |order| && c <= |order| && k !in order && order' == order[..i] + [k] + order[i..]
    ensures c < i ==> order'[..c] == order[..c]
    ensures c >= i ==> order'[..c + 1] == order[..i] + [k] + order[i..c] && order[..c] == order[..i] + order[i..c]
    ensures forall x :: x in order'[..if c < i then c else c + 1] && x != k ==> x in order[..c]
    ensures forall x :: x in order[..c] ==> x != k && x in order'[..if c < i then c else c + 1]
  {
  }

  lemma PassedAre(order: seq<Key>, upTo: nat, versions: seq<map<Key, U32>>, since: nat, res: map<Key, U32>)
    requires upTo <= |order|
    ensures PassedOver(order, upTo, versions, since, res) <==>
            forall x :: x in order[..upTo] && Stays(x, versions, since) ==> x in res
  {
    assert forall i :: 0 <= i < upTo ==> order[..upTo][i] == order[i];
    assert (forall x :: x in order[..upTo] && Stays(x, versions, since) ==> x in res) ==>
      forall i :: 0 <= i < upTo && Stays(order[i], versions, since) ==> order[i] in order[..upTo];
  }

  /** One change to the map leaves the walk where it was. */
  lemma ChangeKeepsPassed(order: seq<Key>, order': seq<Key>, versions: seq<map<Key, U32>>, versions': seq<map<Key, U32>>,
                          since: nat, current: Key, res: map<Key, U32>)
    requires NoDuplicates(order) && NoDuplicates(order') && since < |versions| && versions <= versions'
    requires (forall k :: k in order <==> k in versions[|versions| - 1]) && (forall k :: k in order' <==> k in versions'[|versions'| - 1])
    requires order == order' || Shifted(order, order')
    requires current in order && PassedOver(order, Index(order, current), versions, since, res)
    ensures current in order' ==> PassedOver(order', Index(order', current), versions', since, res)
  {
    if current in order' {
      var c, c' := Index(order, current), Index(order', current);
      PassedAre(order, c, versions, since, res);
      PassedAre(order', c', versions', since, res);
      forall x | x in order'[..c'] && Stays(x, versions', since) ensures x in res {
        StaysShrinks(versions, versions', since, x);
        assert x in order && x in order';
        if Inserted(order, order') {
          var i: nat, k :| i <= |order| && k !in order && order' == order[..i] + [k] + order[i..];
          IndexShifts(order, order', i, k, current);
          BeforeStays(order, order', i, k, c);
        } else if Inserted(order', order) {
          var i: nat, k :| i <= |order'| && k !in order' && order == order'[..i] + [k] + order'[i..];
          IndexShifts(order', order, i, k, current);
          BeforeStays(order', order, i, k, c');
        }
      }
    }
  }

  /** Any number of changes, from one system call of the walk to the next. */
  method Disturb(m: HashMap, current: Key, ghost res: map<Key, U32>, ghost since: nat)
    requires Walking(m, current, res, since)
    modifies m
    ensures Walking(m, current, res, since) && m.Outlives(old(m.order), old(m.deleted)) && old(m.versions) <= m.versions
    ensures m.changes < old(m.changes) || (m.changes == old(m.changes) && m.order == old(m.order))
  {
    var n: nat := *;
    while n > 0
      invariant Walking(m, current, res, since) && m.Outlives(old(m.order), old(m.deleted)) && old(m.versions) <= m.versions
      invariant m.changes < old(m.changes) || (m.changes == old(m.changes) && m.order == old(m.order))
    {
      DisturbOnce(m, current, res, since);
      n := n - 1;
    }
  }

  method DisturbOnce(m: HashMap, current: Key, ghost res: map<Key, U32>, ghost since: nat)
    requires Walking(m, current, res, since)
    modifies m
    ensures Walking(m, current, res, since) && m.Outlives(old(m.order), old(m.deleted)) && old(m.versions) <= m.versions
    ensures m.changes < old(m.changes) || (m.changes == old(m.changes) && m.order == old(m.order))
  {
    ghost var order, versions := m.order, m.versions;
    var c: Change := *;
    m.Interfere(c);
    SourcedGrows(res, versions, m.versions, since);
    if current in order {
      ChangeKeepsPassed(order, m.order, versions, m.versions, since, current, res);
    }
  }

  /** The walk at a key it has looked up: that key is in the result, or it has gone. */
  ghost predicate Looked(m: HashMap, current: Key, res: map<Key, U32>, since: nat)
    reads m
  {
    Walking(m, current, res, since) && (current in m.order ==> current in res)
  }

  /** The lookup of one key, the map changing before and after it; a lookup that fails adds nothing. */
  method Visit(m: HashMap, current: Key, res: map<Key, U32>, ghost since: nat) returns (res': map<Key, U32>)
    requires Walking(m, current, res, since)
    modifies m
    ensures Looked(m, current, res', since) && old(m.versions) <= m.versions
    ensures m.changes < old(m.changes) || (m.changes == old(m.changes) && m.order == old(m.order))
  {
    Disturb(m, current, res, since);
    var value := m.Lookup(current);
    res' := res;
    if value.Some? {
      res' := res[current := value.value];
      assert m.versions[|m.versions| - 1][current] == value.value;
    }
    Disturb(m, current, res', since);
  }

  /** From one key to the next, or from the start again: nothing that stays is skipped, and at the end all of it is there. */
  lemma StepOver(m: HashMap, current: Key, res: map<Key, U32>, since: nat)
    requires Looked(m, current, res, since)
    ensures match if current in m.order then Successor(m.order, current) else First(m.order)
            case None => forall k :: Stays(k, m.versions, since) ==> k in res
            case Some(next) => next in m.order && Walking(m, next, res, since)
                               && (current in m.order ==> Index(m.order, next) == Index(m.order, current) + 1)
  {
    if current !in m.order {
      if m.order != [] {
        IndexUnique(m.order, m.order[0], 0);
      } else {
        NothingMissed(m, 0, res, since);
      }
    } else {
      var i := Index(m.order, current);
      if i + 1 < |m.order| {
        IndexUnique(m.order, m.order[i + 1], i + 1);
      } else {
        NothingMissed(m, |m.order|, res, since);
      }
    }
  }

  lemma NothingMissed(m: HashMap, upTo: nat, res: map<Key, U32>, since: nat)
    requires m.Valid() && since < |m.versions| && upTo == |m.order| && PassedOver(m.order, upTo, m.versions, since, res)
    ensures forall k :: Stays(k, m.versions, since) ==> k in res
  {
    forall k | Stays(k, m.versions, since) ensures k in res {
      StaysShrinks(m.versions, m.versions, since, k);
      var i := Index(m.order, k);
      assert Stays(m.order[i], m.versions, since);
    }
  }

  /**
   The walk ends, finds every key that is in the map throughout, and returns no pair that was
   not in the map at some moment of the walk. Over a map nobody changes it returns the map.
   */
  method DumpMap(m: HashMap) returns (res: map<Key, U32>)
    requires m.Valid()
    modifies m
    ensures m.Valid() && old(m.versions) <= m.versions
    ensures forall k :: Stays(k, m.versions, |old(m.versions)| - 1) ==> k in res
    ensures Sourced(res, m.versions, |old(m.versions)| - 1)
    ensures m.versions == old(m.versions) ==> res == old(m.vals)
  {
    res := map[];
    m.deleted := {};
    ghost var since := |m.versions| - 1;
    var first := m.GetNextKey(None);
    if first.None? {
      return;
    }
    var current, more := first.value, true;
    IndexUnique(m.order, current, 0);
    while more
      invariant if more then Walking(m, current, res, since) && current in m.order
                else m.Valid() && Sourced(res, m.versions, since) && forall k :: Stays(k, m.versions, since) ==> k in res
      invariant old(m.versions) <= m.versions
      decreases more, m.changes, if more && current in m.order then |m.order| - Index(m.order, current) else 0
    {
      res := Visit(m, current, res, since);
      StepOver(m, current, res, since);
      var next := m.GetNextKey(Some(current));
      if next.None? {
        more := false;
      } else {
        current := next.value;
      }
    }
    Unchanged(res, m.versions, since);
  }

  lemma Unchanged(res: map<Key, U32>, versions: seq<map<Key, U32>>, since: nat)
    requires since < |versions| && Sourced(res, versions, since) && forall k :: Stays(k, versions, since) ==> k in res
    ensures since + 1 == |versions| ==> res == versions[since]
  {
    if since + 1 == |versions| {
      forall k | k in versions[since] ensures k in res {
        assert Stays(k, versions, since);
      }
    }
  }

  /** The keys of the map have only become more since its contents were versions[since]. */
  ghost predicate OnlyGrows(versions: seq<map<Key, U32>>, since: nat) {
    forall v, w :: since <= v <= w < |versions| ==> versions[v].Keys <= versions[w].Keys
  }

  /** When nothing is deleted, what a walk finds lies between the keys at its start and those at its end. */
  lemma GrowingWalk(res: map<Key, U32>, versions: seq<map<Key, U32>>, since: nat)
    requires since < |versions| && OnlyGrows(versions, since) && Sourced(res, versions, since)
    requires forall k :: Stays(k, versions, since) ==> k in res
    ensures versions[since].Keys <= res.Keys <= versions[|versions| - 1].Keys
  {
    forall k | k in versions[since] ensures k in res {
      assert forall v :: since <= v < |versions| ==> k in versions[v].Keys;
      assert Stays(k, versions, since);
    }
    forall k | k in res ensures k in versions[|versions| - 1] {
      var v :| since <= v < |versions| && k in versions[v] && versions[v][k] == res[k];
      assert versions[v].Keys <= versions[|versions| - 1].Keys;
    }
  }
}
