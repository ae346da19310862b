/** The open-addressing table with tombstones that pipeline.c uses for stream affinities and
    pipeline_registry.c for pipelines. The hash is any function of the key. */
module ProbeTable {
  import opened Ring
  import opened Status

  datatype Entry<V> = Empty | Used(key: nat, value: V) | Tombstone

  /** The `p`-th entry of a probe sequence. */
  function Probed<V>(t: seq<Entry<V>>, home: nat, p: nat): Entry<V>
    requires home < |t| < WORD && p < |t|
  {
    t[Probe(home, p, |t|)]
  }

  /** The first `o` probes meet no empty entry. */
  ghost predicate Unbroken<V>(t: seq<Entry<V>>, home: nat, o: nat)
    requires home < |t| < WORD && o <= |t|
  {
    forall p: nat :: p < o ==> !Probed(t, home, p).Empty?
  }

  /** Probing from `home` gets to `i`. */
  ghost predicate Reachable<V>(t: seq<Entry<V>>, home: nat, i: nat)
    requires home < |t| < WORD
  {
    exists o: nat :: o < |t| && Probe(home, o, |t|) == i && Unbroken(t, home, o)
  }

  function Home(hash: nat -> nat, key: nat, n: nat): (h: nat)
    requires 0 < n
    ensures h < n
  {
    hash(key) % n
  }

  /** No probe sequence is cut before its key, and no key is stored twice. */
  ghost predicate WellProbed<V>(hash: nat -> nat, t: seq<Entry<V>>) {
    && |t| < WORD
    && (forall i :: 0 <= i < |t| && t[i].Used? ==> Reachable(t, Home(hash, t[i].key, |t|), i))
    && (forall i, j :: 0 <= i < j < |t| && t[i].Used? && t[j].Used? ==> t[i].key != t[j].key)
  }

  /** The table holds exactly the finite map `m`. */
  ghost predicate Holds<V>(t: seq<Entry<V>>, m: map<nat, V>) {
    && (forall i :: 0 <= i < |t| && t[i].Used? ==> t[i].key in m && m[t[i].key] == t[i].value)
    && (forall k :: k in m ==> exists i :: 0 <= i < |t| && t[i] == Used(k, m[k]))
  }

  function UsedCount<V>(t: seq<Entry<V>>): nat {
    if t == [] then 0 else UsedCount(t[..|t| - 1]) + if t[|t| - 1].Used? then 1 else 0
  }

  lemma {:induction false} CountBound<V>(t: seq<Entry<V>>)
    ensures UsedCount(t) <= |t|
    ensures UsedCount(t) == |t| <==> forall i :: 0 <= i < |t| ==> t[i].Used?
  {
    if t != [] {
      CountBound(t[..|t| - 1]);
    }
  }

  lemma {:induction false} CountUpdate<V>(t: seq<Entry<V>>, i: nat, e: Entry<V>)
    requires i < |t|
    ensures UsedCount(t[i := e]) == UsedCount(t) + (if e.Used? then 1 else 0) - (if t[i].Used? then 1 else 0)
  {
    var u := t[i := e];
    if i == |t| - 1 {
      assert u[..|t| - 1] == t[..|t| - 1];
    } else {
      CountUpdate(t[..|t| - 1], i, e);
      assert u[..|t| - 1] == t[..|t| - 1][i := e];
    }
  }

  /** After `o` probes the key was not met and no empty entry either. */
  ghost predicate Passed<V>(t: seq<Entry<V>>, home: nat, key: nat, o: nat) {
    home < |t| < WORD && o <= |t| && Unbroken(t, home, o) &&
    forall p: nat :: p < o && Probed(t, home, p).Used? ==> Probed(t, home, p).key != key
  }

  /** A search that stops at an empty entry, or after as many probes as entries, proves the key absent. */
  lemma SearchIsConclusive<V>(hash: nat -> nat, t: seq<Entry<V>>, key: nat, o: nat, i: nat)
    requires 0 < |t| && WellProbed(hash, t) && Passed(t, Home(hash, key, |t|), key, o)
    requires o == |t| || Probed(t, Home(hash, key, |t|), o).Empty?
    requires i < |t| && t[i].Used?
    ensures t[i].key != key
  {
    var home := Home(hash, t[i].key, |t|);
    var d: nat :| d < |t| && Probe(home, d, |t|) == i && Unbroken(t, home, d);
    assert Probed(t, home, d) == t[i];
  }

  /** An entry is usable for `key` if it is not in use and the probe sequence reaches it. */
  ghost predicate Usable<V>(hash: nat -> nat, t: seq<Entry<V>>, key: nat, i: nat) {
    i < |t| < WORD && !t[i].Used? && Reachable(t, Home(hash, key, |t|), i)
  }

  /** The first tombstone met in `o` probes. */
  ghost predicate FirstGrave<V>(t: seq<Entry<V>>, home: nat, o: nat, grave: Option<nat>) {
    home < |t| < WORD && o <= |t| &&
    (if grave.None? then forall p: nat :: p < o ==> !Probed(t, home, p).Tombstone?
     else grave.value < |t| && t[grave.value].Tombstone? && Reachable(t, home, grave.value))
  }

  /** Every entry that probing for `key` can meet is in use. */
  ghost predicate Crowded<V>(hash: nat -> nat, t: seq<Entry<V>>, key: nat) {
    0 < |t| < WORD && forall p: nat :: p < |t| ==> Probed(t, Home(hash, key, |t|), p).Used?
  }

  /** What a failed search offers: a usable entry, unless it met none. */
  ghost predicate Offered<V>(hash: nat -> nat, t: seq<Entry<V>>, key: nat, insert: Option<nat>) {
    && (insert.None? <==> Crowded(hash, t, key))
    && (insert.Some? ==> Usable(hash, t, key, insert.value))
  }

  lemma Reaches<V>(t: seq<Entry<V>>, home: nat, o: nat)
    requires home < |t| < WORD && o < |t| && Unbroken(t, home, o)
    ensures Reachable(t, home, Probe(home, o, |t|))
  {
  }

  /** One probe further, past an entry that is neither empty nor the key's. */
  lemma PassesOn<V>(t: seq<Entry<V>>, home: nat, key: nat, o: nat, grave: Option<nat>)
    requires o < |t| && Passed(t, home, key, o) && FirstGrave(t, home, o, grave)
    requires var e := Probed(t, home, o); !e.Empty? && (e.Used? ==> e.key != key)
    ensures Passed(t, home, key, o + 1)
    ensures FirstGrave(t, home, o + 1,
      if grave.None? && Probed(t, home, o).Tombstone? then Some(Probe(home, o, |t|)) else grave)
  {
    Reaches(t, home, o);
  }

  lemma SomeFree<V>(hash: nat -> nat, t: seq<Entry<V>>, key: nat, i: nat)
    requires 0 < |t| && Usable(hash, t, key, i)
    ensures !Crowded(hash, t, key)
  {
    var home := Home(hash, key, |t|);
    var o: nat :| o < |t| && Probe(home, o, |t|) == i && Unbroken(t, home, o);
    assert Probed(t, home, o) == t[i];
  }

  lemma StopAtEmpty<V>(hash: nat -> nat, t: seq<Entry<V>>, key: nat, o: nat, grave: Option<nat>)
    requires 0 < |t| < WORD && o < |t|
    requires Passed(t, Home(hash, key, |t|), key, o) && FirstGrave(t, Home(hash, key, |t|), o, grave)
    requires Probed(t, Home(hash, key, |t|), o).Empty?
    ensures Offered(hash, t, key, if grave.Some? then grave else Some(Probe(Home(hash, key, |t|), o, |t|)))
  {
    var home := Home(hash, key, |t|);
    Reaches(t, home, o);
    SomeFree(hash, t, key, if grave.Some? then grave.value else Probe(home, o, |t|));
  }

  lemma FullCircle<V>(hash: nat -> nat, t: seq<Entry<V>>, key: nat, grave: Option<nat>)
    requires 0 < |t| < WORD
    requires Passed(t, Home(hash, key, |t|), key, |t|) && FirstGrave(t, Home(hash, key, |t|), |t|, grave)
    ensures Offered(hash, t, key, grave)
  {
    if grave.Some? {
      SomeFree(hash, t, key, grave.value);
    }
  }

  // Capacity.

  lemma NotCrowdedHasRoom<V>(hash: nat -> nat, t: seq<Entry<V>>, key: nat)
    requires 0 < |t| < WORD && !Crowded(hash, t, key)
    ensures UsedCount(t) < |t|
  {
    var p: nat :| p < |t| && !Probed(t, Home(hash, key, |t|), p).Used?;
    assert !t[Probe(Home(hash, key, |t|), p, |t|)].Used?;
    CountBound(t);
  }

  /** Up to 2^31 entries a search finds no room only in a full table: tombstones cost no capacity. */
  lemma CrowdedIsFull<V>(hash: nat -> nat, t: seq<Entry<V>>, key: nat)
    requires 0 < |t| <= MAX_TABLE
    ensures Crowded(hash, t, key) <==> UsedCount(t) == |t|
  {
    CountBound(t);
    if Crowded(hash, t, key) {
      var home := Home(hash, key, |t|);
      forall i | 0 <= i < |t|
        ensures t[i].Used?
      {
        assert Probed(t, home, Offset(home, i, |t|)) == t[i];
      }
    }
  }

  predicate Absent<V>(t: seq<Entry<V>>, key: nat) {
    forall i :: 0 <= i < |t| && t[i].Used? ==> t[i].key != key
  }

  /** A table with one free entry, the last but one, and every key at its own number. */
  function OneFree<V>(n: nat, v: V): (t: seq<Entry<V>>)
    ensures |t| == n
  {
    seq(n, i requires 0 <= i < n => if i + 2 == n then Empty else Used(i, v))
  }

  /** A hash that sends every key below `n` to its own number and all others to the last entry. */
  function OwnNumber(n: nat): nat -> nat {
    (k: nat) => if k < n || n == 0 then k else (n - 1) as nat
  }

  /** Beyond 2^31 entries there is a well-probed table with a free entry that a new key cannot get. */
  lemma RoomIsMissed<V>(n: nat, v: V)
    requires MAX_TABLE < n < WORD
    ensures var t := OneFree(n, v);
      WellProbed(OwnNumber(n), t) && Absent(t, n) && Crowded(OwnNumber(n), t, n) && UsedCount(t) < n
  {
    var t, hash := OneFree(n, v), OwnNumber(n);
    forall i | 0 <= i < n && t[i].Used?
      ensures Reachable(t, Home(hash, t[i].key, n), i)
    {
      ModBelow(i, n);
      assert Probe(i, 0, n) == i && Unbroken(t, i, 0);
    }
    ModBelow(n - 1, n);
    forall p: nat | p < n
      ensures Probed(t, Home(hash, n, n), p).Used?
    {
      SkippedEntry(n, p);
    }
    CountBound(t);
    assert !t[n - 2].Used?;
  }

  /** In every well-probed table of `n` entries, whatever the hash, a search for a new key finds no room only if
      there is none. */
  ghost predicate AllRoomIsFound<V(!new)>(n: nat) {
    forall hash: nat -> nat, t: seq<Entry<V>>, key: nat ::
      |t| == n && WellProbed(hash, t) && Absent(t, key) && Crowded(hash, t, key) ==> UsedCount(t) == n
  }

  lemma CapacityIsExact<V(!new)>(n: nat, v: V)
    requires 0 < n < WORD
    ensures AllRoomIsFound<V>(n) <==> n <= MAX_TABLE
  {
    if n <= MAX_TABLE {
      forall hash: nat -> nat, t: seq<Entry<V>>, key: nat | |t| == n && Crowded(hash, t, key)
        ensures UsedCount(t) == n
      {
        CrowdedIsFull(hash, t, key);
      }
    } else {
      RoomIsMissed(n, v);
    }
  }

  /** Filling an entry, or burying one, breaks no probe sequence. */
  lemma ReachableStays<V>(t: seq<Entry<V>>, i: nat, e: Entry<V>, home: nat, j: nat)
    requires home < |t| < WORD && i < |t| && !e.Empty? && Reachable(t, home, j)
    ensures Reachable(t[i := e], home, j)
  {
    var u := t[i := e];
    var o: nat :| o < |t| && Probe(home, o, |t|) == j && Unbroken(t, home, o);
    forall p: nat | p < o
      ensures !Probed(u, home, p).Empty?
    {
      assert !Probed(t, home, p).Empty?;
    }
    assert Unbroken(u, home, o);
  }

  lemma InsertKeeps<V>(hash: nat -> nat, t: seq<Entry<V>>, m: map<nat, V>, key: nat, value: V, i: nat)
    requires WellProbed(hash, t) && Holds(t, m) && key !in m && Usable(hash, t, key, i)
    ensures WellProbed(hash, t[i := Used(key, value)]) && Holds(t[i := Used(key, value)], m[key := value])
  {
    var u := t[i := Used(key, value)];
    forall j | 0 <= j < |u| && u[j].Used?
      ensures Reachable(u, Home(hash, u[j].key, |u|), j)
    {
      ReachableStays(t, i, u[i], Home(hash, u[j].key, |t|), j);
    }
    var m' := m[key := value];
    forall k | k in m'
      ensures exists j :: 0 <= j < |u| && u[j] == Used(k, m'[k])
    {
      if k == key {
        assert u[i] == Used(key, value);
      } else {
        var j :| 0 <= j < |t| && t[j] == Used(k, m[k]);
        assert u[j] == t[j];
      }
    }
  }

  lemma RemoveKeeps<V>(hash: nat -> nat, t: seq<Entry<V>>, m: map<nat, V>, i: nat)
    requires WellProbed(hash, t) && Holds(t, m) && i < |t| && t[i].Used?
    ensures WellProbed(hash, t[i := Tombstone]) && Holds(t[i := Tombstone], m - {t[i].key})
  {
    var u := t[i := Tombstone];
    forall j | 0 <= j < |u| && u[j].Used?
      ensures Reachable(u, Home(hash, u[j].key, |u|), j)
    {
      ReachableStays(t, i, Tombstone, Home(hash, t[j].key, |t|), j);
    }
    forall k | k in m - {t[i].key}
      ensures exists j :: 0 <= j < |u| && u[j] == Used(k, m[k])
    {
      var j :| 0 <= j < |t| && t[j] == Used(k, m[k]);
      assert u[j] == t[j];
    }
  }

  lemma SizeInsert<V>(m: map<nat, V>, key: nat, value: V)
    requires key !in m
    ensures |m[key := value]| == |m| + 1
  {
    assert m[key := value].Keys == m.Keys + {key};
    assert |m.Keys| == |m| && |m[key := value].Keys| == |m[key := value]|;
  }

  lemma SizeRemove<V>(m: map<nat, V>, key: nat)
    requires key in m
    ensures |m - {key}| == |m| - 1
  {
    assert (m - {key}).Keys == m.Keys - {key};
    assert |m.Keys| == |m| && |(m - {key}).Keys| == |m - {key}|;
  }

  class ProbeTable<V(==)> {
    const entries: array<Entry<V>>
    const hash: nat -> nat
    var count: nat
    ghost var model: map<nat, V>

    ghost predicate Valid()
      reads this, entries
    {
      && 0 < entries.Length
      && WellProbed(hash, entries[..]) && Holds(entries[..], model)
      && count == UsedCount(entries[..]) == |model|
    }

    constructor (capacity: nat, hash: nat -> nat)
      requires 0 < capacity < WORD
      ensures Valid() && model == map[] && fresh(entries) && entries.Length == capacity && this.hash == hash
    {
      entries := new Entry<V>[capacity](_ => Empty);
      this.hash := hash;
      count := 0;
      model := map[];
      new;
      NoneUsed(entries[..]);
    }

    // tr_pipeline_affinity_find, tr_pipeline_registry_find
    method Find(key: nat) returns (found: bool, index: nat, insert: Option<nat>)
      requires Valid()
      ensures found <==> key in model
      ensures found ==> index < entries.Length && entries[index] == Used(key, model[key])
      ensures !found ==> Offered(hash, entries[..], key, insert)
    {
      var n := entries.Length;
      var home := hash(key) % n;
      ghost var t := entries[..];
      found, index, insert := false, 0, None;
      var offset := 0;
      while offset < n
        invariant 0 <= offset <= n && Passed(t, home, key, offset) && FirstGrave(t, home, offset, insert)
      {
        index := Wrap(home, offset, n);
        assert entries[index] == Probed(t, home, offset);
        if entries[index].Used? {
          if entries[index].key == key {
            found := true;
            return;
          }
          PassesOn(t, home, key, offset, insert);
        } else if entries[index].Tombstone? {
          PassesOn(t, home, key, offset, insert);
          if insert.None? {
            insert := Some(index);
          }
        } else {
          KeyAbsent(hash, t, model, key, offset);
          StopAtEmpty(hash, t, key, offset, insert);
          if insert.None? {
            insert := Some(index);
          }
          return;
        }
        offset := offset + 1;
      }
      KeyAbsent(hash, t, model, key, n);
      FullCircle(hash, t, key, insert);
    }

    /** Store at the entry a failed search offered. */
    method Put(index: nat, key: nat, value: V)
      requires Valid() && key !in model && Usable(hash, entries[..], key, index)
      modifies this, entries
      ensures Valid() && model == old(model)[key := value]
    {
      InsertKeeps(hash, entries[..], model, key, value, index);
      CountUpdate(entries[..], index, Used(key, value));
      SizeInsert(model, key, value);
      ghost var t := entries[..];
      entries[index] := Used(key, value);
      assert entries[..] == t[index := Used(key, value)];
      count := count + 1;
      model := model[key := value];
    }

    /** Leave a tombstone where the key was. */
    method Bury(index: nat)
      requires Valid() && index < entries.Length && entries[index].Used?
      modifies this, entries
      ensures Valid() && model == old(model) - {old(entries[index].key)}
      ensures entries[..] == old(entries[..])[index := Tombstone]
    {
      RemoveKeeps(hash, entries[..], model, index);
      CountUpdate(entries[..], index, Tombstone);
      SizeRemove(model, entries[index].key);
      ghost var t := entries[..];
      var key := entries[index].key;
      entries[index] := Tombstone;
      assert entries[..] == t[index := Tombstone];
      count := count - 1;
      model := model - {key};
    }

    /** A new key is refused exactly when its probe sequence meets no free entry, which up to 2^31 entries is when
        every entry is in use. */
    method Insert(key: nat, value: V) returns (status: Status)
      requires Valid()
      modifies this, entries
      ensures Valid()
      ensures status == if key in old(model) then State else if old(Crowded(hash, entries[..], key)) then Again else Ok
      ensures entries.Length <= MAX_TABLE ==>
        status == if key in old(model) then State else if |old(model)| >= entries.Length then Again else Ok
      ensures model == if status == Ok then old(model)[key := value] else old(model)
    {
      if entries.Length <= MAX_TABLE {
        CrowdedIsFull(hash, entries[..], key);
      }
      CountBound(entries[..]);
      var found, index, insert := Find(key);
      if found {
        return State;
      }
      if insert.None? {
        return Again;
      }
      Put(insert.value, key, value);
      status := Ok;
    }

    /** Search and bury. */
    method Delete(key: nat) returns (found: bool)
      requires Valid()
      modifies this, entries
      ensures Valid() && (found <==> key in old(model))
      ensures model == if found then old(model) - {key} else old(model)
    {
      var index, insert;
      found, index, insert := Find(key);
      if found {
        Bury(index);
      }
    }

    /** Bury the entry if it holds `value`. */
    method BuryIf(index: nat, value: V)
      requires Valid() && index < entries.Length
      modifies this, entries
      ensures Valid() && (entries[index].Used? ==> entries[index].value != value)
      ensures forall j :: 0 <= j < entries.Length && j != index ==> entries[j] == old(entries[j])
      ensures forall m0 :: Shrunk(old(model), m0, value) ==> Shrunk(model, m0, value)
    {
      if entries[index].Used? && entries[index].value == value {
        ghost var key := entries[index].key;
        assert key in model && model[key] == value;
        ghost var t := entries[..];
        Bury(index);
        assert forall j :: 0 <= j < entries.Length ==> entries[j] == entries[..][j];
      }
    }

    // The sweep of tr_pipeline_remove_data_on_owner.
    method BuryValue(value: V)
      requires Valid()
      modifies this, entries
      ensures Valid() && model == map k | k in old(model) && old(model)[k] != value :: old(model)[k]
    {
      var i := 0;
      while i < entries.Length
        invariant 0 <= i <= entries.Length && Valid() && Shrunk(model, old(model), value)
        invariant forall j :: 0 <= j < i && entries[j].Used? ==> entries[j].value != value
      {
        BuryIf(i, value);
        i := i + 1;
      }
      Swept(entries[..], model, old(model), value);
    }
  }

  /** Entries with `value`, and only those, have gone from `m0`. */
  ghost predicate Shrunk<V>(m: map<nat, V>, m0: map<nat, V>, value: V) {
    && (forall k :: k in m ==> k in m0 && m[k] == m0[k])
    && (forall k :: k in m0 && m0[k] != value ==> k in m)
  }

  lemma Swept<V>(t: seq<Entry<V>>, m: map<nat, V>, m0: map<nat, V>, value: V)
    requires Holds(t, m) && Shrunk(m, m0, value)
    requires forall j :: 0 <= j < |t| && t[j].Used? ==> t[j].value != value
    ensures m == map k | k in m0 && m0[k] != value :: m0[k]
  {
    forall k | k in m
      ensures m[k] != value
    {
      var j :| 0 <= j < |t| && t[j] == Used(k, m[k]);
    }
  }

  lemma KeyAbsent<V>(hash: nat -> nat, t: seq<Entry<V>>, m: map<nat, V>, key: nat, o: nat)
    requires 0 < |t| && WellProbed(hash, t) && Holds(t, m) && Passed(t, Home(hash, key, |t|), key, o)
    requires o == |t| || Probed(t, Home(hash, key, |t|), o).Empty?
    ensures key !in m
  {
    if key in m {
      var i :| 0 <= i < |t| && t[i] == Used(key, m[key]);
      SearchIsConclusive(hash, t, key, o, i);
    }
  }

  lemma {:induction false} NoneUsed<V>(t: seq<Entry<V>>)
    requires forall i :: 0 <= i < |t| ==> !t[i].Used?
    ensures UsedCount(t) == 0
  {
    if t != [] {
      NoneUsed(t[..|t| - 1]);
    }
  }
}
