/** The overlay's expiry queue: a heap of entry objects that know their own position, plus an index by id.

Its meaning is a plain map from id to expiry time. */
module ExpiryQueue {
  import opened Common
  import opened HeapSpec

  type Table = map<string, int>

  function Without(table: Table, ids: seq<string>): Table {
    table - (set id | id in ids)
  }

  /** `due` takes ids out of the table one by one, each the earliest of those left and due by now. */
  ghost predicate TakenInOrder(table: Table, now: int, due: seq<string>) {
    due == [] ||
    var left, id := Without(table, due[..|due| - 1]), due[|due| - 1];
    && TakenInOrder(table, now, due[..|due| - 1])
    && id in left && left[id] <= now && forall other | other in left :: left[id] <= left[other]
  }

  /** Exactly the due ids, earliest first; nothing left is due. */
  ghost predicate DueBy(table: Table, now: int, due: seq<string>) {
    TakenInOrder(table, now, due) && forall id | id in Without(table, due) :: Without(table, due)[id] > now
  }

  /** Taking out one more: the earliest of those left, if it is due. */
  lemma {:induction false} TakeOne(table: Table, now: int, due: seq<string>, id: string)
    requires TakenInOrder(table, now, due) && id in Without(table, due) && Without(table, due)[id] <= now
    requires forall other | other in Without(table, due) :: Without(table, due)[id] <= Without(table, due)[other]
    ensures TakenInOrder(table, now, due + [id]) && Without(table, due + [id]) == Without(table, due) - {id}
  {
    assert (due + [id])[..|due|] == due;
  }

  lemma {:induction false} TakenAreDue(table: Table, now: int, due: seq<string>, id: string)
    requires TakenInOrder(table, now, due) && id in due
    ensures id in table && table[id] <= now
  {
    var n := |due| - 1;
    if id != due[n] { TakenAreDue(table, now, due[..n], id); }
  }

  lemma {:induction false} TakenOnce(table: Table, now: int, due: seq<string>, id: string)
    requires TakenInOrder(table, now, due)
    ensures multiset(due)[id] <= 1
  {
    if due != [] {
      var n := |due| - 1;
      TakenOnce(table, now, due[..n], id);
      assert due == due[..n] + [due[n]];
    }
  }

  lemma {:induction false} TakenInTimeOrder(table: Table, now: int, due: seq<string>, i: nat, j: nat)
    requires TakenInOrder(table, now, due) && i <= j < |due|
    ensures due[i] in table && due[j] in table && table[due[i]] <= table[due[j]]
  {
    var n := |due| - 1;
    assert due[i] in due && due[j] in due;
    TakenAreDue(table, now, due, due[i]);
    TakenAreDue(table, now, due, due[j]);
    if j < n {
      TakenInTimeOrder(table, now, due[..n], i, j);
    } else if i < n {
      // The earlier id was least among those left then, and the later one was among them.
      var before, left := due[..i + 1], Without(table, due[..i]);
      TakenPrefix(table, now, due, i + 1);
      assert before[..i] == due[..i];
      TakenOnce(table, now, due, due[n]);
      assert due[n] !in due[..i] by { assert due == due[..i] + due[i..n] + [due[n]]; }
      assert due[n] in left;
    }
  }

  lemma {:induction false} TakenPrefix(table: Table, now: int, due: seq<string>, k: nat)
    requires TakenInOrder(table, now, due) && k <= |due|
    ensures TakenInOrder(table, now, due[..k])
  {
    if k < |due| {
      TakenPrefix(table, now, due[..|due| - 1], k);
      assert due[..|due| - 1][..k] == due[..k];
    } else {
      assert due[..k] == due;
    }
  }

  /** The due ids are exactly those whose time has come, each once, in non-decreasing time order; the rest stay. */
  lemma {:induction false} DueByIsExact(table: Table, now: int, due: seq<string>)
    requires DueBy(table, now, due)
    ensures forall id :: id in due <==> id in table && table[id] <= now
    ensures forall id :: multiset(due)[id] <= 1
    ensures forall i, j | 0 <= i <= j < |due| ::
              due[i] in table && due[j] in table && table[due[i]] <= table[due[j]]
    ensures Without(table, due) == map id | id in table && table[id] > now :: table[id]
  {
    forall id ensures id in due <==> id in table && table[id] <= now {
      if id in due {
        TakenAreDue(table, now, due, id);
      } else if id in table {
        assert id in Without(table, due);
      }
    }
    forall id ensures multiset(due)[id] <= 1 { TakenOnce(table, now, due, id); }
    forall i, j | 0 <= i <= j < |due|
      ensures due[i] in table && due[j] in table && table[due[i]] <= table[due[j]]
    {
      TakenInTimeOrder(table, now, due, i, j);
    }
  }

  class ExpiryEntry {
    const id: string
    var expiresAt: int
    var index: int

    constructor (id: string, expiresAt: int)
      ensures this.id == id && this.expiresAt == expiresAt
    {
      this.id, this.expiresAt, index := id, expiresAt, 0;
    }
  }

  class Queue {
    var h: seq<ExpiryEntry>
    var byId: map<string, ExpiryEntry>
    /** The entries in the heap. */
    ghost var entries: set<ExpiryEntry>
    /** The expiry time of every scheduled id. */
    ghost var times: Table

    ghost function Keys(): (ks: seq<int>)
      reads this, h
      ensures |ks| == |h|
    {
      seq(|h|, i requires 0 <= i < |h| reads this, h => h[i].expiresAt)
    }

    /** Every entry knows where it is. */
    ghost predicate Placed()
      reads this, h
    {
      (forall i | 0 <= i < |h| :: h[i].index == i) && entries == set e | e in h
    }

    /** The index names exactly the entries in the heap. */
    ghost predicate Named()
      reads this
    {
      NamedAmong(entries)
    }

    ghost predicate NamedAmong(known: set<ExpiryEntry>)
      reads this
    {
      && (forall e | e in known :: e.id in byId && byId[e.id] == e)
      && (forall id | id in byId :: byId[id] in known && byId[id].id == id)
    }

    ghost predicate Valid()
      reads this, h, entries
    {
      Placed() && Named() && Told() && IsHeap(Keys(), |h|)
    }

    /** The entries carry the expiry times. */
    ghost predicate Told()
      requires Named()
      reads this, entries
    {
      times.Keys == byId.Keys && forall id | id in byId :: byId[id].expiresAt == times[id]
    }

    constructor ()
      ensures Valid() && times == map[] && entries == {}
    {
      h, byId, entries, times := [], map[], {}, map[];
    }

    // ----- container/heap over the entries -----

    method Swap(i: nat, j: nat)
      requires Placed() && i < |h| && j < |h|
      modifies `h, entries`index
      ensures Placed() && h == SwapAt(old(h), i, j) && Keys() == SwapAt(old(Keys()), i, j)
    {
      SwapKeepsElements(h, i, j);
      var a, b := h[i], h[j];
      h := h[i := b][j := a];
      b.index := i;
      a.index := j;
    }

    /** Raises the entry at j. */
    method SiftUp(j0: nat)
      requires Placed() && j0 < |h|
      modifies `h, entries`index
      ensures Placed() && |h| == |old(h)| && Keys() == Up(old(Keys()), j0)
      ensures forall k | j0 < k < |h| :: h[k] == old(h)[k]
    {
      var j: nat := j0;
      while true
        invariant Placed() && |h| == |old(h)| && j <= j0
        invariant forall k | j0 < k < |h| :: h[k] == old(h)[k]
        invariant Up(Keys(), j) == Up(old(Keys()), j0)
        decreases j
      {
        var i := if j == 0 then 0 else (j - 1) / 2;
        if i == j || !(h[j].expiresAt < h[i].expiresAt) { return; }
        Swap(i, j);
        j := i;
      }
    }

    /** Sinks the entry at i0 among the first n; reports whether it moved. */
    method SiftDown(i0: nat, n: nat) returns (moved: bool)
      requires Placed() && i0 < n <= |h|
      modifies `h, entries`index
      ensures Placed() && |h| == |old(h)| && Keys() == Down(old(Keys()), i0, n).keys
      ensures moved <==> Down(old(Keys()), i0, n).at > i0
      ensures forall k | n <= k < |h| :: h[k] == old(h)[k]
    {
      var i: nat := i0;
      while true
        invariant Placed() && |h| == |old(h)| && i0 <= i < n
        invariant Down(Keys(), i, n) == Down(old(Keys()), i0, n)
        invariant forall k | n <= k < |h| :: h[k] == old(h)[k]
        decreases n - i
      {
        var j := SinkStep(i, n);
        if j == i { return i > i0; }
        i := j;
      }
    }

    /** Swaps the entry at i with its smaller child if that is smaller; returns where the entry now is. */
    method SinkStep(i: nat, n: nat) returns (j: nat)
      requires Placed() && i < n <= |h|
      modifies `h, entries`index
      ensures Placed() && |h| == |old(h)| && j == SinkTarget(old(Keys()), i, n)
      ensures forall k | n <= k < |h| :: h[k] == old(h)[k]
      ensures Keys() == if j == i then old(Keys()) else SwapAt(old(Keys()), i, j)
    {
      if 2 * i + 1 >= n { return i; }
      j := PickChild(i, n);
      if !(h[j].expiresAt < h[i].expiresAt) { return i; }
      Swap(i, j);
    }

    method PickChild(i: nat, n: nat) returns (j: nat)
      requires 2 * i + 1 < n <= |h|
      ensures j == SmallerChild(Keys(), i, n)
    {
      j := 2 * i + 1;
      if j + 1 < n && h[j + 1].expiresAt < h[j].expiresAt {
        j := j + 1;
      }
    }

    method HeapPush(entry: ExpiryEntry)
      requires Placed() && IsHeap(Keys(), |h|) && entry !in entries
      modifies `h, `entries, entries`index, entry`index
      ensures Placed() && IsHeap(Keys(), |h|) && entries == old(entries) + {entry} && |h| == |old(h)| + 1
    {
      entry.index := |h|;
      h := h + [entry];
      entries := entries + {entry};
      assert Keys() == old(Keys()) + [entry.expiresAt];

      UpRestores(Keys(), |h|, |h| - 1);
      SiftUp(|h| - 1);
    }

    /** Drops the last entry of the slice. */
    method DropLast() returns (entry: ExpiryEntry)
      requires Placed() && h != []
      modifies `h, `entries, entries`index
      ensures entry == old(h)[|old(h)| - 1] && entry in old(entries) && entries == old(entries) - {entry}
      ensures Placed() && |h| == |old(h)| - 1 && Keys() == old(Keys())[..|h|]
    {
      var n := |h|;
      entry := h[n - 1];
      assert h == h[..n - 1] + [entry];
      h := h[..n - 1];
      entries := entries - {entry};
      entry.index := -1;
    }

    method HeapPop() returns (entry: ExpiryEntry)
      requires Placed() && IsHeap(Keys(), |h|) && h != []
      modifies `h, `entries, entries`index
      ensures entry == old(h)[0] && entry in old(entries) && entries == old(entries) - {entry}
      ensures Placed() && IsHeap(Keys(), |h|) && |h| == |old(h)| - 1
    {
      entry := HeapRemove(0);
    }

    /** Moves the entry at i to the end, repairs the heap before it, and drops it. */
    method HeapRemove(i: nat) returns (entry: ExpiryEntry)
      requires Placed() && IsHeap(Keys(), |h|) && i < |h|
      modifies `h, `entries, entries`index
      ensures entry == old(h)[i] && entry in old(entries) && entries == old(entries) - {entry}
      ensures Placed() && IsHeap(Keys(), |h|) && |h| == |old(h)| - 1
    {
      if i != |h| - 1 {
        MoveToEnd(i, Keys());
      }
      entry := DropLast();
    }

    method MoveToEnd(i: nat, ghost ks: seq<int>)
      requires Placed() && i < |h| - 1 && ks == Keys() && IsHeap(ks, |h|)
      modifies `h, entries`index
      ensures Placed() && |h| == |old(h)| && h[|h| - 1] == old(h)[i] && IsHeap(Keys()[..|h| - 1], |h| - 1)
    {
      var n := |h| - 1;
      RemovalIsHeap(ks, i);
      Swap(i, n);
      Repair(i, n, SwapAt(ks, i, n));
    }

    method Repair(i: nat, n: nat, ghost ks: seq<int>)
      requires Placed() && i < n <= |h| && Keys() == ks
      modifies `h, entries`index
      ensures Placed() && |h| == |old(h)| && Keys() == Fixed(ks, i, n)
      ensures forall k | n <= k < |h| :: h[k] == old(h)[k]
    {
      var moved := SiftDown(i, n);
      if !moved {
        SiftUp(i);
      }
    }

    // ----- the queue -----

    /** Sets or replaces the expiry time of an id. */
    method Schedule(id: string, expiresAt: int)
      requires Valid()
      modifies this, entries
      ensures Valid() && times == old(times)[id := expiresAt] && fresh(entries - old(entries))
    {
      if id in byId {
        var entry := byId[id];
        Reschedule(entry, expiresAt);
        return;
      }
      ScheduleNew(id, expiresAt);
    }

    method ScheduleNew(id: string, expiresAt: int)
      requires Valid() && id !in byId
      modifies this, entries`index
      ensures Valid() && times == old(times)[id := expiresAt] && fresh(entries - old(entries))
    {
      var entry := new ExpiryEntry(id, expiresAt);
      HeapPush(entry);
      IndexEntry(entry, old(entries));
    }

    method IndexEntry(entry: ExpiryEntry, ghost others: set<ExpiryEntry>)
      requires entry.id !in byId && NamedAmong(others) && entries == others + {entry}
      requires times.Keys == byId.Keys && forall id | id in byId :: byId[id].expiresAt == times[id]
      modifies `byId, `times
      ensures Named() && Told() && times == old(times)[entry.id := entry.expiresAt]
    {
      byId := byId[entry.id := entry];
      times := times[entry.id := entry.expiresAt];
    }

    method Reschedule(entry: ExpiryEntry, expiresAt: int)
      requires Valid() && entry in entries
      modifies `h, `times, entries`index, entry`expiresAt
      ensures Valid() && times == old(times)[entry.id := expiresAt]
    {
      Rekey(entry, expiresAt);
      times := times[entry.id := expiresAt];
    }

    method Rekey(entry: ExpiryEntry, expiresAt: int)
      requires Placed() && IsHeap(Keys(), |h|) && entry in entries
      modifies `h, entries`index, entry`expiresAt
      ensures Placed() && IsHeap(Keys(), |h|) && entry.expiresAt == expiresAt
    {
      var i := entry.index;
      assert h[i] == entry;

      entry.expiresAt := expiresAt;
      assert Keys() == old(Keys())[i := expiresAt];
      FixedIsHeap(Keys(), i, |h|);
      Repair(i, |h|, Keys());
    }

    /** Forgets an id, if it is scheduled. */
    method Cancel(id: string)
      requires Valid()
      modifies this, entries
      ensures Valid() && times == old(times) - {id} && entries <= old(entries)
    {
      if id !in byId { return; }
      var entry := byId[id];
      assert h[entry.index] == entry;
      var _ := HeapRemove(entry.index);
      Unindex(entry, old(entries));
    }

    method Unindex(entry: ExpiryEntry, ghost all: set<ExpiryEntry>)
      requires entry in all && NamedAmong(all) && entries == all - {entry}
      requires times.Keys == byId.Keys && forall id | id in byId :: byId[id].expiresAt == times[id]
      modifies `byId, `times
      ensures Named() && Told() && times == old(times) - {entry.id}
    {
      byId := byId - {entry.id};
      times := times - {entry.id};
    }

    /** The earliest scheduled id and its time, if any. */
    method PeekEarliest() returns (earliest: Option<(string, int)>)
      requires Valid()
      ensures earliest.None? <==> times == map[]
      ensures earliest.Some? ==> var (id, at) := earliest.value;
                id in times && times[id] == at && forall other | other in times :: at <= times[other]
    {
      RootIsEarliest();
      if |h| == 0 { return None; }
      return Some((h[0].id, h[0].expiresAt));
    }

    /** The root is the earliest of all; without a root nothing is scheduled. */
    lemma RootIsEarliest()
      requires Valid()
      ensures h == [] ==> times == map[]
      ensures h != [] ==>
        && h[0].id in times && times[h[0].id] == h[0].expiresAt
        && forall other | other in times :: h[0].expiresAt <= times[other]
    {
      if h == [] {
        assert byId == map[];
      } else {
        assert h[0] in entries;
        forall other | other in byId ensures h[0].expiresAt <= byId[other].expiresAt {
          var k := byId[other].index;
          assert h[k] == byId[other];
          RootIsLeast(Keys(), |h|, k);
        }
      }
    }

    /** Removes and returns every id due by now, earliest first. */
    method PopDue(now: int) returns (due: seq<string>)
      requires Valid()
      modifies this, entries
      ensures Valid() && entries <= old(entries)
      ensures DueBy(old(times), now, due) && times == Without(old(times), due)
    {
      due := [];
      while |h| > 0 && h[0].expiresAt <= now
        invariant Valid() && entries <= old(entries)
        invariant TakenInOrder(old(times), now, due) && times == Without(old(times), due)
        decreases |h|
      {
        RootIsEarliest();
        TakeOne(old(times), now, due, h[0].id);
        var id := PopRoot();
        due := due + [id];
      }
      RootIsEarliest();
    }

    method PopRoot() returns (id: string)
      requires Valid() && h != []
      modifies this, entries
      ensures Valid() && id == old(h[0].id) && times == old(times) - {id}
      ensures entries <= old(entries) && |h| == |old(h)| - 1
    {
      var entry := HeapPop();
      Unindex(entry, old(entries));
      return entry.id;
    }
  }

  lemma SwapKeepsElements<T>(s: seq<T>, i: nat, j: nat)
    requires i < |s| && j < |s|
    ensures forall x :: x in s[i := s[j]][j := s[i]] <==> x in s
  {
    var t := s[i := s[j]][j := s[i]];
    forall x ensures x in t <==> x in s {
      if x in s {
        var k :| 0 <= k < |s| && s[k] == x;
        assert t[if k == i then j else if k == j then i else k] == x;
      }
    }
  }
}
