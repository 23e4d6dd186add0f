/** The bounded list of memory usage records: the most important ones seen so far, and their files. */
module HealthRecords {
  import opened Words

  /** A record's importance is its `HeapInuse`; its file is named after it. */
  datatype Record = Record(importance: uint64, name: string) {
    predicate IsMoreImportantThan(other: Record) {
      importance > other.importance
    }
  }

  ghost predicate SortedDescending(items: seq<Record>) {
    forall i, j :: 0 <= i < j < |items| ==> items[i].importance >= items[j].importance
  }

  // ---------- the list as a function of what was added ----------

  /** Where the scan from `i` on stops: the first item that the record is more important than, or the end. */
  function InsertionPlace(items: seq<Record>, r: Record, i: nat): (k: nat)
    requires i <= |items|
    ensures i <= k <= |items|
    ensures forall j :: i <= j < k ==> !r.IsMoreImportantThan(items[j])
    ensures k < |items| ==> r.IsMoreImportantThan(items[k])
    decreases |items| - i
  {
    if i == |items| || r.IsMoreImportantThan(items[i]) then i else InsertionPlace(items, r, i + 1)
  }

  function Insert(items: seq<Record>, r: Record): seq<Record> {
    var k := InsertionPlace(items, r, 0);
    items[..k] + [r] + items[k..]
  }

  predicate Refused(items: seq<Record>, capacity: nat, r: Record) {
    0 < |items| && |items| >= capacity && items[|items| - 1].IsMoreImportantThan(r)
  }

  /** Without its least important record, when it is full. */
  function MakeRoom(items: seq<Record>, capacity: nat): seq<Record> {
    if 0 < |items| && |items| >= capacity then items[..|items| - 1] else items
  }

  function Add(items: seq<Record>, capacity: nat, r: Record): seq<Record> {
    if Refused(items, capacity, r) then items else Insert(MakeRoom(items, capacity), r)
  }

  function AddAll(capacity: nat, seen: seq<Record>): seq<Record> {
    if seen == [] then [] else Add(AddAll(capacity, seen[..|seen| - 1]), capacity, seen[|seen| - 1])
  }

  // ---------- the list itself ----------

  class Records {
    const capacity: nat
    var items: seq<Record>
    var files: set<string>

    ghost predicate Valid()
      reads this
    {
      capacity >= 1 && |items| <= capacity
    }

    constructor (capacity: nat)
      requires capacity >= 1
      ensures Valid() && this.capacity == capacity && items == [] && files == {}
    {
      this.capacity := capacity;
      items, files := [], {};
    }

    /** Adds a record unless the list is full of more important ones; the flags say whether the file operations succeed. */
    method AddRecord(incoming: Record, saves: bool, deletes: bool)
      requires Valid()
      modifies this
      ensures Valid() && items == Add(old(items), capacity, incoming)
      ensures files == FilesAfter(old(items), old(files), capacity, incoming, saves, deletes)
    {
      var room := MakeRoomForRecord(incoming, deletes);
      if !room {
        return;
      }
      var place := FindInsertionPlace(incoming);
      if place == |items| {
        items := items + [incoming];
        assert items == items[..place] + [incoming] + items[place + 1..];
      } else {
        items := items[..place] + [incoming] + items[place..];
      }
      if saves {
        files := files + {incoming.name};
      }
    }

    method MakeRoomForRecord(incoming: Record, deletes: bool) returns (room: bool)
      requires Valid()
      modifies this
      ensures capacity >= 1 && room == !Refused(old(items), capacity, incoming)
      ensures room ==> |items| < capacity && items == MakeRoom(old(items), capacity)
      ensures room ==> files == if items == old(items) || !deletes then old(files) else old(files) - {old(items)[|old(items)| - 1].name}
      ensures !room ==> items == old(items) && files == old(files)
    {
      room := true;
      if |items| >= capacity {
        if items[|items| - 1].IsMoreImportantThan(incoming) {
          return false;
        }
        EvictLeastImportant(deletes);
      }
    }

    method EvictLeastImportant(deletes: bool)
      requires items != []
      modifies this
      ensures items == old(items)[..|old(items)| - 1]
      ensures files == if deletes then old(files) - {old(items)[|old(items)| - 1].name} else old(files)
    {
      var leastImportant := items[|items| - 1];
      items := items[..|items| - 1];
      if deletes {
        files := files - {leastImportant.name};
      }
    }

    /** The scan from the front; `|items|` stands for the nil element. */
    method FindInsertionPlace(incoming: Record) returns (place: nat)
      ensures place == InsertionPlace(items, incoming, 0)
    {
      place := 0;
      while place < |items|
        invariant place <= |items|
        invariant InsertionPlace(items, incoming, 0) == InsertionPlace(items, incoming, place)
      {
        if incoming.IsMoreImportantThan(items[place]) {
          return;
        }
        place := place + 1;
      }
    }
  }

  /** The saved and not deleted files after one call. */
  function FilesAfter(items: seq<Record>, files: set<string>, capacity: nat, r: Record, saves: bool, deletes: bool): set<string> {
    if Refused(items, capacity, r) then files
    else
      var kept := if 0 < |items| && |items| >= capacity && deletes then files - {items[|items| - 1].name} else files;
      if saves then kept + {r.name} else kept
  }

  // ---------- online top-k ----------

  lemma InsertedAt(items: seq<Record>, r: Record)
    ensures var k, s := InsertionPlace(items, r, 0), Insert(items, r);
            && |s| == |items| + 1 && s[k] == r
            && (forall i :: 0 <= i < k ==> s[i] == items[i])
            && (forall i :: k < i < |s| ==> s[i] == items[i - 1])
  {
  }

  lemma {:induction false} InsertKeepsOrder(items: seq<Record>, r: Record)
    requires SortedDescending(items)
    ensures SortedDescending(Insert(items, r))
  {
    var k, s := InsertionPlace(items, r, 0), Insert(items, r);
    InsertedAt(items, r);
    forall i, j | 0 <= i < j < |s|
      ensures s[i].importance >= s[j].importance
    {
      if k < j && k < |items| {
        assert items[k].importance >= items[j - 1].importance;
      }
    }
  }

  lemma {:induction false} InsertedMembers(items: seq<Record>, r: Record)
    ensures multiset(Insert(items, r)) == multiset(items) + multiset{r}
    ensures forall x :: x in Insert(items, r) <==> x == r || x in items
  {
    var k := InsertionPlace(items, r, 0);
    assert items == items[..k] + items[k..];
    assert forall x :: x in Insert(items, r) <==> x in multiset(Insert(items, r));
    assert forall x :: x in items <==> x in multiset(items);
  }

  /** `items` are the most important of `seen`: what is missing is no more important than anything kept. */
  ghost predicate TopOf(items: seq<Record>, seen: multiset<Record>, dropped: multiset<Record>) {
    && seen == multiset(items) + dropped
    && forall d, r :: d in dropped && r in items ==> d.importance <= r.importance
  }

  /** The last of a sorted list is the least important. */
  lemma LastIsLeast(items: seq<Record>, x: Record)
    requires SortedDescending(items) && x in items
    ensures items[|items| - 1].importance <= x.importance
  {
    var i :| 0 <= i < |items| && items[i] == x;
    if i < |items| - 1 {
      assert items[i].importance >= items[|items| - 1].importance;
    }
  }

  lemma RefusingKeepsTop(items: seq<Record>, r: Record, seen: multiset<Record>, dropped: multiset<Record>)
    requires items != [] && SortedDescending(items) && TopOf(items, seen, dropped)
    requires items[|items| - 1].IsMoreImportantThan(r)
    ensures TopOf(items, seen + multiset{r}, dropped + multiset{r})
  {
    forall d, x | d in dropped + multiset{r} && x in items
      ensures d.importance <= x.importance
    {
      LastIsLeast(items, x);
      assert d == r || d in dropped;
    }
  }

  lemma EvictingKeepsTop(items: seq<Record>, seen: multiset<Record>, dropped: multiset<Record>)
    requires items != [] && SortedDescending(items) && TopOf(items, seen, dropped)
    ensures TopOf(items[..|items| - 1], seen, dropped + multiset{items[|items| - 1]})
    ensures SortedDescending(items[..|items| - 1])
    ensures forall d :: d in dropped + multiset{items[|items| - 1]} ==> d.importance <= items[|items| - 1].importance
  {
    var rest, last := items[..|items| - 1], items[|items| - 1];
    assert items == rest + [last];
    assert last in items;
    forall d | d in dropped + multiset{last}
      ensures d.importance <= last.importance
    {
      assert d == last || d in dropped;
    }
    forall x | x in rest
      ensures last.importance <= x.importance
    {
      assert x in items;
      LastIsLeast(items, x);
    }
  }

  /** One more record seen: the least important of the kept ones and the new one is dropped when the list is full. */
  lemma {:induction false} AddKeepsTop(items: seq<Record>, capacity: nat, r: Record, seen: multiset<Record>, dropped: multiset<Record>) returns (dropped': multiset<Record>)
    requires capacity >= 1 && |items| <= capacity && SortedDescending(items) && TopOf(items, seen, dropped)
    requires dropped != multiset{} ==> |items| == capacity
    ensures SortedDescending(Add(items, capacity, r)) && TopOf(Add(items, capacity, r), seen + multiset{r}, dropped')
    ensures |Add(items, capacity, r)| == if |items| < capacity then |items| + 1 else capacity
    ensures dropped' != multiset{} ==> |Add(items, capacity, r)| == capacity
  {
    if Refused(items, capacity, r) {
      dropped' := dropped + multiset{r};
      RefusingKeepsTop(items, r, seen, dropped);
    } else {
      var room := MakeRoom(items, capacity);
      dropped' := dropped;
      if |items| >= capacity {
        dropped' := dropped + multiset{items[|items| - 1]};
        EvictingKeepsTop(items, seen, dropped);
      }
      InsertKeepsOrder(room, r);
      InsertedMembers(room, r);
    }
  }

  lemma {:induction false} RunKeepsTop(capacity: nat, seen: seq<Record>) returns (dropped: multiset<Record>)
    requires capacity >= 1
    ensures var items := AddAll(capacity, seen);
            && SortedDescending(items)
            && TopOf(items, multiset(seen), dropped)
            && |items| == (if |seen| <= capacity then |seen| else capacity)
            && (dropped != multiset{} ==> |items| == capacity)
  {
    if seen == [] {
      dropped := multiset{};
    } else {
      var (init, last) := (seen[..|seen| - 1], seen[|seen| - 1]);
      var before := RunKeepsTop(capacity, init);
      assert seen == init + [last];
      dropped := AddKeepsTop(AddAll(capacity, init), capacity, last, multiset(init), before);
    }
  }

  /**
   * Online top-k: after any calls the list is sorted, holds min(calls, capacity) records, and what was seen but is not
   * held is no more important than anything held.
   */
  lemma KeepsTheMostImportant(capacity: nat, seen: seq<Record>)
    requires capacity >= 1
    ensures var items := AddAll(capacity, seen);
            && SortedDescending(items)
            && |items| == (if |seen| <= capacity then |seen| else capacity)
            && exists dropped :: TopOf(items, multiset(seen), dropped)
  {
    var dropped := RunKeepsTop(capacity, seen);
  }

  // ---------- ties ----------

  /**
   * One call, by the importances alone. A full list takes the record if and only if its last item is not more important,
   * so that a tie goes to the newer record; then exactly that last item goes, and its file with it. Otherwise list and
   * files are as they were. A list that is not full takes every record.
   */
  lemma {:induction false} AddDecidesByImportance(items: seq<Record>, files: set<string>, capacity: nat, r: Record, saves: bool, deletes: bool)
    requires capacity >= 1 && |items| <= capacity
    ensures var (items', files') := (Add(items, capacity, r), FilesAfter(items, files, capacity, r, saves, deletes));
            if |items| < capacity then
              && multiset(items') == multiset(items) + multiset{r}
              && files' == if saves then files + {r.name} else files
            else
              var last := items[|items| - 1];
              if last.importance <= r.importance then
                && multiset(items') == multiset(items[..|items| - 1]) + multiset{r}
                && files' == (if deletes then files - {last.name} else files) + if saves then {r.name} else {}
              else items' == items && files' == files
  {
    InsertedMembers(MakeRoom(items, capacity), r);
  }

  /** A record that is taken stands behind all that are as important, before all that are less, and the others keep their order. */
  lemma {:induction false} AddPlacesBehindEquals(items: seq<Record>, capacity: nat, r: Record) returns (k: nat)
    requires capacity >= 1 && |items| <= capacity && SortedDescending(items)
    requires |items| == capacity ==> items[|items| - 1].importance <= r.importance
    ensures var rest := if |items| == capacity then items[..|items| - 1] else items;
            && k <= |rest| && Add(items, capacity, r) == rest[..k] + [r] + rest[k..]
            && (forall i :: 0 <= i < k ==> rest[i].importance >= r.importance)
            && (forall i :: k <= i < |rest| ==> rest[i].importance < r.importance)
  {
    var rest := if |items| == capacity then items[..|items| - 1] else items;
    k := InsertionPlace(rest, r, 0);
    forall i | k <= i < |rest|
      ensures rest[i].importance < r.importance
    {
      assert items[k].importance >= items[i].importance || i == k;
    }
  }

  /** `ids` are the calls that brought the items: the more important first, and of equally important ones the earlier. */
  ghost predicate InArrivalOrder(items: seq<Record>, seen: seq<Record>, ids: seq<nat>) {
    && |ids| == |items|
    && (forall p :: 0 <= p < |items| ==> ids[p] < |seen| && seen[ids[p]] == items[p])
    && (forall p, q :: 0 <= p < q < |items| ==>
          items[p].importance > items[q].importance || (items[p].importance == items[q].importance && ids[p] < ids[q]))
  }

  /**
   * After any calls the list is in the order of importance and, among equals, of arrival. So the last item, which the next
   * record as important takes the place of, is the latest of the least important ones.
   */
  lemma {:induction false} HeldInArrivalOrder(capacity: nat, seen: seq<Record>) returns (ids: seq<nat>)
    requires capacity >= 1
    ensures InArrivalOrder(AddAll(capacity, seen), seen, ids)
  {
    if seen == [] {
      ids := [];
    } else {
      var (init, r) := (seen[..|seen| - 1], seen[|seen| - 1]);
      var before := HeldInArrivalOrder(capacity, init);
      var dropped := RunKeepsTop(capacity, init);
      ids := AddKeepsArrivalOrder(AddAll(capacity, init), capacity, r, init, seen, before);
    }
  }

  lemma {:induction false} AddKeepsArrivalOrder(items: seq<Record>, capacity: nat, r: Record, init: seq<Record>, seen: seq<Record>, before: seq<nat>)
      returns (ids: seq<nat>)
    requires capacity >= 1 && |items| <= capacity && SortedDescending(items) && InArrivalOrder(items, init, before)
    requires seen == init + [r]
    ensures InArrivalOrder(Add(items, capacity, r), seen, ids)
  {
    if |items| == capacity && items[|items| - 1].importance > r.importance {
      ids := before;
    } else {
      var k := AddPlacesBehindEquals(items, capacity, r);
      var (rest, kept) := if |items| == capacity then (items[..|items| - 1], before[..|items| - 1]) else (items, before);
      ids := kept[..k] + [|init|] + kept[k..];
      FirstOnesInOrder(items, init, before, |rest|);
      ArrivedLast(rest, init, seen, kept, r, k);
    }
  }

  lemma {:induction false} FirstOnesInOrder(items: seq<Record>, init: seq<Record>, before: seq<nat>, n: nat)
    requires InArrivalOrder(items, init, before) && n <= |items|
    ensures InArrivalOrder(items[..n], init, before[..n])
    ensures n == |items| ==> items[..n] == items && before[..n] == before
  {
  }

  lemma {:induction false} ArrivedLast(rest: seq<Record>, init: seq<Record>, seen: seq<Record>, kept: seq<nat>, r: Record, k: nat)
    requires InArrivalOrder(rest, init, kept) && seen == init + [r] && k <= |rest|
    requires forall i :: 0 <= i < k ==> rest[i].importance >= r.importance
    requires forall i :: k <= i < |rest| ==> rest[i].importance < r.importance
    ensures InArrivalOrder(rest[..k] + [r] + rest[k..], seen, kept[..k] + [|init|] + kept[k..])
  {
  }

  /** The smallest case: of two equally important records the list of one holds the newer, and its file only. */
  lemma TieGoesToTheNewer(a: Record, b: Record)
    requires a.importance == b.importance && a.name != b.name
    ensures AddAll(1, [a, b]) == [b] && FilesOf(1, [a, b]) == {b.name}
  {
    assert [a][..0] == [] && [a, b][..1] == [a];
    assert AddAll(1, [a]) == [a] && FilesOf(1, [a]) == {a.name};
  }

  // ---------- files ----------

  ghost predicate DistinctNames(seen: seq<Record>) {
    forall i, j :: 0 <= i < j < |seen| ==> seen[i].name != seen[j].name
  }

  function Names(items: seq<Record>): set<string> {
    set r | r in items :: r.name
  }

  function FilesOf(capacity: nat, seen: seq<Record>): set<string> {
    if seen == [] then {}
    else
      var init := seen[..|seen| - 1];
      FilesAfter(AddAll(capacity, init), FilesOf(capacity, init), capacity, seen[|seen| - 1], true, true)
  }

  lemma {:induction false} HeldWereSeen(capacity: nat, seen: seq<Record>)
    requires capacity >= 1 && DistinctNames(seen)
    ensures forall r :: r in AddAll(capacity, seen) ==> r in seen
    ensures DistinctNames(AddAll(capacity, seen))
  {
    if seen != [] {
      var (init, last) := (seen[..|seen| - 1], seen[|seen| - 1]);
      HeldWereSeen(capacity, init);
      var items := AddAll(capacity, init);
      var room := MakeRoom(items, capacity);
      forall r | r in items
        ensures r.name != last.name
      {
        var i :| 0 <= i < |init| && init[i] == r;
        assert seen[i] == r;
      }
      InsertedMembers(room, last);
      if !Refused(items, capacity, last) {
        assert forall r :: r in room ==> r in items;
        InsertedNames(room, last);
      }
      assert forall r :: r in init ==> r in seen;
    }
  }

  lemma InsertedNames(items: seq<Record>, r: Record)
    requires DistinctNames(items) && r.name !in Names(items)
    ensures DistinctNames(Insert(items, r)) && Names(Insert(items, r)) == Names(items) + {r.name}
  {
    var k, s := InsertionPlace(items, r, 0), Insert(items, r);
    InsertedAt(items, r);
    InsertedMembers(items, r);
    forall i | 0 <= i < |items|
      ensures items[i].name != r.name
    {
      assert items[i] in items;
    }
  }

  /** With file operations that succeed and distinct names, the files on disk are exactly those of the records held. */
  lemma {:induction false} FilesAreThoseHeld(capacity: nat, seen: seq<Record>)
    requires capacity >= 1 && DistinctNames(seen)
    ensures FilesOf(capacity, seen) == Names(AddAll(capacity, seen))
  {
    if seen != [] {
      var (init, last) := (seen[..|seen| - 1], seen[|seen| - 1]);
      FilesAreThoseHeld(capacity, init);
      HeldWereSeen(capacity, init);
      var items := AddAll(capacity, init);
      if !Refused(items, capacity, last) {
        forall r | r in items
          ensures r.name != last.name
        {
          var i :| 0 <= i < |init| && init[i] == r;
          assert seen[i] == r;
        }
        NamesWithoutLast(items);
        InsertedNames(MakeRoom(items, capacity), last);
      }
    }
  }

  lemma NamesWithoutLast(items: seq<Record>)
    requires DistinctNames(items)
    ensures items != [] ==> Names(items[..|items| - 1]) == Names(items) - {items[|items| - 1].name}
  {
    if items != [] {
      var rest, last := items[..|items| - 1], items[|items| - 1];
      assert items == rest + [last];
      assert forall r :: r in items <==> r in rest || r == last;
      forall r | r in rest
        ensures r.name != last.name
      {
        var i :| 0 <= i < |rest| && rest[i] == r;
        assert items[i] == r;
      }
    }
  }
}
