/**
 * The paging and filtering engine of the multipage list: the viewer's data,
 * its filtered view, the page size, the current page and the filter store,
 * the rows `update` formats, and the page track's button arithmetic.
 *
 * Row elements are records holding the item passed to the row formatter and
 * their hidden flag; page-track nodes are records holding their data-value,
 * hidden and selected flags.
 */
module MultipageList {
  import opened Wrappers
  import Strings

  // ----- Numbers -----

  const TWO_31: int := 0x8000_0000
  const TWO_32: int := 0x1_0000_0000

  /** `x | 0` on an integral number: ToInt32, wrapping modulo 2^32 into the signed 32-bit range. */
  function ToInt32(x: int): (r: int)
    ensures -TWO_31 <= r < TWO_31
    ensures (x - r) % TWO_32 == 0
  {
    var m := x % TWO_32;
    if m >= TWO_31 then m - TWO_32 else m
  }

  /** ToInt32 leaves a value of the signed 32-bit range unchanged and is idempotent. */
  lemma ToInt32InRange(x: int)
    ensures -TWO_31 <= x < TWO_31 ==> ToInt32(x) == x
    ensures ToInt32(ToInt32(x)) == ToInt32(x)
  {
    var m := x % TWO_32;
    if -TWO_31 <= x < 0 {
      assert x + TWO_32 == m;
    }
  }

  function Max(a: int, b: int): int { if a >= b then a else b }
  function Min(a: int, b: int): int { if a <= b then a else b }

  /** `pageCount`: ceil(len / max(size, 1)), and at least 1. */
  function PageCount(len: nat, size: nat): (r: nat)
    ensures r >= 1
  {
    var s := Max(size, 1);
    Max((len + s - 1) / s, 1)
  }

  /** The page count is the fewest pages (and at least one) of max(size, 1) rows that hold every item. */
  lemma PageCountLeast(len: nat, size: nat)
    ensures var s := Max(size, 1); var c := PageCount(len, size);
      len <= c * s && (c == 1 || (c - 1) * s < len)
  {
    var s := Max(size, 1);
    var q := (len + s - 1) / s;
    var rem := (len + s - 1) % s;
    assert len + s - 1 == q * s + rem;
    if q >= 1 {
      assert (q - 1) * s == q * s - s;
    } else {
      assert q == 0;
      assert len == 0;
    }
  }

  /** `setView(p)`: the requested page kept within [1, pageCount]. */
  function ClampPage(p: int, count: nat): (r: int)
    ensures 1 <= r && (count >= 1 ==> r <= count)
    ensures 1 <= p <= count ==> r == p
    ensures p < 1 ==> r == 1
    ensures count >= 1 && p > count ==> r == count
  {
    Max(1, Min(count, p))
  }

  /** The first row `update` shows: end = min(page * size, len) and start = max(0, end - size). */
  function WindowStart(page: int, size: nat, len: nat): (r: int)
    ensures r >= 0
  {
    var end := Min(page * size, len);
    Max(0, end - size)
  }

  /** Row i of the loop in `update`, formatted when i < size and i < len, reads an item inside the view. */
  lemma WindowInside(page: int, size: nat, len: nat)
    ensures WindowStart(page, size, len) + Min(size, len) <= len
  {
  }

  /** A page that is filled completely starts at (page - 1) * size. */
  lemma {:induction false} WindowFullPage(page: int, size: nat, len: nat)
    requires 1 <= page && page * size <= len
    ensures WindowStart(page, size, len) == (page - 1) * size
  {
    assert (page - 1) * size == page * size - size;
    assert page * size >= size by {
      assert page * size - size == (page - 1) * size;
    }
  }

  /** A short last page is shifted back so that it ends at the last item, overlapping the page before it. */
  lemma {:induction false} WindowShortLastPage(page: int, size: nat, len: nat)
    requires size <= len < page * size
    ensures WindowStart(page, size, len) == len - size
    ensures WindowStart(page, size, len) < (page - 1) * size
  {
    assert (page - 1) * size == page * size - size;
  }

  // ----- Rows -----

  /** A multipage-item element: the item the formatter last wrote into it, and whether it is hidden. */
  datatype Row<T> = Row(item: T, hidden: bool)

  /**
   * The rows after the first i iterations of the loop in `update`: row j < i
   * shows view[start + j] when j < len (a missing row is appended), and is
   * hidden otherwise when it exists; rows from i on are untouched.
   */
  ghost predicate RowsAfter<T>(before: seq<Row<T>>, after: seq<Row<T>>, view: seq<T>, start: int, i: nat)
    requires 0 <= start && start + Min(i, |view|) <= |view|
  {
    |after| == Max(|before|, Min(i, |view|)) &&
    (forall j :: 0 <= j < |after| && j < i && j < |view| ==> after[j] == Row(view[start + j], false)) &&
    (forall j :: 0 <= j < |after| && j < i && j >= |view| ==> after[j] == before[j].(hidden := true)) &&
    (forall j :: 0 <= j < |after| && j >= i ==> after[j] == before[j])
  }

  // ----- Filters -----

  /** `new MultipageViewer.Filter(fn)`: the function and its enabled flag. */
  datatype Filter<!T> = Filter(run: T -> bool, enabled: bool)

  /** The `fn` property of a filter definition: absent or falsy, some other truthy value, or a function. */
  datatype FnField<!T> = Absent | NotFunction | Function(f: T -> bool)

  /** The argument of `filters.add` and `filters.set`; an id of None is undefined. */
  datatype FilterDef<!T> = FilterDef(id: Option<string>, fn: FnField<T>)

  /** The filter store, a Map in insertion order. */
  type Store<!T> = seq<(string, Filter<T>)>

  /** The keys of the store. */
  function KeySet<T>(store: Store<T>): set<string> {
    if store == [] then {} else {store[0].0} + KeySet(store[1..])
  }

  /** No key occurs twice, as in a Map. */
  ghost predicate UniqueKeys<T>(store: Store<T>) {
    store == [] || (store[0].0 !in KeySet(store[1..]) && UniqueKeys(store[1..]))
  }

  /** `store.get(key)`. */
  function Lookup<T>(store: Store<T>, key: string): (r: Option<Filter<T>>)
    ensures r.None? <==> forall i :: 0 <= i < |store| ==> store[i].0 != key
  {
    if store == [] then None
    else if store[0].0 == key then Some(store[0].1)
    else Lookup(store[1..], key)
  }

  /** `store.set(key, f)`: an existing key keeps its position and takes the new filter; a new key goes last. */
  function MapSet<T>(store: Store<T>, key: string, f: Filter<T>): Store<T> {
    if store == [] then [(key, f)]
    else if store[0].0 == key then [(key, f)] + store[1..]
    else [store[0]] + MapSet(store[1..], key, f)
  }

  /** `store.delete(key)`. */
  function MapDelete<T>(store: Store<T>, key: string): Store<T> {
    if store == [] then []
    else if store[0].0 == key then MapDelete(store[1..], key)
    else [store[0]] + MapDelete(store[1..], key)
  }

  /** After `set`, the key holds the new filter and every other key is unchanged. */
  lemma {:induction false} MapSetLookup<T>(store: Store<T>, key: string, f: Filter<T>, other: string)
    ensures Lookup(MapSet(store, key, f), other) == if other == key then Some(f) else Lookup(store, other)
  {
    if store != [] && store[0].0 != key {
      MapSetLookup(store[1..], key, f, other);
    }
  }

  /** `set` adds its key to the keys and keeps them unique. */
  lemma {:induction false} MapSetUnique<T>(store: Store<T>, key: string, f: Filter<T>)
    requires UniqueKeys(store)
    ensures KeySet(MapSet(store, key, f)) == KeySet(store) + {key}
    ensures UniqueKeys(MapSet(store, key, f))
  {
    if store != [] && store[0].0 != key {
      MapSetUnique(store[1..], key, f);
      assert MapSet(store, key, f)[1..] == MapSet(store[1..], key, f);
    } else if store != [] {
      assert MapSet(store, key, f)[1..] == store[1..];
    }
  }

  /** After `delete`, the key is gone and every other key is unchanged. */
  lemma {:induction false} MapDeleteLookup<T>(store: Store<T>, key: string, other: string)
    ensures Lookup(MapDelete(store, key), other) == if other == key then None else Lookup(store, other)
  {
    if store != [] {
      MapDeleteLookup(store[1..], key, other);
      if store[0].0 != key {
        assert MapDelete(store, key)[1..] == MapDelete(store[1..], key);
      }
    }
  }

  /** `delete` removes its key from the keys and keeps them unique. */
  lemma {:induction false} MapDeleteUnique<T>(store: Store<T>, key: string)
    requires UniqueKeys(store)
    ensures KeySet(MapDelete(store, key)) == KeySet(store) - {key}
    ensures UniqueKeys(MapDelete(store, key))
  {
    if store != [] {
      MapDeleteUnique(store[1..], key);
      if store[0].0 != key {
        assert MapDelete(store, key)[1..] == MapDelete(store[1..], key);
      }
    }
  }

  /** `filterFn(o)`: false at the first enabled filter that rejects o, true otherwise. */
  function Accepts<T>(store: Store<T>, o: T): bool {
    if store == [] then true
    else if store[0].1.enabled && !store[0].1.run(o) then false
    else Accepts(store[1..], o)
  }

  /** An item passes exactly when every enabled filter of the store accepts it. */
  lemma {:induction false} AcceptsEvery<T>(store: Store<T>, o: T)
    ensures Accepts(store, o) <==> forall i :: 0 <= i < |store| && store[i].1.enabled ==> store[i].1.run(o)
  {
    if store != [] {
      AcceptsEvery(store[1..], o);
      if Accepts(store, o) {
        forall i | 0 <= i < |store| && store[i].1.enabled ensures store[i].1.run(o) {
          if i > 0 { assert store[i] == store[1..][i - 1]; }
        }
      } else if !(store[0].1.enabled && !store[0].1.run(o)) {
        var i :| 0 <= i < |store[1..]| && store[1..][i].1.enabled && !store[1..][i].1.run(o);
        assert store[i + 1] == store[1..][i];
      }
    }
  }

  /** `data.filter(filterFn)`. */
  function FilterSeq<T>(data: seq<T>, store: Store<T>): (r: seq<T>)
    ensures |r| <= |data|
  {
    if data == [] then []
    else if Accepts(store, data[0]) then [data[0]] + FilterSeq(data[1..], store)
    else FilterSeq(data[1..], store)
  }

  /** Filtering keeps the order: the view of a concatenation is the concatenation of the views. */
  lemma {:induction false} FilterSeqAppend<T>(a: seq<T>, b: seq<T>, store: Store<T>)
    ensures FilterSeq(a + b, store) == FilterSeq(a, store) + FilterSeq(b, store)
  {
    if a != [] {
      assert (a + b)[1..] == a[1..] + b;
      FilterSeqAppend(a[1..], b, store);
    } else {
      assert a + b == b;
    }
  }

  /** An item is in the filtered view exactly when it is in the data and every enabled filter accepts it. */
  lemma {:induction false} FilterSeqMembers<T(!new)>(data: seq<T>, store: Store<T>)
    ensures forall x :: x in FilterSeq(data, store) <==> x in data && Accepts(store, x)
  {
    if data != [] {
      FilterSeqMembers(data[1..], store);
      assert forall x :: x in data <==> x == data[0] || x in data[1..];
    }
  }

  /** With no filter enabled or every item accepted, the view is the data itself. */
  lemma {:induction false} FilterSeqAll<T>(data: seq<T>, store: Store<T>)
    requires forall i :: 0 <= i < |data| ==> Accepts(store, data[i])
    ensures FilterSeq(data, store) == data
  {
    if data != [] {
      assert Accepts(store, data[0]);
      FilterSeqAll(data[1..], store);
    }
  }

  /** `def.id || "default"`: the key `add` stores under. */
  function FilterKey(id: Option<string>): (k: string)
    ensures k != ""
    ensures id.Some? && id.value != "" ==> k == id.value
  {
    if id.Some? && id.value != "" then id.value else "default"
  }

  /** The store after `filters.add(def)`: a function is stored; otherwise `def.id` (or "default" without def) is deleted. */
  function StoreAfterAdd<T>(store: Store<T>, def: Option<FilterDef<T>>): Store<T> {
    if def.Some? && def.value.fn.Function? then
      MapSet(store, FilterKey(def.value.id), Filter(def.value.fn.f, true))
    else if def.None? then MapDelete(store, "default")
    else if def.value.id.Some? then MapDelete(store, def.value.id.value)
    else store
  }

  /** `add` with a function makes it the filter of its key; `add` without one removes that key's filter. */
  lemma AddStoresOrDeletes<T>(store: Store<T>, def: Option<FilterDef<T>>, other: string)
    requires UniqueKeys(store)
    ensures UniqueKeys(StoreAfterAdd(store, def))
    ensures def.Some? && def.value.fn.Function? ==>
      Lookup(StoreAfterAdd(store, def), other) ==
        if other == FilterKey(def.value.id) then Some(Filter(def.value.fn.f, true)) else Lookup(store, other)
    ensures def.None? ==>
      Lookup(StoreAfterAdd(store, def), other) == if other == "default" then None else Lookup(store, other)
    ensures def.Some? && !def.value.fn.Function? && def.value.id.Some? ==>
      Lookup(StoreAfterAdd(store, def), other) == if other == def.value.id.value then None else Lookup(store, other)
  {
    if def.Some? && def.value.fn.Function? {
      MapSetLookup(store, FilterKey(def.value.id), Filter(def.value.fn.f, true), other);
      MapSetUnique(store, FilterKey(def.value.id), Filter(def.value.fn.f, true));
    } else if def.None? {
      MapDeleteLookup(store, "default", other);
      MapDeleteUnique(store, "default");
    } else if def.value.id.Some? {
      MapDeleteLookup(store, def.value.id.value, other);
      MapDeleteUnique(store, def.value.id.value);
    }
  }

  /** The store after `filters.clear(id)`: one key removed for a truthy id, everything otherwise. */
  function StoreAfterClear<T>(store: Store<T>, id: Option<string>): Store<T> {
    if id.Some? && id.value != "" then MapDelete(store, id.value) else []
  }

  /** The store after `filters.set(def)`: cleared, then `add(def)` when `def.fn` is truthy. */
  function StoreAfterSet<T>(def: Option<FilterDef<T>>): Store<T> {
    if def.Some? && !def.value.fn.Absent? then StoreAfterAdd([], def) else []
  }

  /** After `set`, the store holds at most the new filter. */
  lemma SetLeavesOne<T>(def: Option<FilterDef<T>>)
    ensures |StoreAfterSet(def)| <= 1
    ensures def.Some? && def.value.fn.Function? ==>
      StoreAfterSet(def) == [(FilterKey(def.value.id), Filter(def.value.fn.f, true))]
  {
  }

  /** The `filtered` field `execFilters` computes; None is JavaScript null. Null data with a filter throws. */
  function FilteredView<T>(data: Option<seq<T>>, store: Store<T>): (r: Option<Option<seq<T>>>)
    ensures r.None? <==> |store| > 0 && data.None?
  {
    if |store| == 0 then Some(None)
    else if data.None? then None
    else Some(Some(FilterSeq(data.value, store)))
  }

  // ----- Sorting -----

  /** The sign of cmp(a, b) is the opposite of the sign of cmp(b, a). */
  ghost predicate Antisymmetric<T(!new)>(cmp: (T, T) -> int) {
    forall a, b :: cmp(a, b) > 0 <==> cmp(b, a) < 0
  }

  /** A comparator that JavaScript's sort can rely on: antisymmetric in sign and transitive. */
  ghost predicate Consistent<T(!new)>(cmp: (T, T) -> int) {
    Antisymmetric(cmp) &&
    forall a, b, c :: cmp(a, b) <= 0 && cmp(b, c) <= 0 ==> cmp(a, c) <= 0
  }

  /** Each element compares at most 0 against the next one. */
  ghost predicate Ordered<T>(s: seq<T>, cmp: (T, T) -> int) {
    forall i :: 0 < i < |s| ==> cmp(s[i - 1], s[i]) <= 0
  }

  ghost predicate SortedBy<T>(s: seq<T>, cmp: (T, T) -> int) {
    forall i, j :: 0 <= i < j < |s| ==> cmp(s[i], s[j]) <= 0
  }

  /** Insert x after every trailing element that does not compare above it, which keeps equal items in order. */
  function Insert<T>(s: seq<T>, x: T, cmp: (T, T) -> int): (r: seq<T>)
    ensures multiset(r) == multiset(s) + multiset{x}
    ensures |r| == |s| + 1
  {
    if |s| == 0 then [x]
    else if cmp(s[|s| - 1], x) > 0 then
      assert s == s[..|s| - 1] + [s[|s| - 1]];
      Insert(s[..|s| - 1], x, cmp) + [s[|s| - 1]]
    else s + [x]
  }

  /** `arg.sort(cmp)` as a stable insertion sort: each item goes after every earlier item that does not compare above it. */
  function SortBy<T>(s: seq<T>, cmp: (T, T) -> int): (r: seq<T>)
    ensures multiset(r) == multiset(s)
    ensures |r| == |s|
  {
    if |s| == 0 then []
    else
      assert s == s[..|s| - 1] + [s[|s| - 1]];
      Insert(SortBy(s[..|s| - 1], cmp), s[|s| - 1], cmp)
  }

  /** What `sort` is given: undefined, a function, or any other value. */
  datatype SortArg<!T> = NoComparator | Comparator(f: (T, T) -> int) | NotCallable

  /** The default order of `Array.prototype.sort`: the items' string forms compared by UTF-16 code units. */
  function DefaultOrder<T>(str: T -> string): (T, T) -> int {
    (a: T, b: T) => Strings.CompareUnits(Strings.Units(str(a)), Strings.Units(str(b)))
  }

  /**
   * The comparison `sort(arg)` uses, given the items' string conversion;
   * None is the TypeError for a comparator that is neither undefined nor a
   * function.
   */
  function Comparison<T>(arg: SortArg<T>, str: T -> string): (r: Option<(T, T) -> int>)
    ensures r.None? <==> arg.NotCallable?
    ensures arg.Comparator? ==> r == Some(arg.f)
    ensures arg.NoComparator? ==> r == Some(DefaultOrder(str))
  {
    match arg
    case NoComparator => Some(DefaultOrder(str))
    case Comparator(f) => Some(f)
    case NotCallable => None
  }

  /** The default order is consistent, so without a comparator the sorted view is sorted pairwise. */
  lemma DefaultOrderConsistent<T(!new)>(str: T -> string)
    ensures Consistent(DefaultOrder(str))
  {
    var cmp := DefaultOrder(str);
    forall a, b ensures cmp(a, b) > 0 <==> cmp(b, a) < 0 {
      Strings.CompareUnitsAntisymmetric(Strings.Units(str(a)), Strings.Units(str(b)));
    }
    forall a, b, c | cmp(a, b) <= 0 && cmp(b, c) <= 0 ensures cmp(a, c) <= 0 {
      Strings.CompareUnitsTransitive(Strings.Units(str(a)), Strings.Units(str(b)), Strings.Units(str(c)));
    }
  }

  /** The last element of an insertion result is x or the old last element. */
  lemma InsertLast<T>(s: seq<T>, x: T, cmp: (T, T) -> int)
    ensures var r := Insert(s, x, cmp); r[|r| - 1] == x || (|s| > 0 && r[|r| - 1] == s[|s| - 1])
  {
  }

  /** Inserting into an ordered sequence keeps it ordered. */
  lemma {:induction false} InsertOrdered<T(!new)>(s: seq<T>, x: T, cmp: (T, T) -> int)
    requires Antisymmetric(cmp) && Ordered(s, cmp)
    ensures Ordered(Insert(s, x, cmp), cmp)
  {
    if |s| > 0 && cmp(s[|s| - 1], x) > 0 {
      var p := s[..|s| - 1];
      var last := s[|s| - 1];
      assert Ordered(p, cmp);
      InsertOrdered(p, x, cmp);
      var q := Insert(p, x, cmp);
      InsertLast(p, x, cmp);
      assert cmp(x, last) < 0;
      assert cmp(q[|q| - 1], last) <= 0;
      var r := q + [last];
      forall i | 0 < i < |r| ensures cmp(r[i - 1], r[i]) <= 0 {
        if i < |q| { assert r[i - 1] == q[i - 1] && r[i] == q[i]; }
      }
    }
  }

  /** The sort result is ordered for an antisymmetric comparator. */
  lemma {:induction false} SortByOrdered<T(!new)>(s: seq<T>, cmp: (T, T) -> int)
    requires Antisymmetric(cmp)
    ensures Ordered(SortBy(s, cmp), cmp)
  {
    if |s| > 0 {
      SortByOrdered(s[..|s| - 1], cmp);
      InsertOrdered(SortBy(s[..|s| - 1], cmp), s[|s| - 1], cmp);
    }
  }

  /** With a transitive comparator, an ordered sequence is sorted pairwise. */
  lemma {:induction false} OrderedSorted<T(!new)>(s: seq<T>, cmp: (T, T) -> int)
    requires Consistent(cmp) && Ordered(s, cmp)
    ensures SortedBy(s, cmp)
  {
    if |s| > 1 {
      var p := s[..|s| - 1];
      assert Ordered(p, cmp);
      OrderedSorted(p, cmp);
      forall i, j | 0 <= i < j < |s| ensures cmp(s[i], s[j]) <= 0 {
        if j < |s| - 1 {
          assert s[i] == p[i] && s[j] == p[j];
        } else if i < j - 1 {
          assert cmp(p[i], p[j - 1]) <= 0;
        }
      }
    }
  }

  /** With a consistent comparator the sort result is sorted. */
  lemma SortBySorted<T(!new)>(s: seq<T>, cmp: (T, T) -> int)
    requires Consistent(cmp)
    ensures SortedBy(SortBy(s, cmp), cmp)
  {
    SortByOrdered(s, cmp);
    OrderedSorted(SortBy(s, cmp), cmp);
  }

  // ----- The page track -----

  /** A page-track node: its data-value, and whether it carries the hidden and selected classes. */
  datatype TrackNode = TrackNode(value: Option<int>, hidden: bool, selected: bool)

  /**
   * The track's nodes in document order: buttons[0], an ellipsis, buttons[1]
   * to buttons[5], an ellipsis, buttons[6]. The ellipses are the siblings
   * after buttons[0] and buttons[5] that setViewLimits hides.
   */
  const NODES: nat := 9
  const FIRST_ELLIPSIS: nat := 1
  const SECOND_ELLIPSIS: nat := 7
  const LAST_BUTTON: nat := 8

  /** The node holding buttons[i]. */
  function ButtonNode(i: nat): (k: nat)
    requires i < 7
    ensures k < NODES && k != FIRST_ELLIPSIS && k != SECOND_ELLIPSIS
  {
    if i == 0 then 0 else if i <= 5 then i + 1 else LAST_BUTTON
  }

  /** The index in buttons of the button at node k. */
  function ButtonIndex(k: nat): nat {
    if k == 0 then 0 else if k < SECOND_ELLIPSIS then k - 1 else 6
  }

  predicate IsButton(k: nat) { k != FIRST_ELLIPSIS && k != SECOND_ELLIPSIS }

  datatype TrackState = TrackState(min: int, max: int, canSkipRedraw: bool, currentlySelected: int, nodes: seq<TrackNode>)

  /** `setViewLimits(a, b)`: both truncated; ignored when a > b or unchanged. */
  function AfterLimits(s: TrackState, a: int, b: int): (r: TrackState)
    requires |s.nodes| == NODES
    ensures |r.nodes| == NODES
    ensures ToInt32(a) > ToInt32(b) || (s.min == ToInt32(a) && s.max == ToInt32(b)) ==> r == s
    ensures ToInt32(a) <= ToInt32(b) ==> r.min == ToInt32(a) && r.max == ToInt32(b)
    ensures r.currentlySelected == s.currentlySelected
  {
    var lo, hi := ToInt32(a), ToInt32(b);
    if lo > hi || (s.min == lo && s.max == hi) then s
    else
      var short := hi - lo < 7;
      var ns := s.nodes[0 := s.nodes[0].(value := Some(1))][LAST_BUTTON := s.nodes[LAST_BUTTON].(value := Some(hi))];
      var ns2 := ns[FIRST_ELLIPSIS := ns[FIRST_ELLIPSIS].(hidden := short)][SECOND_ELLIPSIS := ns[SECOND_ELLIPSIS].(hidden := short)];
      s.(min := lo, max := hi, canSkipRedraw := false, nodes := ns2)
  }

  /** When the limits change, buttons[0] shows 1, buttons[6] shows the maximum, and both ellipses hide below a span of 7. */
  lemma LimitsApplied(s: TrackState, a: int, b: int)
    requires |s.nodes| == NODES
    requires ToInt32(a) <= ToInt32(b) && !(s.min == ToInt32(a) && s.max == ToInt32(b))
    ensures var r := AfterLimits(s, a, b);
      !r.canSkipRedraw && r.nodes[0].value == Some(1) && r.nodes[LAST_BUTTON].value == Some(ToInt32(b)) &&
      r.nodes[FIRST_ELLIPSIS].hidden == r.nodes[SECOND_ELLIPSIS].hidden == (ToInt32(b) - ToInt32(a) < 7) &&
      forall k :: 2 <= k < SECOND_ELLIPSIS ==> r.nodes[k] == s.nodes[k]
  {
  }

  /** The first middle value of `setSelected`. */
  function StartValue(min: int, max: int, n: int): (r: int)
    ensures r >= min + 1
  {
    var v0 := Max(min + 1, n - 2);
    var v1 := if n == min then v0 else if n == max then Max(v0, max - 5) else v0;
    if max - n < 3 then Max(min + 1, v1 - (3 - (max - n))) else v1
  }

  /** `setSelected` returns at once when a redraw can be skipped. */
  predicate SkipsSelect(s: TrackState, n: int) {
    s.canSkipRedraw && (n < s.min || n > s.max || s.min == s.max || n == s.currentlySelected)
  }

  /** The number of nodes the value loop walks from buttons[1]. */
  function WalkLength(s: TrackState, n: int): nat { if n == s.min then 6 else 5 }

  /** Node k after the "selected" class is removed from every button. */
  function Unselected(node: TrackNode, k: nat): TrackNode {
    if IsButton(k) then node.(selected := false) else node
  }

  /** Node k after buttons[0] or buttons[6] is marked for the first or last page. */
  function Marked(node: TrackNode, k: nat, s: TrackState, n: int): TrackNode {
    if k == 0 && n == s.min then node.(selected := true)
    else if k == LAST_BUTTON && n != s.min && n == s.max then node.(selected := true)
    else node
  }

  /** Node k after the value loop: a walked node gets value start + (k - 2), hidden above max - 1, selected when it is n. */
  function Walked(node: TrackNode, k: nat, start: int, len: nat, n: int, max: int): TrackNode {
    if 2 <= k < 2 + len then
      var v := start + (k - 2);
      node.(value := Some(v), hidden := v > max - 1, selected := node.selected || v == n)
    else node
  }

  /** `setSelected(n)`. */
  function AfterSelected(s: TrackState, n: int): (r: TrackState)
    requires |s.nodes| == NODES
    ensures |r.nodes| == NODES
    ensures SkipsSelect(s, n) ==> r == s
    ensures !SkipsSelect(s, n) ==> r.canSkipRedraw && r.currentlySelected == n && r.min == s.min && r.max == s.max
  {
    if SkipsSelect(s, n) then s
    else
      var start := StartValue(s.min, s.max, n);
      var len := WalkLength(s, n);
      var ns := seq(NODES, k requires 0 <= k < NODES =>
        Walked(Marked(Unselected(s.nodes[k], k), k, s, n), k, start, len, n, s.max));
      s.(canSkipRedraw := true, currentlySelected := n, nodes := ns)
  }

  /** A page strictly between the limits appears among buttons[1..5], shown and selected. */
  lemma {:induction false} SelectedPageShown(s: TrackState, n: int)
    requires |s.nodes| == NODES && !SkipsSelect(s, n) && s.min < n < s.max
    ensures var r := AfterSelected(s, n); var k := 2 + n - StartValue(s.min, s.max, n);
      2 <= k <= 6 && r.nodes[k] == TrackNode(Some(n), false, true)
  {
    var start := StartValue(s.min, s.max, n);
    assert n - 4 <= start <= n;
  }

  /** Every walked node is hidden exactly when its value exceeds max - 1, and the first page or last page selects its end button. */
  lemma SelectedNodes(s: TrackState, n: int)
    requires |s.nodes| == NODES && !SkipsSelect(s, n)
    ensures var r := AfterSelected(s, n);
      (forall k :: 2 <= k < 2 + WalkLength(s, n) ==>
        r.nodes[k].value.Some? && (r.nodes[k].hidden <==> r.nodes[k].value.value > s.max - 1) &&
        r.nodes[k].value.value >= s.min + 1) &&
      (r.nodes[0].selected <==> n == s.min) &&
      (r.nodes[LAST_BUTTON].selected <==> n != s.min && n == s.max)
  {
  }

  /** A page-track element. */
  class PageTrack {
    var min: int
    var max: int
    var canSkipRedraw: bool
    var currentlySelected: int
    var nodes: seq<TrackNode>

    function State(): TrackState
      reads this
    {
      TrackState(min, max, canSkipRedraw, currentlySelected, nodes)
    }

    predicate Valid()
      reads this
    {
      |nodes| == NODES
    }

    /** A fresh track; the template's initial node attributes are not part of this model. */
    constructor ()
      ensures Valid() && min == 1 && max == 1 && !canSkipRedraw && currentlySelected == 1
    {
      min, max, canSkipRedraw, currentlySelected := 1, 1, false, 1;
      nodes := seq(NODES, _ => TrackNode(None, false, false));
    }

    method SetViewLimits(a: int, b: int)
      requires Valid()
      modifies this
      ensures Valid() && State() == AfterLimits(old(State()), a, b)
    {
      var lo, hi := ToInt32(a), ToInt32(b);
      if lo > hi || (min == lo && max == hi) {
        return;
      }
      min, max := lo, hi;
      var short := hi - lo < 7;
      nodes := nodes[0 := nodes[0].(value := Some(1))][LAST_BUTTON := nodes[LAST_BUTTON].(value := Some(hi))];
      nodes := nodes[FIRST_ELLIPSIS := nodes[FIRST_ELLIPSIS].(hidden := short)][SECOND_ELLIPSIS := nodes[SECOND_ELLIPSIS].(hidden := short)];
      canSkipRedraw := false;
    }

    method SetSelected(n: int)
      requires Valid()
      modifies this
      ensures Valid() && State() == AfterSelected(old(State()), n)
    {
      if SkipsSelect(State(), n) {
        return;
      }
      var before := State();
      canSkipRedraw := true;
      var ns := UnselectButtons(nodes);
      var start := StartValue(min, max, n);
      if n == min {
        ns := ns[0 := ns[0].(selected := true)];
      } else if n == max {
        ns := ns[LAST_BUTTON := ns[LAST_BUTTON].(selected := true)];
      }
      currentlySelected := n;
      ns := WalkValues(ns, start, if n == min then 6 else 5, n, max);
      nodes := ns;
      assert forall k :: 0 <= k < NODES ==>
        nodes[k] == Walked(Marked(Unselected(before.nodes[k], k), k, before, n), k, start, WalkLength(before, n), n, max);
    }
  }

  /** The first loop of `setSelected`: the "selected" class removed from each of the seven buttons. */
  method UnselectButtons(nodes: seq<TrackNode>) returns (ns: seq<TrackNode>)
    requires |nodes| == NODES
    ensures |ns| == NODES
    ensures forall k :: 0 <= k < NODES ==> ns[k] == Unselected(nodes[k], k)
    ensures forall k :: 0 <= k < NODES && IsButton(k) ==> !ns[k].selected
  {
    ns := nodes;
    for i := 0 to 7
      invariant |ns| == NODES
      invariant forall k :: 0 <= k < NODES ==>
        ns[k] == if IsButton(k) && ButtonIndex(k) < i then Unselected(nodes[k], k) else nodes[k]
    {
      var k := ButtonNode(i);
      ns := ns[k := ns[k].(selected := false)];
    }
  }

  /** The value loop of `setSelected`: len nodes from buttons[1] take the values start, start + 1, ... */
  method WalkValues(marked: seq<TrackNode>, start: int, len: nat, n: int, max: int) returns (ns: seq<TrackNode>)
    requires |marked| == NODES && len <= 6
    ensures |ns| == NODES
    ensures forall k :: 0 <= k < NODES ==> ns[k] == Walked(marked[k], k, start, len, n, max)
    ensures forall k :: 2 <= k < 2 + len ==> ns[k].value == Some(start + k - 2) && (ns[k].hidden <==> start + k - 2 > max - 1)
  {
    ns := marked;
    for i := 0 to len
      invariant |ns| == NODES
      invariant forall k :: 0 <= k < NODES ==> ns[k] == Walked(marked[k], k, start, i, n, max)
    {
      var v := start + i;
      ns := ns[2 + i := ns[2 + i].(value := Some(v), hidden := v > max - 1, selected := ns[2 + i].selected || v == n)];
    }
  }

  // ----- The viewer -----

  /** A multipage-view element: its data, filtered view, page size, current page, filter store, rows and page track. */
  class Viewer<T> {
    var data: Option<seq<T>>
    var filtered: Option<seq<T>>
    var size: nat
    var page: int
    var store: Store<T>
    var rows: seq<Row<T>>
    /** The element's `rows` attribute, None while it is absent. */
    var rowsAttribute: Option<int>
    const track: PageTrack

    ghost predicate Valid()
      reads this, track
    {
      track.Valid() && UniqueKeys(store)
    }

    /** `dataView`: the filtered view, else the data, else []. */
    function DataView(): seq<T>
      reads this
    {
      if filtered.Some? then filtered.value else data.GetOr([])
    }

    function Pages(): nat
      reads this
    {
      PageCount(|DataView()|, size)
    }

    /** What `update` leaves after it ran on a track in state `before` with rows `oldRows`. */
    ghost predicate Shown(before: TrackState, oldRows: seq<Row<T>>)
      reads this, track
    {
      && |before.nodes| == NODES
      && track.State() == AfterSelected(AfterLimits(before, 1, Pages()), page)
      && RowsAfter(oldRows, rows, DataView(), WindowStart(page, size, |DataView()|), size)
    }

    constructor ()
      ensures Valid() && fresh(track)
      ensures data.None? && filtered.None? && size == 10 && page == 1 && store == [] && rows == [] && rowsAttribute.None?
    {
      data, filtered, size, page, store, rows, rowsAttribute := None, None, 10, 1, [], [], None;
      track := new PageTrack();
    }

    /** `update`: the track set to [1, pageCount] and the page, then the rows of the window formatted. */
    method Update()
      requires Valid()
      modifies this`rows, track
      ensures Valid()
      ensures Shown(old(track.State()), old(rows))
    {
      var view := DataView();
      var start := WindowStart(page, size, |view|);
      WindowInside(page, size, |view|);
      track.SetViewLimits(1, Pages());
      track.SetSelected(page);
      rows := FormatRows(rows, view, start, size);
    }

    /** `setView(p)`: the page clamped into [1, pageCount], then `update`. */
    method SetView(p: int)
      requires Valid()
      modifies this`page, this`rows, track
      ensures Valid()
      ensures page == ClampPage(p, Pages())
      ensures Shown(old(track.State()), old(rows))
    {
      page := ClampPage(p, Pages());
      Update();
    }

    method Next()
      requires Valid()
      modifies this`page, this`rows, track
      ensures Valid()
      ensures page == ClampPage(old(page) + 1, Pages())
      ensures Shown(old(track.State()), old(rows))
    {
      SetView(page + 1);
    }

    method Previous()
      requires Valid()
      modifies this`page, this`rows, track
      ensures Valid()
      ensures page == ClampPage(old(page) - 1, Pages())
      ensures Shown(old(track.State()), old(rows))
    {
      SetView(page - 1);
    }

    /** `forData(array)`: a non-array becomes []; the filtered view is not recomputed; back to page 1. */
    method ForData(arg: Option<seq<T>>)
      requires Valid()
      modifies this`data, this`page, this`rows, track
      ensures Valid()
      ensures data == Some(arg.GetOr([])) && filtered == old(filtered) && page == 1
      ensures Shown(old(track.State()), old(rows))
    {
      data := Some(arg.GetOr([]));
      SetView(1);
    }

    /**
     * `setRows(n)`: n truncated to a 32-bit integer becomes the size unless
     * negative and is written to the `rows` attribute; every row is removed,
     * first to last; back to page 1.
     */
    method SetRows(n: int)
      requires Valid()
      modifies this`size, this`page, this`rows, this`rowsAttribute, track
      ensures Valid()
      ensures size == if ToInt32(n) >= 0 then ToInt32(n) else old(size)
      ensures rowsAttribute == Some(ToInt32(n))
      ensures page == 1
      ensures Shown(old(track.State()), [])
    {
      var m := ToInt32(n);
      if m >= 0 {
        size := m;
      }
      rowsAttribute := Some(m);
      while |rows| > 0
        modifies this`rows
        decreases |rows|
      {
        rows := rows[1..];
      }
      SetView(1);
    }

    /** `execFilters`: `filtered` recomputed from the data, or a TypeError when a filter exists and the data is null. */
    method ExecFilters() returns (threw: bool)
      modifies this`filtered
      ensures threw <==> FilteredView(data, store).None?
      ensures threw ==> filtered == old(filtered)
      ensures !threw ==> filtered == FilteredView(data, store).value
    {
      if |store| == 0 {
        filtered := None;
        return false;
      }
      if data.None? {
        return true;
      }
      filtered := Some(FilterSeq(data.value, store));
      return false;
    }

    /** `filters.add(def)`; a TypeError from `execFilters` ends it before `setView(1)`. */
    method FilterAdd(def: Option<FilterDef<T>>) returns (threw: bool)
      requires Valid()
      modifies this`store, this`filtered, this`page, this`rows, track
      ensures Valid()
      ensures store == StoreAfterAdd(old(store), def)
      ensures threw <==> FilteredView(data, store).None?
      ensures threw ==> filtered == old(filtered) && page == old(page) && rows == old(rows) && track.State() == old(track.State())
      ensures !threw ==> filtered == FilteredView(data, store).value && page == 1 && Shown(old(track.State()), old(rows))
    {
      AddStoresOrDeletes(store, def, "");
      store := StoreAfterAdd(store, def);
      threw := ExecFilters();
      if !threw {
        SetView(1);
      }
    }

    /** `filters.clear(id)`. */
    method FilterClear(id: Option<string>) returns (threw: bool)
      requires Valid()
      modifies this`store, this`filtered, this`page, this`rows, track
      ensures Valid()
      ensures store == StoreAfterClear(old(store), id)
      ensures threw <==> FilteredView(data, store).None?
      ensures threw ==> filtered == old(filtered) && page == old(page) && rows == old(rows) && track.State() == old(track.State())
      ensures !threw ==> filtered == FilteredView(data, store).value && page == 1 && Shown(old(track.State()), old(rows))
    {
      if id.Some? && id.value != "" {
        MapDeleteUnique(store, id.value);
        store := MapDelete(store, id.value);
      } else {
        store := [];
      }
      threw := ExecFilters();
      if !threw {
        SetView(1);
      }
    }

    /** `filters.set(def)`: the store cleared, then `add(def)` when `def.fn` is truthy. */
    method FilterSet(def: Option<FilterDef<T>>) returns (threw: bool)
      requires Valid()
      modifies this`store, this`filtered, this`page, this`rows, track
      ensures Valid()
      ensures store == StoreAfterSet(def)
      ensures threw <==> FilteredView(data, store).None?
      ensures threw ==> filtered == old(filtered) && page == old(page) && rows == old(rows) && track.State() == old(track.State())
      ensures !threw ==> filtered == FilteredView(data, store).value && page == 1 && Shown(old(track.State()), old(rows))
    {
      store := [];
      if def.Some? && !def.value.fn.Absent? {
        threw := FilterAdd(def);
        return;
      }
      threw := ExecFilters();
      if !threw {
        SetView(1);
      }
    }

    /**
     * `sort(arg)`: the current view sorted in place (the filtered copy when
     * there is one, else the data), then back to page 1; `str` is the items'
     * string conversion the default order uses. A comparator that is
     * neither undefined nor a function throws before anything changes.
     */
    method Sort(arg: SortArg<T>, str: T -> string) returns (threw: bool)
      requires Valid()
      modifies this`data, this`filtered, this`page, this`rows, track
      ensures Valid()
      ensures threw <==> arg.NotCallable?
      ensures threw ==>
        data == old(data) && filtered == old(filtered) && page == old(page) && rows == old(rows) && track.State() == old(track.State())
      ensures !threw ==> DataView() == SortBy(old(DataView()), Comparison(arg, str).value)
      ensures old(filtered).Some? ==> data == old(data)
      ensures old(filtered).None? ==> filtered == old(filtered)
      ensures !threw ==> page == 1 && Shown(old(track.State()), old(rows))
    {
      var cmp := Comparison(arg, str);
      if cmp.None? {
        return true;
      }
      threw := false;
      if filtered.Some? {
        filtered := Some(SortBy(filtered.value, cmp.value));
      } else if data.Some? {
        data := Some(SortBy(data.value, cmp.value));
      }
      SetView(1);
    }
  }

  /** The row loop of `update`: rows below min(size, len) show the window, the rest up to size are hidden. */
  method FormatRows<T>(rows: seq<Row<T>>, view: seq<T>, start: int, size: nat) returns (acc: seq<Row<T>>)
    requires 0 <= start && start + Min(size, |view|) <= |view|
    ensures RowsAfter(rows, acc, view, start, size)
  {
    acc := rows;
    for i := 0 to size
      invariant RowsAfter(rows, acc, view, start, i)
    {
      if i < |view| {
        var row := Row(view[start + i], false);
        if i < |acc| {
          acc := acc[i := row];
        } else {
          acc := acc + [row];
        }
      } else if i < |acc| {
        acc := acc[i := acc[i].(hidden := true)];
      }
    }
  }

  /** The window shown on any page holds min(size, len) items of the view, starting at the window start. */
  lemma {:induction false} UpdateShowsWindow<T>(before: seq<Row<T>>, after: seq<Row<T>>, view: seq<T>, page: int, size: nat)
    requires WindowStart(page, size, |view|) + Min(size, |view|) <= |view|
    requires RowsAfter(before, after, view, WindowStart(page, size, |view|), size)
    ensures |after| >= Min(size, |view|)
    ensures forall j :: 0 <= j < Min(size, |view|) ==>
      after[j] == Row(view[WindowStart(page, size, |view|) + j], false)
    ensures forall j :: Min(size, |view|) <= j < |after| ==> after[j].hidden || j >= size
  {
  }

  /** After any `update`, the track's limits are 1 and the page count. */
  lemma {:induction false} UpdateTrackLimits(s: TrackState, pages: nat, page: int)
    requires |s.nodes| == NODES && pages >= 1 && pages < TWO_31
    ensures var r := AfterSelected(AfterLimits(s, 1, pages), page); r.min == 1 && r.max == pages
  {
    ToInt32InRange(1);
    ToInt32InRange(pages);
  }
}
