/**
  * analyze-stores.js: every store file of the scraped-stores directory is
  * read once, in listing order, and its store goes into the buckets of
  * `storeData`: inactive (no products), active recreational, active medical,
  * a count of active stores per state, and one error line per file that
  * could not be read or parsed. The states are then ranked by their count.
  */
module AnalyzeStores {
  import opened Text
  import opened StoreFiles

  /** The record the script builds from a file's `store` object. */
  datatype Store = Store(
    file: string,
    id: Value,
    name: Value,
    city: Value,
    state: Value,
    productCount: Value,
    recreational: Value,
    medical: Value)

  function StoreOf(file: string, fields: StoreFields): Store {
    Store(file, fields.id, fields.name, fields.city, fields.state,
          fields.productCount, fields.recreational, fields.medical)
  }

  /** `store.product_count === 0`. */
  predicate IsInactive(r: Store) {
    r.productCount == Number(0)
  }

  predicate IsActive(r: Store) {
    !IsInactive(r)
  }

  /** An active store whose `recreational` is exactly `true`. */
  predicate IsActiveRecreational(r: Store) {
    IsActive(r) && r.recreational == Bool(true)
  }

  /** An active store whose `medical` is exactly `true`. */
  predicate IsActiveMedical(r: Store) {
    IsActive(r) && r.medical == Bool(true)
  }

  const UnknownState := "Unknown"

  /**
    * `store.state || 'Unknown'` used as a property name: a falsy state is
    * counted under "Unknown", a string under itself, and any other truthy
    * value under its string form.
    */
  function StateKey(state: Value): (key: string)
    ensures !Truthy(state) ==> key == UnknownState
    ensures Truthy(state) && state.Text? ==> key == state.s
  {
    match state
    case Missing => UnknownState
    case Null => UnknownState
    case Bool(b) => if b then "true" else UnknownState
    case Number(n) => if n == 0 then UnknownState else IntToString(n)
    case Text(s) => if s == "" then UnknownState else s
    case Compound => "[object Object]"
  }

  function ErrorMessage(file: string, message: string): string {
    "Error reading " + file + ": " + message
  }

  datatype Buckets = Buckets(
    inactive: seq<Store>,
    activeRecreational: seq<Store>,
    activeMedical: seq<Store>,
    activeByState: map<string, nat>,
    errors: seq<string>)

  const NoBuckets := Buckets([], [], [], map[], [])

  /** `if (!m[key]) m[key] = 0; m[key]++`. */
  function Bump(m: map<string, nat>, key: string): map<string, nat> {
    var before := if key in m && m[key] != 0 then m[key] else 0;
    m[key := before + 1]
  }

  /** What the `forEach` callback does with one file. */
  function Categorize(b: Buckets, f: StoreFile): Buckets {
    match f.content
    case Unusable(message) => b.(errors := b.errors + [ErrorMessage(f.name, message)])
    case Parsed(None) => b
    case Parsed(Some(fields)) =>
      var store := StoreOf(f.name, fields);
      if IsInactive(store) then b.(inactive := b.inactive + [store])
      else
        b.(activeRecreational := b.activeRecreational + (if IsActiveRecreational(store) then [store] else []),
           activeMedical := b.activeMedical + (if IsActiveMedical(store) then [store] else []),
           activeByState := Bump(b.activeByState, StateKey(store.state)))
  }

  /** The buckets after the callback has run on every file, in order. */
  function Analysis(files: seq<StoreFile>): Buckets {
    if |files| == 0 then NoBuckets
    else Categorize(Analysis(files[..|files| - 1]), files[|files| - 1])
  }

  /** The `storeData` object. */
  class StoreData {
    var inactive: seq<Store>
    var activeRecreational: seq<Store>
    var activeMedical: seq<Store>
    var activeByState: map<string, nat>
    var errors: seq<string>

    function Contents(): Buckets
      reads this
    {
      Buckets(inactive, activeRecreational, activeMedical, activeByState, errors)
    }

    constructor()
      ensures Contents() == NoBuckets
    {
      inactive, activeRecreational, activeMedical, activeByState, errors := [], [], [], map[], [];
    }

    /**
      * One file: an unreadable one adds its error line; a document without
      * a store adds nothing; a store with no products is inactive; any other
      * store is counted under its state, and is recreational or medical (or
      * both, or neither) by its flags.
      */
    method Add(f: StoreFile)
      modifies this
      ensures Contents() == Categorize(old(Contents()), f)
    {
      match f.content {
        case Unusable(message) =>
          errors := errors + [ErrorMessage(f.name, message)];
        case Parsed(None) =>
        case Parsed(Some(fields)) =>
          var store := StoreOf(f.name, fields);
          if store.productCount == Number(0) {
            inactive := inactive + [store];
          } else {
            AddActive(store);
          }
      }
    }

    /** An active store: the recreational and medical lists and the count of its state. */
    method AddActive(store: Store)
      requires IsActive(store)
      modifies this
      ensures activeRecreational == old(activeRecreational) + (if IsActiveRecreational(store) then [store] else [])
      ensures activeMedical == old(activeMedical) + (if IsActiveMedical(store) then [store] else [])
      ensures activeByState == Bump(old(activeByState), StateKey(store.state))
      ensures inactive == old(inactive) && errors == old(errors)
    {
      if store.recreational == Bool(true) {
        activeRecreational := activeRecreational + [store];
      }
      if store.medical == Bool(true) {
        activeMedical := activeMedical + [store];
      }
      var location := StateKey(store.state);
      ghost var counts := activeByState;
      if location !in activeByState || activeByState[location] == 0 {
        activeByState := activeByState[location := 0];
        UpdateTwice(counts, location, 0, activeByState[location] + 1);
      }
      activeByState := activeByState[location := activeByState[location] + 1];
    }
  }

  /** A second store under the same key replaces the first. */
  lemma UpdateTwice(m: map<string, nat>, key: string, first: nat, second: nat)
    ensures m[key := first][key := second] == m[key := second]
  {
  }

  /** The script: keep the store files of the listing, then categorise each one as `read` gives it. */
  method Analyze(listing: seq<string>, read: string -> FileContent) returns (data: StoreData)
    ensures data.Contents() == Analysis(ReadAll(StoreFileNames(listing), read))
  {
    var names := StoreFileNames(listing);
    data := new StoreData();
    for k := 0 to |names|
      invariant data.Contents() == Analysis(ReadAll(names[..k], read))
    {
      var files := ReadAll(names[..k + 1], read);
      assert files[..k] == ReadAll(names[..k], read);
      data.Add(StoreFile(names[k], read(names[k])));
    }
    assert names[..|names|] == names;
  }

  /** The store a file contributes: one when it parsed and its `store` is truthy, none otherwise. */
  function RecordOf(f: StoreFile): (r: seq<Store>)
    ensures |r| <= 1
  {
    if f.content.Parsed? && f.content.store.Some? then [StoreOf(f.name, f.content.store.value)] else []
  }

  /** The stores of the files that parsed and had a truthy `store`, in file order. */
  function Records(files: seq<StoreFile>): seq<Store> {
    if |files| == 0 then [] else Records(files[..|files| - 1]) + RecordOf(files[|files| - 1])
  }

  /** The elements of `s` that satisfy `p`, in order. */
  function Filter(s: seq<Store>, p: Store -> bool): seq<Store> {
    if |s| == 0 then []
    else Filter(s[..|s| - 1], p) + (if p(s[|s| - 1]) then [s[|s| - 1]] else [])
  }

  lemma FilterAppend(s: seq<Store>, t: seq<Store>, p: Store -> bool)
    requires |t| <= 1
    ensures Filter(s + t, p) == Filter(s, p) + Filter(t, p)
  {
    if |t| == 0 {
      assert s + t == s;
    } else {
      assert (s + t)[..|s|] == s;
    }
  }

  lemma {:induction false} FilterMembers(s: seq<Store>, p: Store -> bool)
    ensures forall r :: r in Filter(s, p) <==> r in s && p(r)
  {
    if |s| > 0 {
      FilterMembers(s[..|s| - 1], p);
      assert s == s[..|s| - 1] + [s[|s| - 1]];
    }
  }

  /** How many of the files could not be read or parsed. */
  function CountUnusable(files: seq<StoreFile>): nat {
    if |files| == 0 then 0
    else CountUnusable(files[..|files| - 1]) + (if files[|files| - 1].content.Unusable? then 1 else 0)
  }

  /**
    * Each list bucket is the order-preserving selection, from all the
    * stores read, of those its rule admits; there is one error per unusable
    * file.
    */
  lemma {:induction false} AnalysisBuckets(files: seq<StoreFile>)
    ensures Analysis(files).inactive == Filter(Records(files), IsInactive)
    ensures Analysis(files).activeRecreational == Filter(Records(files), IsActiveRecreational)
    ensures Analysis(files).activeMedical == Filter(Records(files), IsActiveMedical)
    ensures |Analysis(files).errors| == CountUnusable(files)
  {
    if |files| > 0 {
      var prefix, last := files[..|files| - 1], files[|files| - 1];
      AnalysisBuckets(prefix);
      assert Analysis(files) == Categorize(Analysis(prefix), last);
      CategorizeStep(Analysis(prefix), last);
      FilterAppend(Records(prefix), RecordOf(last), IsInactive);
      FilterAppend(Records(prefix), RecordOf(last), IsActiveRecreational);
      FilterAppend(Records(prefix), RecordOf(last), IsActiveMedical);
    }
  }

  /** One file adds its store to each list bucket whose rule admits it, and one error line if it is unusable. */
  lemma CategorizeStep(b: Buckets, f: StoreFile)
    ensures Categorize(b, f).inactive == b.inactive + Filter(RecordOf(f), IsInactive)
    ensures Categorize(b, f).activeRecreational == b.activeRecreational + Filter(RecordOf(f), IsActiveRecreational)
    ensures Categorize(b, f).activeMedical == b.activeMedical + Filter(RecordOf(f), IsActiveMedical)
    ensures |Categorize(b, f).errors| == |b.errors| + (if f.content.Unusable? then 1 else 0)
  {
    if f.content.Parsed? && f.content.store.Some? {
      var r := StoreOf(f.name, f.content.store.value);
      assert RecordOf(f) == [r];
      assert Filter([r], IsInactive) == if IsInactive(r) then [r] else [] by {
        assert [r][..0] == [];
      }
      assert Filter([r], IsActiveRecreational) == if IsActiveRecreational(r) then [r] else [] by {
        assert [r][..0] == [];
      }
      assert Filter([r], IsActiveMedical) == if IsActiveMedical(r) then [r] else [] by {
        assert [r][..0] == [];
      }
    }
  }

  /** A store with no products is in no active bucket, and an active one is not inactive. */
  lemma InactiveExclusive(files: seq<StoreFile>)
    ensures forall r :: r in Analysis(files).inactive ==>
              r !in Analysis(files).activeRecreational && r !in Analysis(files).activeMedical
    ensures forall r :: r in Analysis(files).inactive <==> r in Records(files) && IsInactive(r)
  {
    AnalysisBuckets(files);
    FilterMembers(Records(files), IsInactive);
    FilterMembers(Records(files), IsActiveRecreational);
    FilterMembers(Records(files), IsActiveMedical);
  }

  /** How many active stores of `records` are counted under `key`. */
  function ActiveIn(records: seq<Store>, key: string): nat {
    if |records| == 0 then 0
    else
      var r := records[|records| - 1];
      ActiveIn(records[..|records| - 1], key) + (if IsActive(r) && StateKey(r.state) == key then 1 else 0)
  }

  lemma ActiveInAppend(s: seq<Store>, t: seq<Store>, key: string)
    requires |t| <= 1
    ensures ActiveIn(s + t, key) == ActiveIn(s, key) + ActiveIn(t, key)
  {
    if |t| == 0 {
      assert s + t == s;
    } else {
      assert (s + t)[..|s|] == s;
    }
  }

  function CountOf(m: map<string, nat>, key: string): nat {
    if key in m then m[key] else 0
  }

  /**
    * The state map holds, under each key, the number of active stores
    * counted under that key, and holds no key with a zero count.
    */
  lemma {:induction false} StateCounts(files: seq<StoreFile>, key: string)
    ensures CountOf(Analysis(files).activeByState, key) == ActiveIn(Records(files), key)
    ensures key in Analysis(files).activeByState <==> ActiveIn(Records(files), key) > 0
  {
    if |files| > 0 {
      var prefix, last := files[..|files| - 1], files[|files| - 1];
      StateCounts(prefix, key);
      ActiveInAppend(Records(prefix), RecordOf(last), key);
      var m := Analysis(prefix).activeByState;
      if key in m {
        assert m[key] > 0;
      }
    }
  }

  /** The sum of a map's counts. */
  ghost function Total(m: map<string, nat>): nat
    decreases |m.Keys|
  {
    if m == map[] then 0
    else
      var k :| k in m.Keys;
      m[k] + Total(m - {k})
  }

  /** Any key can be taken out first. */
  lemma TotalRemove(m: map<string, nat>, key: string)
    requires key in m
    ensures Total(m) == m[key] + Total(m - {key})
    decreases |m.Keys|
  {
    var k :| k in m.Keys && Total(m) == m[k] + Total(m - {k});
    if k != key {
      TotalRemove(m - {k}, key);
      TotalRemove(m - {key}, k);
      assert m - {k} - {key} == m - {key} - {k};
    }
  }

  /** Counting one more store adds one to the total. */
  lemma TotalBump(m: map<string, nat>, key: string)
    ensures Total(Bump(m, key)) == Total(m) + 1
  {
    var m' := Bump(m, key);
    TotalRemove(m', key);
    if key in m {
      TotalRemove(m, key);
      assert m' - {key} == m - {key};
    } else {
      assert m' - {key} == m;
    }
  }

  /** The number of active stores of `records`. */
  function ActiveCount(records: seq<Store>): nat {
    |Filter(records, IsActive)|
  }

  /** The state counts add up to the number of active stores. */
  lemma {:induction false} StateTotal(files: seq<StoreFile>)
    ensures Total(Analysis(files).activeByState) == ActiveCount(Records(files))
  {
    if |files| > 0 {
      var prefix, last := files[..|files| - 1], files[|files| - 1];
      StateTotal(prefix);
      FilterAppend(Records(prefix), RecordOf(last), IsActive);
      match last.content {
        case Unusable(_) =>
        case Parsed(None) =>
        case Parsed(Some(fields)) =>
          if !IsInactive(StoreOf(last.name, fields)) {
            TotalBump(Analysis(prefix).activeByState, StateKey(fields.state));
          }
      }
    }
  }

  /** `Object.entries(m)` when `order` is the order in which the object lists its keys. */
  function Entries(m: map<string, nat>, order: seq<string>): seq<(string, nat)>
    requires forall k :: 0 <= k < |order| ==> order[k] in m
  {
    if |order| == 0 then [] else [(order[0], m[order[0]])] + Entries(m, order[1..])
  }

  /** `order` names every key of `m` exactly once. */
  predicate ListsKeys(m: map<string, nat>, order: seq<string>) {
    && (forall k :: 0 <= k < |order| ==> order[k] in m)
    && (forall key :: key in m ==> key in order)
    && (forall i, j :: 0 <= i < j < |order| ==> order[i] != order[j])
  }

  function Sum(entries: seq<(string, nat)>): nat {
    if |entries| == 0 then 0 else entries[0].1 + Sum(entries[1..])
  }

  lemma {:induction false} EntriesTotal(m: map<string, nat>, order: seq<string>)
    requires ListsKeys(m, order)
    ensures Sum(Entries(m, order)) == Total(m)
    decreases |order|
  {
    if |order| == 0 {
      assert m.Keys == {};
    } else {
      var key := order[0];
      var rest := m - {key};
      assert ListsKeys(rest, order[1..]) by {
        forall k | k in rest
          ensures k in order[1..]
        {
          assert k in order && k != order[0];
        }
      }
      EntriesTotal(rest, order[1..]);
      EntriesSame(m, rest, order[1..]);
      TotalRemove(m, key);
    }
  }

  lemma {:induction false} EntriesSame(m: map<string, nat>, m': map<string, nat>, order: seq<string>)
    requires forall k :: 0 <= k < |order| ==> order[k] in m && order[k] in m' && m[order[k]] == m'[order[k]]
    ensures Entries(m, order) == Entries(m', order)
    decreases |order|
  {
    if |order| > 0 {
      EntriesSame(m, m', order[1..]);
    }
  }

  /** Entries ordered by count, largest first. */
  predicate ByCountDescending(entries: seq<(string, nat)>) {
    forall i, j :: 0 <= i < j < |entries| ==> entries[i].1 >= entries[j].1
  }

  /** Places `e` before the first entry whose count is not larger, so that it precedes equal counts that came after it. */
  function InsertByCount(e: (string, nat), sorted: seq<(string, nat)>): seq<(string, nat)> {
    if |sorted| == 0 || sorted[0].1 <= e.1 then [e] + sorted
    else [sorted[0]] + InsertByCount(e, sorted[1..])
  }

  /** `entries.sort(([,a], [,b]) => b - a)`: a stable sort by count, largest first. */
  function RankStates(entries: seq<(string, nat)>): seq<(string, nat)> {
    if |entries| == 0 then [] else InsertByCount(entries[0], RankStates(entries[1..]))
  }

  lemma {:induction false} InsertByCountPermutes(e: (string, nat), sorted: seq<(string, nat)>)
    ensures multiset(InsertByCount(e, sorted)) == multiset(sorted) + multiset{e}
    ensures Sum(InsertByCount(e, sorted)) == Sum(sorted) + e.1
  {
    if |sorted| > 0 && sorted[0].1 > e.1 {
      InsertByCountPermutes(e, sorted[1..]);
      assert sorted == [sorted[0]] + sorted[1..];
      assert ([sorted[0]] + InsertByCount(e, sorted[1..]))[1..] == InsertByCount(e, sorted[1..]);
    } else {
      assert ([e] + sorted)[1..] == sorted;
    }
  }

  lemma {:induction false} InsertByCountMembers(e: (string, nat), sorted: seq<(string, nat)>)
    ensures forall x :: x in InsertByCount(e, sorted) <==> x == e || x in sorted
  {
    if |sorted| > 0 && sorted[0].1 > e.1 {
      InsertByCountMembers(e, sorted[1..]);
      assert sorted == [sorted[0]] + sorted[1..];
    }
  }

  lemma {:induction false} InsertByCountSorted(e: (string, nat), sorted: seq<(string, nat)>)
    requires ByCountDescending(sorted)
    ensures ByCountDescending(InsertByCount(e, sorted))
  {
    if |sorted| > 0 && sorted[0].1 > e.1 {
      var tail := InsertByCount(e, sorted[1..]);
      assert ByCountDescending(tail) by {
        InsertByCountSorted(e, sorted[1..]);
      }
      assert forall k :: 0 <= k < |tail| ==> tail[k].1 <= sorted[0].1 by {
        InsertByCountMembers(e, sorted[1..]);
        forall k | 0 <= k < |tail|
          ensures tail[k].1 <= sorted[0].1
        {
          assert tail[k] in tail;
        }
      }
      var r := [sorted[0]] + tail;
      forall i, j | 0 <= i < j < |r|
        ensures r[i].1 >= r[j].1
      {
        assert r[j] == tail[j - 1];
        if i > 0 {
          assert r[i] == tail[i - 1];
        }
      }
    }
  }

  /** The ranking lists the same entries, largest count first, with the same total. */
  lemma {:induction false} RankStatesSorted(entries: seq<(string, nat)>)
    ensures ByCountDescending(RankStates(entries))
    ensures multiset(RankStates(entries)) == multiset(entries)
    ensures Sum(RankStates(entries)) == Sum(entries)
  {
    if |entries| > 0 {
      RankStatesSorted(entries[1..]);
      InsertByCountSorted(entries[0], RankStates(entries[1..]));
      InsertByCountPermutes(entries[0], RankStates(entries[1..]));
      assert entries == [entries[0]] + entries[1..];
    }
  }

  /** The ranked state counts add up to the number of active stores, whatever order the object lists its keys in. */
  lemma RankingTotal(files: seq<StoreFile>, order: seq<string>)
    requires ListsKeys(Analysis(files).activeByState, order)
    ensures Sum(RankStates(Entries(Analysis(files).activeByState, order))) == ActiveCount(Records(files))
  {
    var m := Analysis(files).activeByState;
    RankStatesSorted(Entries(m, order));
    EntriesTotal(m, order);
    StateTotal(files);
  }
}
