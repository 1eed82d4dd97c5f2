/**
  * find-inactive-stores.js: the store files of the scraped-stores directory
  * are read in listing order, and every file whose `store` has a
  * `product_count` of exactly 0 is listed. Files that cannot be read or
  * parsed are reported and skipped. The script then prints how many files
  * were checked, how many are inactive and how many are not.
  */
module FindInactiveStores {
  import opened Text
  import opened StoreFiles
  import AnalyzeStores

  /** The entry the script pushes for an inactive store. */
  datatype InactiveStore = InactiveStore(file: string, id: Value, name: Value, city: Value, state: Value)

  function EntryOf(file: string, store: StoreFields): InactiveStore {
    InactiveStore(file, store.id, store.name, store.city, store.state)
  }

  /** What a file adds to the list: its entry when it is inactive, nothing otherwise. */
  function ListedFor(f: StoreFile): (r: seq<InactiveStore>)
    ensures |r| <= 1
  {
    if IsInactiveFile(f) then [EntryOf(f.name, f.content.store.value)] else []
  }

  /** The list after the `forEach` callback has run on every file. */
  function InactiveList(files: seq<StoreFile>): seq<InactiveStore> {
    if |files| == 0 then [] else InactiveList(files[..|files| - 1]) + ListedFor(files[|files| - 1])
  }

  datatype Counts = Counts(inactive: nat, checked: nat, active: int)

  /**
    * The script: keep the store files of the listing, push an entry for each
    * one whose store has no products, then report the counts; the active
    * count is what is left of the files checked.
    */
  method FindInactive(listing: seq<string>, read: string -> FileContent)
    returns (inactiveStores: seq<InactiveStore>, counts: Counts)
    ensures inactiveStores == InactiveList(ReadAll(StoreFileNames(listing), read))
    ensures counts.checked == |StoreFileNames(listing)|
    ensures counts.inactive == |inactiveStores| <= counts.checked
    ensures counts.active == counts.checked - counts.inactive
  {
    var files := StoreFileNames(listing);
    inactiveStores := [];
    for k := 0 to |files|
      invariant inactiveStores == InactiveList(ReadAll(files[..k], read))
      invariant |inactiveStores| <= k
    {
      var file := files[k];
      var content := read(file);
      InactiveListStep(files, read, k);
      if content.Parsed? && content.store.Some? && content.store.value.productCount == Number(0) {
        inactiveStores := inactiveStores + [EntryOf(file, content.store.value)];
      }
    }
    assert files[..|files|] == files;
    counts := Counts(|inactiveStores|, |files|, |files| - |inactiveStores|);
  }

  /** Reading one more file of the listing adds what that file lists. */
  lemma InactiveListStep(names: seq<string>, read: string -> FileContent, k: nat)
    requires k < |names|
    ensures InactiveList(ReadAll(names[..k + 1], read))
            == InactiveList(ReadAll(names[..k], read)) + ListedFor(StoreFile(names[k], read(names[k])))
  {
    var upTo := ReadAll(names[..k + 1], read);
    assert upTo[..k] == ReadAll(names[..k], read);
  }

  /**
    * A file is listed exactly when it parsed and its store has no products:
    * every inactive file's entry is in the list, and every entry comes from
    * an inactive file (so unreadable files never are).
    */
  lemma {:induction false} InactiveListMembers(files: seq<StoreFile>)
    ensures forall k :: 0 <= k < |files| && IsInactiveFile(files[k]) ==>
              EntryOf(files[k].name, files[k].content.store.value) in InactiveList(files)
    ensures forall e :: e in InactiveList(files) ==>
              exists k :: 0 <= k < |files| && IsInactiveFile(files[k]) && e == EntryOf(files[k].name, files[k].content.store.value)
    ensures |InactiveList(files)| <= |files|
  {
    if |files| > 0 {
      var prefix, last := files[..|files| - 1], files[|files| - 1];
      InactiveListMembers(prefix);
      assert forall k :: 0 <= k < |prefix| ==> files[k] == prefix[k];
    }
  }

  /** Distinct file names: no two entries of the list name the same file. */
  lemma {:induction false} InactiveListOncePerFile(files: seq<StoreFile>)
    requires forall i, j :: 0 <= i < j < |files| ==> files[i].name != files[j].name
    ensures var list := InactiveList(files);
            forall i, j :: 0 <= i < j < |list| ==> list[i].file != list[j].file
  {
    if |files| > 0 {
      var prefix, last := files[..|files| - 1], files[|files| - 1];
      InactiveListOncePerFile(prefix);
      InactiveListMembers(prefix);
      var before := InactiveList(prefix);
      var list := InactiveList(files);
      if IsInactiveFile(last) {
        forall i | 0 <= i < |before|
          ensures before[i].file != last.name
        {
          assert before[i] in before;
          var k :| 0 <= k < |prefix| && IsInactiveFile(prefix[k]) && before[i] == EntryOf(prefix[k].name, prefix[k].content.store.value);
          assert prefix[k] == files[k];
        }
        forall i, j | 0 <= i < j < |list|
          ensures list[i].file != list[j].file
        {
          if j == |list| - 1 {
            assert list[i] == before[i];
          } else {
            assert list[i] == before[i] && list[j] == before[j];
          }
        }
      }
    }
  }

  /** How many files are not listed: unreadable ones, ones without a store, and active stores alike. */
  function NotInactive(files: seq<StoreFile>): nat {
    if |files| == 0 then 0
    else NotInactive(files[..|files| - 1]) + (if IsInactiveFile(files[|files| - 1]) then 0 else 1)
  }

  /** The reported active count is the number of files that are not inactive, whatever the reason. */
  lemma {:induction false} ActiveCountIsEverythingElse(files: seq<StoreFile>)
    ensures |files| - |InactiveList(files)| == NotInactive(files)
  {
    if |files| > 0 {
      ActiveCountIsEverythingElse(files[..|files| - 1]);
    }
  }

  function EntriesOf(stores: seq<AnalyzeStores.Store>): (r: seq<InactiveStore>)
    ensures |r| == |stores|
  {
    if |stores| == 0 then []
    else
      var s := stores[|stores| - 1];
      EntriesOf(stores[..|stores| - 1]) + [InactiveStore(s.file, s.id, s.name, s.city, s.state)]
  }

  lemma EntriesOfAppend(a: seq<AnalyzeStores.Store>, s: AnalyzeStores.Store)
    ensures EntriesOf(a + [s]) == EntriesOf(a) + [InactiveStore(s.file, s.id, s.name, s.city, s.state)]
  {
    assert (a + [s])[..|a|] == a;
  }

  /**
    * Both scripts agree on which stores are inactive: this list is
    * analyze-stores.js's `inactive` bucket, entry for entry, in the same
    * order.
    */
  lemma {:induction false} SameInactiveStores(files: seq<StoreFile>)
    ensures InactiveList(files) == EntriesOf(AnalyzeStores.Analysis(files).inactive)
  {
    if |files| > 0 {
      var prefix, last := files[..|files| - 1], files[|files| - 1];
      SameInactiveStores(prefix);
      var before := AnalyzeStores.Analysis(prefix);
      assert AnalyzeStores.Analysis(files) == AnalyzeStores.Categorize(before, last);
      assert InactiveList(files) == InactiveList(prefix) + ListedFor(last);
      if IsInactiveFile(last) {
        var r := AnalyzeStores.StoreOf(last.name, last.content.store.value);
        assert AnalyzeStores.Categorize(before, last).inactive == before.inactive + [r];
        EntriesOfAppend(before.inactive, r);
      } else {
        assert AnalyzeStores.Categorize(before, last).inactive == before.inactive;
      }
    }
  }
}
