/**
  * What analyze-stores.js and find-inactive-stores.js share: which files of
  * the scraped-stores directory they look at, and what reading one of those
  * files can give. `JSON.parse` itself is not modelled: a file's content is
  * given already parsed, down to the fields of its `store` object.
  */
module StoreFiles {
  import opened Text

  const StorePrefix := "iheartjane-store-"
  const JsonSuffix := ".json"

  /** A directory entry both scripts analyse. */
  predicate IsStoreFile(name: string) {
    EndsWith(name, JsonSuffix) && StartsWith(name, StorePrefix)
  }

  /** `names.filter(file => file.endsWith('.json'))`. */
  function JsonFiles(names: seq<string>): seq<string> {
    if |names| == 0 then []
    else (if EndsWith(names[0], JsonSuffix) then [names[0]] else []) + JsonFiles(names[1..])
  }

  /** `names.filter(file => file.startsWith('iheartjane-store-'))`. */
  function PrefixedFiles(names: seq<string>): seq<string> {
    if |names| == 0 then []
    else (if StartsWith(names[0], StorePrefix) then [names[0]] else []) + PrefixedFiles(names[1..])
  }

  /** The two filters one after the other, as both scripts apply them. */
  function StoreFileNames(listing: seq<string>): seq<string> {
    PrefixedFiles(JsonFiles(listing))
  }

  /** The filters keep, in their order, exactly the entries of the listing that pass both tests. */
  function KeptInOrder(listing: seq<string>): seq<string> {
    if |listing| == 0 then []
    else (if IsStoreFile(listing[0]) then [listing[0]] else []) + KeptInOrder(listing[1..])
  }

  lemma {:induction false} PrefixedFilesConcat(a: seq<string>, b: seq<string>)
    ensures PrefixedFiles(a + b) == PrefixedFiles(a) + PrefixedFiles(b)
  {
    if |a| > 0 {
      assert (a + b)[1..] == a[1..] + b;
      PrefixedFilesConcat(a[1..], b);
    } else {
      assert a + b == b;
    }
  }

  /** Filtering by suffix and then by prefix is filtering once by both. */
  lemma {:induction false} StoreFileNamesIsOneFilter(listing: seq<string>)
    ensures StoreFileNames(listing) == KeptInOrder(listing)
  {
    if |listing| > 0 {
      StoreFileNamesIsOneFilter(listing[1..]);
      var head := if EndsWith(listing[0], JsonSuffix) then [listing[0]] else [];
      PrefixedFilesConcat(head, JsonFiles(listing[1..]));
      if EndsWith(listing[0], JsonSuffix) {
        assert PrefixedFiles(head) == (if StartsWith(listing[0], StorePrefix) then [listing[0]] else []) + PrefixedFiles([]);
      }
    }
  }

  /** A name is kept exactly when it is in the listing and passes both tests; nothing is added. */
  lemma {:induction false} StoreFileNamesMembers(listing: seq<string>)
    ensures forall name :: name in StoreFileNames(listing) <==> name in listing && IsStoreFile(name)
    ensures |StoreFileNames(listing)| <= |listing|
  {
    StoreFileNamesIsOneFilter(listing);
    KeptInOrderMembers(listing);
  }

  lemma {:induction false} KeptInOrderMembers(listing: seq<string>)
    ensures forall name :: name in KeptInOrder(listing) <==> name in listing && IsStoreFile(name)
    ensures |KeptInOrder(listing)| <= |listing|
  {
    if |listing| > 0 {
      KeptInOrderMembers(listing[1..]);
      assert listing == [listing[0]] + listing[1..];
    }
  }

  /**
    * A JSON value as the scripts see it through a property access: absent
    * (`undefined`), `null`, a boolean, an integer, a string, or an object or
    * array.
    */
  datatype Value = Missing | Null | Bool(b: bool) | Number(n: int) | Text(s: string) | Compound

  /** JavaScript truthiness: `undefined`, `null`, `false`, `0` and `""` are falsy. */
  predicate Truthy(v: Value) {
    match v
    case Missing => false
    case Null => false
    case Bool(b) => b
    case Number(n) => n != 0
    case Text(s) => s != ""
    case Compound => true
  }

  /** The fields of `data.store` the scripts read. */
  datatype StoreFields = StoreFields(
    id: Value,
    name: Value,
    city: Value,
    state: Value,
    productCount: Value,
    recreational: Value,
    medical: Value)

  /**
    * What reading and parsing one file gives: an error (the file could not
    * be read, was not JSON, or was `null`), or a document whose `store` is
    * truthy (`Some`) or not (`None`).
    */
  datatype FileContent = Unusable(message: string) | Parsed(store: Option<StoreFields>)

  /** A store file and what reading it gave. */
  datatype StoreFile = StoreFile(name: string, content: FileContent)

  /** `product_count === 0`: the number zero, and nothing else. */
  predicate HasNoProducts(store: StoreFields) {
    store.productCount == Number(0)
  }

  /** `data.store && data.store.product_count === 0`, for a file that parsed. */
  predicate IsInactiveFile(f: StoreFile) {
    f.content.Parsed? && f.content.store.Some? && HasNoProducts(f.content.store.value)
  }

  /** The files of the listing paired with what reading each one gives. */
  function ReadAll(names: seq<string>, read: string -> FileContent): (files: seq<StoreFile>)
    ensures |files| == |names|
    ensures forall k :: 0 <= k < |names| ==> files[k] == StoreFile(names[k], read(names[k]))
  {
    seq(|names|, k requires 0 <= k < |names| => StoreFile(names[k], read(names[k])))
  }

  /**
    * Both scripts read exactly the store files of the listing: every file
    * read is a store file from the listing, holding what reading that name
    * gives, and every store file in the listing is read.
    */
  lemma ReadStoreFiles(listing: seq<string>, read: string -> FileContent)
    ensures var files := ReadAll(StoreFileNames(listing), read);
            && (forall f :: f in files ==> f.name in listing && IsStoreFile(f.name) && f.content == read(f.name))
            && (forall name :: name in listing && IsStoreFile(name) ==> StoreFile(name, read(name)) in files)
  {
    var names := StoreFileNames(listing);
    var files := ReadAll(names, read);
    StoreFileNamesMembers(listing);
    forall f | f in files
      ensures f.name in listing && IsStoreFile(f.name) && f.content == read(f.name)
    {
      var k :| 0 <= k < |files| && files[k] == f;
      assert f.name == names[k] && names[k] in names;
    }
    forall name | name in listing && IsStoreFile(name)
      ensures StoreFile(name, read(name)) in files
    {
      assert name in names;
      var k :| 0 <= k < |names| && names[k] == name;
      assert files[k] == StoreFile(name, read(name));
    }
  }
}
