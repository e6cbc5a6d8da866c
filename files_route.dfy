/**
 * The `GET /api/files` handler: list the bucket, keep the files whose name
 * contains the search term ignoring case, fetch their metadata, and return one
 * page of the result together with the page count.
 *
 * The storage bucket is an input: `getFiles()` is `Option<seq<BucketFile>>`
 * (`None` when the listing call fails) and each file carries the outcome of its
 * own `getMetadata()` call (`None` when that call fails).
 */
module FilesRoute {
  import opened Text
  import opened Paging

  datatype Option<T> = None | Some(value: T)

  /** What `getMetadata()` reports about one object. */
  datatype Metadata = Metadata(updated: string, size: nat)

  /** One object of the bucket's enumeration, with the outcome of its metadata fetch. */
  datatype BucketFile = BucketFile(name: string, metadata: Option<Metadata>)

  /** One entry of the response's `files` array. */
  datatype FileRecord = FileRecord(name: string, updatedAt: string, size: nat)

  /** The query parameters `page` and `search`, `None` when absent or empty. */
  datatype Query = Query(page: Option<int>, search: Option<string>)

  /** The JSON body: a page of files and the page count, or the 500 error. */
  datatype Response =
    | Listing(files: seq<FileRecord>, totalPages: nat)
    | ServerError(status: nat, error: string)

  const INTERNAL_ERROR: nat := 500
  const FETCH_ERROR: string := "Error fetching files"

  predicate ValidQuery(q: Query) {
    q.page.None? || q.page.value >= 1
  }

  /** The requested page, 1 when the parameter is absent. */
  function PageNumber(q: Query): (r: nat)
    requires ValidQuery(q)
    ensures r >= 1
    ensures q.page.None? ==> r == 1
  {
    match q.page
    case None => 1
    case Some(p) => p
  }

  /** The search term, empty when the parameter is absent. */
  function SearchTerm(q: Query): (r: string)
    ensures q.search.None? ==> r == ""
  {
    match q.search
    case None => ""
    case Some(t) => t
  }

  /** The bucket's files whose name matches `search`, in enumeration order. */
  function Filter(files: seq<BucketFile>, search: string): seq<BucketFile> {
    if files == [] then []
    else (if Matches(files[0].name, search) then [files[0]] else []) + Filter(files[1..], search)
  }

  /** The record built from a file whose metadata was fetched. */
  function ToRecord(f: BucketFile): FileRecord
    requires f.metadata.Some?
  {
    FileRecord(f.name, f.metadata.value.updated, f.metadata.value.size)
  }

  predicate AllFetched(files: seq<BucketFile>) {
    forall i :: 0 <= i < |files| ==> files[i].metadata.Some?
  }

  /**
   * `Promise.all` over the metadata fetches: the records in the same order as
   * the files, or `None` as soon as any one fetch fails.
   */
  function FetchMetadata(files: seq<BucketFile>): (r: Option<seq<FileRecord>>)
    ensures r.Some? <==> AllFetched(files)
    ensures r.Some? ==> |r.value| == |files|
    ensures r.Some? ==> forall i :: 0 <= i < |files| ==> r.value[i] == ToRecord(files[i])
  {
    if files == [] then Some([])
    else if files[0].metadata.None? then None
    else match FetchMetadata(files[1..])
      case None => None
      case Some(rest) => Some([ToRecord(files[0])] + rest)
  }

  /** The handler. */
  function Get(q: Query, bucket: Option<seq<BucketFile>>): (r: Response)
    requires ValidQuery(q)
    ensures r.Listing? ==> |r.files| <= PAGE_SIZE
    ensures r.ServerError? ==> r.status == 500 && r.error == "Error fetching files"
  {
    match bucket
    case None => ServerError(INTERNAL_ERROR, FETCH_ERROR)
    case Some(files) =>
      match FetchMetadata(Filter(files, SearchTerm(q)))
      case None => ServerError(INTERNAL_ERROR, FETCH_ERROR)
      case Some(records) => Listing(Page(records, PageNumber(q)), TotalPages(|records|))
  }

  // ---------------------------------------------------------------------------
  // The search filter

  /** Filtering distributes over concatenation: it keeps the enumeration order. */
  lemma {:induction false} FilterAppend(a: seq<BucketFile>, b: seq<BucketFile>, search: string)
    ensures Filter(a + b, search) == Filter(a, search) + Filter(b, search)
  {
    if a != [] {
      assert (a + b)[0] == a[0];
      assert (a + b)[1..] == a[1..] + b;
      FilterAppend(a[1..], b, search);
    } else {
      assert a + b == b;
    }
  }

  /** Soundness: every kept file matches, and was in the input. */
  lemma {:induction false} FilterSound(files: seq<BucketFile>, search: string)
    ensures |Filter(files, search)| <= |files|
    ensures forall f :: f in Filter(files, search) ==> f in files && Matches(f.name, search)
  {
    if files != [] {
      FilterSound(files[1..], search);
    }
  }

  /** Completeness: every input file that matches is kept. */
  lemma {:induction false} FilterComplete(files: seq<BucketFile>, search: string)
    ensures forall f :: f in files && Matches(f.name, search) ==> f in Filter(files, search)
  {
    if files != [] {
      FilterComplete(files[1..], search);
      forall f | f in files && Matches(f.name, search) ensures f in Filter(files, search) {
        if f != files[0] {
          assert f in files[1..];
        }
      }
    }
  }

  /** An empty search term keeps every file, in order. */
  lemma {:induction false} FilterEmptySearch(files: seq<BucketFile>)
    ensures Filter(files, "") == files
  {
    if files != [] {
      MatchesEmptySearch(files[0].name);
      FilterEmptySearch(files[1..]);
    }
  }

  /** Filtering an already filtered list changes nothing. */
  lemma {:induction false} FilterIdempotent(files: seq<BucketFile>, search: string)
    ensures Filter(Filter(files, search), search) == Filter(files, search)
  {
    if files != [] {
      var head := if Matches(files[0].name, search) then [files[0]] else [];
      FilterIdempotent(files[1..], search);
      FilterAppend(head, Filter(files[1..], search), search);
      if head != [] {
        assert head[1..] == [];
      }
    }
  }

  // ---------------------------------------------------------------------------
  // The handler

  /**
   * The call fails exactly when listing the bucket fails or the metadata fetch
   * of some matching file fails; a failing fetch of a file that does not match
   * is never attempted and so does no harm.
   */
  lemma GetFails(q: Query, bucket: Option<seq<BucketFile>>)
    requires ValidQuery(q)
    ensures Get(q, bucket).ServerError? <==>
      bucket.None? ||
      exists f :: f in bucket.value && Matches(f.name, SearchTerm(q)) && f.metadata.None?
    ensures Get(q, bucket).ServerError? ==> Get(q, bucket) == ServerError(500, "Error fetching files")
  {
    if bucket.Some? {
      var matched := Filter(bucket.value, SearchTerm(q));
      FilterSound(bucket.value, SearchTerm(q));
      FilterComplete(bucket.value, SearchTerm(q));
      if !AllFetched(matched) {
        var i :| 0 <= i < |matched| && matched[i].metadata.None?;
        assert matched[i] in matched;
      }
    }
  }

  /**
   * Every file on a returned page comes from the bucket with its own metadata,
   * and its name contains the search term ignoring case.
   */
  lemma GetSound(q: Query, bucket: Option<seq<BucketFile>>)
    requires ValidQuery(q)
    ensures Get(q, bucket).Listing? ==>
      forall r :: r in Get(q, bucket).files ==>
        Matches(r.name, SearchTerm(q)) &&
        exists f :: f in bucket.value && f.metadata == Some(Metadata(r.updatedAt, r.size)) && f.name == r.name
  {
    if Get(q, bucket).Listing? {
      var matched := Filter(bucket.value, SearchTerm(q));
      var records := FetchMetadata(matched).value;
      FilterSound(bucket.value, SearchTerm(q));
      forall r | r in Get(q, bucket).files
        ensures Matches(r.name, SearchTerm(q))
        ensures exists f :: f in bucket.value && f.metadata == Some(Metadata(r.updatedAt, r.size)) && f.name == r.name
      {
        var j :| 0 <= j < |Page(records, PageNumber(q))| && Page(records, PageNumber(q))[j] == r;
        var f := matched[PageStart(PageNumber(q)) + j];
        assert f in matched;
      }
    }
  }

  /**
   * A successful listing has at most PAGE_SIZE files, the page count is the
   * ceiling of the number of matches over PAGE_SIZE, and a page past the last
   * one is empty and reports the same page count as page 1.
   */
  lemma GetPageBounds(q: Query, bucket: Option<seq<BucketFile>>)
    requires ValidQuery(q)
    ensures Get(q, bucket).Listing? ==>
      var matches := |Filter(bucket.value, SearchTerm(q))|;
      var n := Get(q, bucket).totalPages;
      |Get(q, bucket).files| <= PAGE_SIZE &&
      (n == 0 <==> matches == 0) &&
      matches <= n * PAGE_SIZE && (n > 0 ==> (n - 1) * PAGE_SIZE < matches) &&
      (PageNumber(q) > n ==>
        Get(q, bucket).files == [] && n == Get(Query(Some(1), q.search), bucket).totalPages)
  {
    if Get(q, bucket).Listing? {
      var records := FetchMetadata(Filter(bucket.value, SearchTerm(q))).value;
      if PageNumber(q) > TotalPages(|records|) {
        PageBeyondEnd(records, PageNumber(q));
      }
    }
  }

  /** The records of the files that match `search`, in bucket order. */
  function Matching(files: seq<BucketFile>, search: string): seq<FileRecord>
    requires AllFetched(Filter(files, search))
  {
    FetchMetadata(Filter(files, search)).value
  }

  /** The `files` of pages `1..count` of the listing for `search`, concatenated in order. */
  function Collected(search: Option<string>, bucket: Option<seq<BucketFile>>, count: nat): seq<FileRecord> {
    if count == 0 then []
    else
      var r := Get(Query(Some(count), search), bucket);
      Collected(search, bucket, count - 1) + (if r.Listing? then r.files else [])
  }

  /**
   * Fetching pages `1..totalPages` one after another returns every matching
   * file exactly once, in bucket order.
   */
  lemma {:induction false} GetPagesReassemble(search: Option<string>, files: seq<BucketFile>)
    requires AllFetched(Filter(files, SearchTerm(Query(None, search))))
    ensures var n := Get(Query(None, search), Some(files)).totalPages;
      Collected(search, Some(files), n) == Matching(files, SearchTerm(Query(None, search)))
  {
    var records := Matching(files, SearchTerm(Query(None, search)));
    var n := TotalPages(|records|);
    CollectedIsPages(search, files, n);
    PagesReassemble(records);
  }

  lemma {:induction false} CollectedIsPages(search: Option<string>, files: seq<BucketFile>, count: nat)
    requires AllFetched(Filter(files, SearchTerm(Query(None, search))))
    ensures Collected(search, Some(files), count) == Pages(Matching(files, SearchTerm(Query(None, search))), count)
  {
    if count > 0 {
      CollectedIsPages(search, files, count - 1);
      var records := Matching(files, SearchTerm(Query(None, search)));
      assert SearchTerm(Query(Some(count), search)) == SearchTerm(Query(None, search));
      assert Get(Query(Some(count), search), Some(files)) == Listing(Page(records, count), TotalPages(|records|));
    }
  }

  /** An absent `page` parameter reads as page 1, whatever the search term and the bucket. */
  lemma GetPageDefault(search: Option<string>, bucket: Option<seq<BucketFile>>)
    ensures Get(Query(None, search), bucket) == Get(Query(Some(1), search), bucket)
  {
  }

  /** An absent `search` parameter reads as the empty term, whatever the page and the bucket. */
  lemma GetSearchDefault(page: Option<int>, bucket: Option<seq<BucketFile>>)
    requires page.None? || page.value >= 1
    ensures Get(Query(page, None), bucket) == Get(Query(page, Some("")), bucket)
  {
  }

  /**
   * With neither parameter and every metadata fetch succeeding, the handler
   * returns page 1 of every file in the bucket, and the page count covers the
   * whole bucket.
   */
  lemma GetDefaults(files: seq<BucketFile>)
    requires AllFetched(files)
    ensures Get(Query(None, None), Some(files)).Listing?
    ensures Get(Query(None, None), Some(files)).totalPages == TotalPages(|files|)
    ensures Get(Query(None, None), Some(files)).files == Page(FetchMetadata(files).value, 1)
  {
    FilterEmptySearch(files);
  }
}
