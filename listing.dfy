/** S3BasedCheckpointFileManager.list: one FileStatus per object summary, over the
    pages of a listing, fetching another page only while the current one is
    truncated. */
module Listing {
  import opened Wrappers
  import opened Exceptions
  import opened PathResolver
  import opened ObjectStore

  /** An S3ObjectSummary, reduced to the fields newFile reads; the last-modified
      date is its value in milliseconds. */
  datatype ObjectSummary = ObjectSummary(bucketName: string, key: string, size: int, lastModified: int)

  /** Hadoop's FileStatus as newFile fills it in; the path is the (bucket, key) pair
      it is built from. */
  datatype FileStatus = FileStatus(
    length: int,
    isDirectory: bool,
    blockReplication: int,
    blockSize: int,
    modificationTime: int,
    path: Location)

  /** 64 * 1024 * 1024, the block size every listed file reports. */
  const BlockSize: int := 64 * 1024 * 1024

  /** Hadoop's PathFilter; list accepts one and does not use it. */
  type PathFilter = Location -> bool

  /** The summary a listed file was made from. */
  function SummaryOf(f: FileStatus): ObjectSummary {
    ObjectSummary(f.path.bucket, f.path.key, f.length, f.modificationTime)
  }

  /** newFile: a plain file, replication 1, 64 MiB blocks, carrying the summary's
      size, date and location; the summary can be read back from it. */
  function NewFile(obj: ObjectSummary): (f: FileStatus)
    ensures SummaryOf(f) == obj
    ensures !f.isDirectory && f.blockReplication == 1 && f.blockSize == 67108864
  {
    FileStatus(obj.size, false, 1, BlockSize, obj.lastModified, Location(obj.bucketName, obj.key))
  }

  /** One file per summary, in the same order. */
  function NewFiles(objs: seq<ObjectSummary>): (fs: seq<FileStatus>)
    ensures |fs| == |objs|
    ensures forall i :: 0 <= i < |objs| ==> fs[i] == NewFile(objs[i])
  {
    if objs == [] then [] else [NewFile(objs[0])] + NewFiles(objs[1..])
  }

  lemma NewFilesAppend(a: seq<ObjectSummary>, b: seq<ObjectSummary>)
    ensures NewFiles(a + b) == NewFiles(a) + NewFiles(b)
  {
  }

  /** One page of an ObjectListing. */
  datatype Page = Page(summaries: seq<ObjectSummary>, truncated: bool)

  /** What one listObjects or listNextBatchOfObjects call answers: a page, or the
      status of the AmazonS3Exception it throws. */
  type Fetch = Result<Page, int>

  /** The loop stops after this answer: the call threw or the page is the last. */
  predicate Final(f: Fetch) {
    f.Failure? || !f.value.truncated
  }

  /** The store eventually answers with a final page or an error, so the loop ends
      within `session`. */
  predicate Ends(session: seq<Fetch>)
    decreases |session|
  {
    |session| > 0 && (Final(session[0]) || Ends(session[1..]))
  }

  /** How many answers the loop consumes: all truncated pages up to the first
      final answer, inclusive. */
  function Fetched(session: seq<Fetch>): (n: nat)
    requires Ends(session)
    ensures 0 < n <= |session|
    ensures Final(session[n - 1])
    ensures forall i :: 0 <= i < n - 1 ==> !Final(session[i])
    decreases |session|
  {
    if Final(session[0]) then 1 else 1 + Fetched(session[1..])
  }

  /** The files the loop accumulates, or the exception that escapes it. */
  function Collect(session: seq<Fetch>): Result<seq<FileStatus>, Exception>
    requires Ends(session)
    decreases |session|
  {
    match session[0]
    case Failure(status) => Failure(AmazonS3(status))
    case Success(page) =>
      if !page.truncated then Success(NewFiles(page.summaries))
      else Prepend(NewFiles(page.summaries), Collect(session[1..]))
  }

  function Prepend(xs: seq<FileStatus>, r: Result<seq<FileStatus>, Exception>): Result<seq<FileStatus>, Exception> {
    match r
    case Success(ys) => Success(xs + ys)
    case Failure(e) => Failure(e)
  }

  /** The summaries of the pages in `session`, page after page. */
  function Flat(session: seq<Fetch>): seq<ObjectSummary> {
    if session == [] then []
    else (if session[0].Success? then session[0].value.summaries else []) + Flat(session[1..])
  }

  /** The number of summaries of the pages in `session`. */
  function TotalSize(session: seq<Fetch>): nat {
    if session == [] then 0
    else (if session[0].Success? then |session[0].value.summaries| else 0) + TotalSize(session[1..])
  }

  /** listNextBatchOfObjects, `n` times. */
  function NextBatches(prefix: Location, n: nat): (calls: seq<StoreCall>)
    ensures |calls| == n
    ensures forall i :: 0 <= i < n ==> calls[i] == ListNextBatchOfObjects(prefix)
  {
    if n == 0 then [] else NextBatches(prefix, n - 1) + [ListNextBatchOfObjects(prefix)]
  }

  /** The store calls list issues for `path`: none when the path cannot be split,
      else listObjects and one listNextBatchOfObjects per truncated page. */
  function ListCalls(path: string, session: seq<Fetch>): seq<StoreCall>
    requires Decompose(path).Success? ==> Ends(session)
  {
    match Decompose(path)
    case Failure(_) => []
    case Success(loc) => PageCalls(loc, session)
  }

  /** listObjects, then listNextBatchOfObjects for every truncated page consumed. */
  function PageCalls(prefix: Location, session: seq<Fetch>): seq<StoreCall>
    requires Ends(session)
  {
    [ListObjects(prefix)] + NextBatches(prefix, Fetched(session) - 1)
  }

  /** What list returns or throws for `path` when the store answers with `session`. */
  function ListResult(path: string, session: seq<Fetch>): Result<seq<FileStatus>, Exception>
    requires Decompose(path).Success? ==> Ends(session)
  {
    match Decompose(path)
    case Failure(e) => Failure(e)
    case Success(_) => Collect(session)
  }

  lemma PrependAppend(a: seq<FileStatus>, b: seq<FileStatus>, r: Result<seq<FileStatus>, Exception>)
    ensures Prepend(a, Prepend(b, r)) == Prepend(a + b, r)
  {
    if r.Success? {
      assert a + (b + r.value) == (a + b) + r.value;
    }
  }

  lemma PrependNothing(r: Result<seq<FileStatus>, Exception>)
    ensures Prepend([], r) == r
  {
    if r.Success? {
      assert [] + r.value == r.value;
    }
  }

  /** Consuming one truncated page. */
  lemma TruncatedStep(session: seq<Fetch>, i: nat)
    requires i < |session| && Ends(session[i..])
    requires session[i].Success? && session[i].value.truncated
    ensures i + 1 < |session| && Ends(session[i + 1..])
    ensures Fetched(session[i..]) == 1 + Fetched(session[i + 1..])
    ensures Collect(session[i..]) == Prepend(NewFiles(session[i].value.summaries), Collect(session[i + 1..]))
  {
    assert session[i..][0] == session[i];
    assert session[i..][1..] == session[i + 1..];
  }

  /** The inner loop of list: results.add(newFile(s)) for every summary of a page. */
  method AddFiles(results: seq<FileStatus>, summaries: seq<ObjectSummary>) returns (out: seq<FileStatus>)
    ensures out == results + NewFiles(summaries)
  {
    out := results;
    var j := 0;
    while j < |summaries|
      invariant 0 <= j <= |summaries|
      invariant out == results + NewFiles(summaries[..j])
    {
      assert summaries[..j + 1] == summaries[..j] + [summaries[j]];
      NewFilesAppend(summaries[..j], [summaries[j]]);
      out := out + [NewFile(summaries[j])];
      j := j + 1;
    }
    assert summaries[..j] == summaries;
  }

  /** The do-while loop of list: the files of every page, fetching the next page
      while the current one is truncated. */
  method Paginate(prefix: Location, session: seq<Fetch>)
      returns (calls: seq<StoreCall>, r: Result<seq<FileStatus>, Exception>)
    requires Ends(session)
    ensures calls == PageCalls(prefix, session)
    ensures r == Collect(session)
  {
    var results: seq<FileStatus> := [];
    calls := [ListObjects(prefix)];
    var i := 0;
    assert session[0..] == session;
    PrependNothing(Collect(session));
    while true
      invariant 0 <= i < |session|
      invariant Ends(session[i..])
      invariant Fetched(session) == i + Fetched(session[i..])
      invariant Collect(session) == Prepend(results, Collect(session[i..]))
      invariant calls == [ListObjects(prefix)] + NextBatches(prefix, i)
      decreases |session| - i
    {
      assert session[i..][0] == session[i];
      match session[i] {
        case Failure(status) =>
          return calls, Failure(AmazonS3(status));
        case Success(page) =>
          var before := results;
          results := AddFiles(results, page.summaries);
          if page.truncated {
            TruncatedStep(session, i);
            PrependAppend(before, NewFiles(page.summaries), Collect(session[i + 1..]));
            calls := calls + [ListNextBatchOfObjects(prefix)];
            i := i + 1;
          } else {
            return calls, Success(results);
          }
      }
    }
  }

  /** list(path, filter), with the store's answers to its listing calls given as
      `session`. The filter plays no part in the result. */
  method List(path: string, filter: PathFilter, session: seq<Fetch>)
      returns (calls: seq<StoreCall>, r: Result<seq<FileStatus>, Exception>)
    requires Decompose(path).Success? ==> Ends(session)
    ensures calls == ListCalls(path, session)
    ensures r == ListResult(path, session)
  {
    match Decompose(path) {
      case Failure(e) =>
        calls, r := [], Failure(e);
      case Success(prefix) =>
        calls, r := Paginate(prefix, session);
    }
  }

  // ---------------------------------------------------------------------------
  // Properties of the listing
  // ---------------------------------------------------------------------------

  lemma FlatOfPrefix(f: Fetch, rest: seq<Fetch>)
    ensures Flat([f] + rest) == (if f.Success? then f.value.summaries else []) + Flat(rest)
  {
    assert ([f] + rest)[1..] == rest;
  }

  /** list succeeds exactly when the last answer it consumes is a page; it then
      returns one file per summary of the consumed pages, page after page, and
      otherwise throws that answer's status. */
  lemma {:induction false} CollectIsFlat(session: seq<Fetch>)
    requires Ends(session)
    ensures Collect(session).Success? <==> session[Fetched(session) - 1].Success?
    ensures Collect(session).Success? ==>
              Collect(session).value == NewFiles(Flat(session[..Fetched(session)]))
    ensures Collect(session).Failure? ==>
              Collect(session).error == AmazonS3(session[Fetched(session) - 1].error)
    decreases |session|
  {
    var n := Fetched(session);
    if Final(session[0]) {
      assert session[..n] == [session[0]] + [];
      FlatOfPrefix(session[0], []);
    } else {
      var tail := session[1..];
      CollectIsFlat(tail);
      var m := Fetched(tail);
      assert n == 1 + m;
      assert session[..n] == [session[0]] + tail[..m];
      FlatOfPrefix(session[0], tail[..m]);
      assert session[n - 1] == tail[m - 1];
      NewFilesAppend(session[0].value.summaries, Flat(tail[..m]));
    }
  }

  lemma {:induction false} FlatLength(session: seq<Fetch>)
    ensures |Flat(session)| == TotalSize(session)
  {
    if session != [] {
      FlatLength(session[1..]);
    }
  }

  /** The number of files list returns is the sum of the sizes of the pages it
      consumed. */
  lemma ListingLength(session: seq<Fetch>)
    requires Ends(session)
    requires Collect(session).Success?
    ensures |Collect(session).value| == TotalSize(session[..Fetched(session)])
  {
    CollectIsFlat(session);
    FlatLength(session[..Fetched(session)]);
  }

  /** Every listed entry is a plain file built by newFile from one summary. */
  lemma ListedEntriesAreFiles(session: seq<Fetch>, k: nat)
    requires Ends(session)
    requires Collect(session).Success? && k < |Collect(session).value|
    ensures k < |Flat(session[..Fetched(session)])|
    ensures Collect(session).value[k] == NewFile(Flat(session[..Fetched(session)])[k])
    ensures !Collect(session).value[k].isDirectory
    ensures Collect(session).value[k].blockReplication == 1
    ensures Collect(session).value[k].blockSize == BlockSize
  {
    CollectIsFlat(session);
  }

  /** Answers after the first final one are never fetched and change nothing. */
  lemma {:induction false} UnfetchedPagesIgnored(session: seq<Fetch>, extra: seq<Fetch>)
    requires Ends(session)
    ensures Ends(session + extra)
    ensures Fetched(session + extra) == Fetched(session)
    ensures Collect(session + extra) == Collect(session)
    decreases |session|
  {
    assert (session + extra)[0] == session[0];
    if !Final(session[0]) {
      assert (session + extra)[1..] == session[1..] + extra;
      UnfetchedPagesIgnored(session[1..], extra);
    }
  }

  /** list calls listObjects once and listNextBatchOfObjects once after each
      truncated page, all on the same prefix. */
  lemma FetchesWhileTruncated(prefix: Location, session: seq<Fetch>)
    requires Ends(session)
    ensures |PageCalls(prefix, session)| == Fetched(session)
    ensures PageCalls(prefix, session)[0] == ListObjects(prefix)
    ensures forall i :: 0 < i < Fetched(session) ==>
              PageCalls(prefix, session)[i] == ListNextBatchOfObjects(prefix)
              && session[i - 1].Success? && session[i - 1].value.truncated
  {
    var calls := PageCalls(prefix, session);
    var n := Fetched(session);
    forall i | 0 < i < n
      ensures calls[i] == ListNextBatchOfObjects(prefix)
    {
      assert calls[i] == NextBatches(prefix, n - 1)[i - 1];
    }
  }

  /** Two pages, the first truncated: both are listed, in order. */
  lemma TwoPageExample(a: ObjectSummary, b: ObjectSummary, c: ObjectSummary)
    ensures Collect([Success(Page([a, b], true)), Success(Page([c], false))])
              == Success([NewFile(a), NewFile(b), NewFile(c)])
  {
    var session: seq<Fetch> := [Success(Page([a, b], true)), Success(Page([c], false))];
    var last: seq<Fetch> := [Success(Page([c], false))];
    assert session[1..] == last;
    assert Ends(last) && Collect(last) == Success(NewFiles([c]));
    assert Ends(session);
    assert NewFiles([c]) == [NewFile(c)];
    assert NewFiles([a, b]) == [NewFile(a), NewFile(b)];
    assert Collect(session) == Prepend(NewFiles([a, b]), Collect(last));
    assert [NewFile(a), NewFile(b)] + [NewFile(c)] == [NewFile(a), NewFile(b), NewFile(c)];
  }
}
