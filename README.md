# S3-backed checkpoint file manager, modelled in Dafny

This project models the core of a checkpoint file manager that a stream-processing
engine uses to keep its checkpoints in an S3-compatible object store
(`S3BasedCheckpointFileManager`), together with the credentials selection it is
built with (`Credentials.load`). The object store is abstract: a map from
(bucket, key) to the version id the object's metadata reports, plus the status
codes the service answers with where a request fails. Listing pages are given as
a finite sequence of answers.

Modules, one file each:

- `Wrappers`, `Exceptions`, `HadoopConf` (`wrappers.dfy`): `Option`/`Result`, the
  three exceptions that escape the manager (`StringIndexOutOfBoundsException`,
  `IllegalArgumentException`, `AmazonS3Exception` with its status code), and
  configuration lookups as a finite map.
- `PathResolver` (`path_resolver.dfy`): the path decomposition that every operation
  repeats, written once as pure functions. It strips a leading `s3a://`, then
  trims (Java `String.trim`: every char up to U+0020), then drops at most one
  leading `/`, then splits at the first `/`. Also the empty-key check that three
  of the five callers add.
- `Credentials` (`credentials.dfy`): `load` choosing between static credentials,
  static session credentials and the default provider chain, and the static
  provider whose `refresh` does nothing.
- `ObjectStore` (`object_store.dfy`): the abstract store, its answers to
  `getObjectMetadata`, `deleteVersion` and `doesObjectExist`, and the store calls
  as a datatype so that operations can state which calls they issue.
- `Listing` (`listing.dfy`): `newFile` and the paginated `list` loop. `List` is a
  method that decomposes the path and hands the loop to `Paginate`, whose `while`
  loop is the do-while over pages; the inner for-each over summaries is the
  method `AddFiles`. Both loops are proved against the recursive specification
  `Collect`/`PageCalls` and `NewFiles`.
- `CheckpointManager` (`checkpoint_manager.dfy`): the constructor's settings, `mkdirs`,
  `isLocal`, `createCheckpointDirectory`, `createAtomic`, `open`, `exists` and the
  versioned `delete`. `exists` and `delete` return the store calls they issued,
  the store afterwards and their result or exception. `createAtomic` and `open`
  return the handle or the exception; the stream constructors are not modelled,
  so no store call is recorded for them. `mkdirs` returns the (unchanged) store,
  `isLocal` a boolean and `createCheckpointDirectory` the root path.

Three behaviours of the code are easy to miss:

- A path with no `/` left after normalisation makes `substring(0, -1)` throw
  `StringIndexOutOfBoundsException`; there is no dedicated invalid-path error.
- `list` and `delete` do not reject an empty key. They list the whole bucket, or
  send the metadata read for key `""`.
- The listing `filter` is accepted and not applied.

The round-trip property `Decompose("b/k") == (b, k)` has one exception, for the
bare form without scheme. If the bucket is `s3a:` and the key starts with `/`,
then `b/k` itself starts with `s3a://`, and that prefix is stripped.
`DecomposeRoundTrip` states the bare form under that exclusion, and
`BareFormNeedsGuard` shows that the exclusion is needed.

## Model

| member | source | states |
|---|---|---|
| `PathResolver.Trim` | src/main/java/appledog/research/checkpoint/S3BasedCheckpointFileManager.java:46 | the trimmed string starts and ends with a char above U+0020, and is empty exactly when every char of the input is at most U+0020 |
| `PathResolver.TrimRemovesSurroundingSpaces` | src/main/java/appledog/research/checkpoint/S3BasedCheckpointFileManager.java:46 | trimming `w1 + t + w2` gives exactly `t` when `w1` and `w2` are all spaces and `t` starts and ends with a non-space char |
| `PathResolver.StripScheme` | src/main/java/appledog/research/checkpoint/S3BasedCheckpointFileManager.java:46 | `s3a://` is removed only as a prefix; any other string is left as it is |
| `PathResolver.DropSeparator` | src/main/java/appledog/research/checkpoint/S3BasedCheckpointFileManager.java:49-51 | exactly one leading `/` is removed when present, otherwise nothing changes |
| `PathResolver.IndexOf` | src/main/java/appledog/research/checkpoint/S3BasedCheckpointFileManager.java:53 | the result is the first index of the char, or -1 exactly when the char does not occur |
| `PathResolver.Split` | src/main/java/appledog/research/checkpoint/S3BasedCheckpointFileManager.java:53-55 | succeeds exactly when a `/` is present; the bucket then has no `/` and bucket + `/` + key is the input; with no `/` it throws StringIndexOutOfBounds |
| `PathResolver.SplitJoined` | src/main/java/appledog/research/checkpoint/S3BasedCheckpointFileManager.java:53-55 | splitting `b + "/" + k` with `/` not in `b` returns `(b, k)`: split is the inverse of joining |
| `PathResolver.Decompose` | src/main/java/appledog/research/checkpoint/S3BasedCheckpointFileManager.java:46-55 | succeeds exactly when the normalised path has a `/`; the bucket has no `/` and bucket + `/` + key equals the normalised path |
| `PathResolver.ResolveObject` | src/main/java/appledog/research/checkpoint/S3BasedCheckpointFileManager.java:94-107 | succeeds exactly when the decomposition succeeds with a non-empty key; an empty key throws IllegalArgument with the path in the message |
| `PathResolver.DecomposeRoundTrip` | src/main/java/appledog/research/checkpoint/S3BasedCheckpointFileManager.java:46-55 | for a non-empty bucket without `/` and without leading space, and a key without trailing space, `s3a://b/k` and `/b/k` decompose to `(b, k)`; `b/k` does too unless it starts with the scheme |
| `PathResolver.DecomposeExample` | src/main/java/appledog/research/checkpoint/S3BasedCheckpointFileManager.java:46-55 | `s3a://bucket1/ckpt/_commits/0` resolves to bucket `bucket1` and key `ckpt/_commits/0` |
| `PathResolver.SchemeOnlyAtStart` | src/main/java/appledog/research/checkpoint/S3BasedCheckpointFileManager.java:46-51 | with leading spaces the scheme is not stripped, since trimming comes after: the bucket is `s3a:` and the key is `/b/k` |
| `PathResolver.OneSeparatorDropped` | src/main/java/appledog/research/checkpoint/S3BasedCheckpointFileManager.java:49-55 | only one leading `/` is dropped: `//b/k` has bucket `""` and key `b/k` |
| `PathResolver.BareFormNeedsGuard` | src/main/java/appledog/research/checkpoint/S3BasedCheckpointFileManager.java:46-55 | `s3a://x` written as bucket `s3a:` and key `/x` loses its scheme, leaves no `/` and throws StringIndexOutOfBounds, so the bare-form round trip needs its exclusion |
| `PathResolver.BucketOnlyPaths` | src/main/java/appledog/research/checkpoint/S3BasedCheckpointFileManager.java:53-55 | `s3a://b` throws StringIndexOutOfBounds; `s3a://b/` decomposes to an empty key, which the empty-key check rejects with IllegalArgument |
| `Credentials.GetCredentials` | src/main/java/appledog/research/checkpoint/Credentials.java:20-22 | a provider hands out credentials exactly when it is not the default chain |
| `Credentials.StaticCredentialsProvider` | src/main/java/appledog/research/checkpoint/Credentials.java:17-29 | the provider built from credentials hands those same credentials back |
| `Credentials.Refresh` | src/main/java/appledog/research/checkpoint/Credentials.java:25-27 | refreshing a static provider leaves the credentials it hands out unchanged |
| `Credentials.StaticProviderIsStable` | src/main/java/appledog/research/checkpoint/Credentials.java:17-28 | after any number of refreshes a static provider still returns the identical captured credentials |
| `Credentials.Load` | src/main/java/appledog/research/checkpoint/Credentials.java:37-56 | StaticSession exactly when access key, secret key and token are all set; Static exactly when both keys are set and the token is not; DefaultChain exactly when either key is unset; the static providers carry the configured values |
| `Credentials.EmptyValuesAreCredentials` | src/main/java/appledog/research/checkpoint/Credentials.java:43-45 | presence alone decides: empty strings give Static("", "") and StaticSession("", "", "") |
| `Credentials.TokenWithoutBothKeysIsIgnored` | src/main/java/appledog/research/checkpoint/Credentials.java:43-55 | a session token is ignored unless both keys are set: the result is DefaultChain |
| `Listing.NewFile` | src/main/java/appledog/research/checkpoint/S3BasedCheckpointFileManager.java:76-84 | the file is not a directory, has replication 1 and block size 67108864, and its size, date, bucket and key give back the summary it was made from |
| `Listing.NewFiles` | src/main/java/appledog/research/checkpoint/S3BasedCheckpointFileManager.java:61-63 | one file per summary, in order: the i-th file is newFile of the i-th summary |
| `Listing.Fetched` | src/main/java/appledog/research/checkpoint/S3BasedCheckpointFileManager.java:60-71 | the loop consumes answers up to and including the first final answer (an error or a non-truncated page), and every earlier answer is a truncated page |
| `Listing.AddFiles` | src/main/java/appledog/research/checkpoint/S3BasedCheckpointFileManager.java:61-63 | the for-each loop appends exactly the files of the page's summaries, in order, to the results |
| `Listing.Paginate` | src/main/java/appledog/research/checkpoint/S3BasedCheckpointFileManager.java:57-71 | the do-while loop returns `Collect(session)` and issues exactly `PageCalls(prefix, session)` |
| `Listing.List` | src/main/java/appledog/research/checkpoint/S3BasedCheckpointFileManager.java:45-73 | list returns `ListResult` and issues `ListCalls`: the decomposition's exception with no call, or the paginated result; the filter takes no part |
| `Listing.CollectIsFlat` | src/main/java/appledog/research/checkpoint/S3BasedCheckpointFileManager.java:57-73 | list succeeds exactly when its last consumed answer is a page; it then returns newFile of every summary of the consumed pages, in page order, each once. Otherwise it throws that answer's status |
| `Listing.ListingLength` | src/main/java/appledog/research/checkpoint/S3BasedCheckpointFileManager.java:57-73 | the number of listed files is the sum of the sizes of the consumed pages |
| `Listing.ListedEntriesAreFiles` | src/main/java/appledog/research/checkpoint/S3BasedCheckpointFileManager.java:61-62 | the k-th listed entry is newFile of the k-th summary: not a directory, replication 1, block size 64 MiB |
| `Listing.UnfetchedPagesIgnored` | src/main/java/appledog/research/checkpoint/S3BasedCheckpointFileManager.java:66-70 | answers after the first non-truncated page change neither the result nor the number of fetches |
| `Listing.FetchesWhileTruncated` | src/main/java/appledog/research/checkpoint/S3BasedCheckpointFileManager.java:58-67 | one listObjects, then one listNextBatchOfObjects per page consumed after it, each issued only after a truncated page |
| `Listing.TwoPageExample` | src/main/java/appledog/research/checkpoint/S3BasedCheckpointFileManager.java:57-73 | a truncated page [a, b] and a last page [c] list as [newFile(a), newFile(b), newFile(c)] |
| `CheckpointManager.NewManager` | src/main/java/appledog/research/checkpoint/S3BasedCheckpointFileManager.java:30-42 | root is the given path; path-style access unless the flag is set to something other than exactly "true"; endpoint and region from the configuration or their defaults; credentials as load chooses |
| `CheckpointManager.EmptyConfigurationDefaults` | src/main/java/appledog/research/checkpoint/S3BasedCheckpointFileManager.java:33-35 | with nothing configured: path-style access, endpoint http://127.0.0.1:9000, region us-east-1, default credential chain |
| `CheckpointManager.PathStyleFlagIsExact` | src/main/java/appledog/research/checkpoint/S3BasedCheckpointFileManager.java:33 | "TRUE" turns path-style access off and "true" keeps it on: the comparison is case-sensitive |
| `CheckpointManager.Mkdirs` | src/main/java/appledog/research/checkpoint/S3BasedCheckpointFileManager.java:88-90 | mkdirs leaves the store unchanged |
| `CheckpointManager.IsLocal` | src/main/java/appledog/research/checkpoint/S3BasedCheckpointFileManager.java:200-202 | isLocal is false |
| `CheckpointManager.CreateCheckpointDirectory` | src/main/java/appledog/research/checkpoint/S3BasedCheckpointFileManager.java:205-209 | returns the manager's root path |
| `CheckpointManager.CheckpointDirectoryIsConstructorPath` | src/main/java/appledog/research/checkpoint/S3BasedCheckpointFileManager.java:30-31 | the checkpoint directory is the path given to the constructor, whatever the configuration |
| `CheckpointManager.CreateAtomic` | src/main/java/appledog/research/checkpoint/S3BasedCheckpointFileManager.java:93-122 | a handle on the resolved location exactly when the path resolves with a non-empty key, else the resolution's exception |
| `CheckpointManager.CreateAtomicIgnoresOverwrite` | src/main/java/appledog/research/checkpoint/S3BasedCheckpointFileManager.java:93-109 | the overwrite flag makes no difference to the result |
| `CheckpointManager.Open` | src/main/java/appledog/research/checkpoint/S3BasedCheckpointFileManager.java:125-142 | a read handle on the resolved location exactly when the path resolves with a non-empty key, else the resolution's exception |
| `CheckpointManager.Exists` | src/main/java/appledog/research/checkpoint/S3BasedCheckpointFileManager.java:145-162 | with a non-empty key, one doesObjectExist call, answering whether the object is in the store; otherwise the exception with no call; the store never changes |
| `CheckpointManager.IsBlank` | src/main/java/appledog/research/checkpoint/S3BasedCheckpointFileManager.java:164-166 | a version id is blank exactly when it is null or consists only of chars up to U+0020 |
| `CheckpointManager.VersionToDelete` | src/main/java/appledog/research/checkpoint/S3BasedCheckpointFileManager.java:185-191 | the literal "null" for a blank version id, otherwise exactly the reported id, which is then not blank |
| `CheckpointManager.Swallow404` | src/main/java/appledog/research/checkpoint/S3BasedCheckpointFileManager.java:192-196 | a status is swallowed exactly when it is 404; any other is rethrown unchanged |
| `CheckpointManager.DeleteAt` | src/main/java/appledog/research/checkpoint/S3BasedCheckpointFileManager.java:181-196 | first call is getObjectMetadata on the location, at most two calls; a thrown status is never 404; the fault answers are unchanged; the objects are unchanged or lose exactly that location |
| `CheckpointManager.Delete` | src/main/java/appledog/research/checkpoint/S3BasedCheckpointFileManager.java:169-197 | a path without a separator throws StringIndexOutOfBounds before any call; otherwise delete is DeleteAt on the decomposed location, an empty key included |
| `CheckpointManager.DeletePinsObservedVersion` | src/main/java/appledog/research/checkpoint/S3BasedCheckpointFileManager.java:182-191 | after a successful metadata read, exactly one deleteVersion follows, for the version that read reported ("null" if blank) |
| `CheckpointManager.DeleteAfterFailedRead` | src/main/java/appledog/research/checkpoint/S3BasedCheckpointFileManager.java:181-196 | a failed metadata read issues no deleteVersion and leaves the store unchanged; it succeeds exactly when the status is 404, any other status is rethrown |
| `CheckpointManager.DeleteAfterFailedRemoval` | src/main/java/appledog/research/checkpoint/S3BasedCheckpointFileManager.java:185-196 | a failed deleteVersion leaves the store unchanged; it succeeds exactly when the status is 404, any other status is rethrown |
| `CheckpointManager.DeleteAbsentObject` | src/main/java/appledog/research/checkpoint/S3BasedCheckpointFileManager.java:181-196 | deleting an object that is not there returns normally after one metadata read and changes nothing |
| `CheckpointManager.DeleteIsIdempotent` | src/main/java/appledog/research/checkpoint/S3BasedCheckpointFileManager.java:169-197 | after a delete that returned normally, a second delete of the same path returns normally and changes nothing |
| `CheckpointManager.DeleteThenExists` | src/main/java/appledog/research/checkpoint/S3BasedCheckpointFileManager.java:145-197 | without faults, delete removes exactly that object and exists then answers false |
| `CheckpointManager.OperationsShareDecomposition` | src/main/java/appledog/research/checkpoint/S3BasedCheckpointFileManager.java:45-179 | for a path with a non-empty key, createAtomic, open, exists, delete and list all address the same decomposed location |
| `CheckpointManager.EmptyKeyHandling` | src/main/java/appledog/research/checkpoint/S3BasedCheckpointFileManager.java:93-182 | with an empty key, createAtomic, open and exists throw IllegalArgument before any store call; list and delete go ahead with the empty key and throw only store exceptions |

## Left out

- The output and input streams (`S3OutputStream`, `S3InputStream`) are not part of this model. A handle only records the location it streams to or from. So the commit-on-close and discard-on-cancel behaviour, and the forwarding of `cancel`/`close` to the inner stream, are not modelled. Neither are the read-after-commit and unchanged-after-cancel laws.
- Building the store client (builder, endpoint configuration) is SDK plumbing. Only the settings it is built from are modelled (`NewManager`).
- The network calls are replaced by the abstract store and by the given listing answers. Timeouts, retries and the continuation token of `listNextBatchOfObjects` are not modelled.
- Concurrent writers are left out. The store keeps one version per key, so deleting the observed version removes the key. Whether a concurrent writer's newer version survives depends on the service's versioning, not on this code.
- Hadoop `Path` and `Configuration` internals are left out. `path.toString()` is taken to be the input string, so Hadoop's own path normalisation is not applied. Configuration values are plain map lookups, with no variable expansion or deprecated keys. A listed file's path is the (bucket, key) pair given to `new Path(bucket, key)`.
- The regular-expression engine is left out: `replaceFirst("^s3a://", "")` is a prefix strip.
- `Date.getTime()` is left out: the last-modified date is an opaque integer. Sizes and dates are unbounded integers, because the code does no arithmetic on them.
- The resolution done by `DefaultAWSCredentialsProviderChain` is foreign code. That provider hands out no credentials in the model.
- Credentials.Refresh: requires a static provider, because the default chain's refresh is foreign code.
- Listing.List: requires that the store's answers end with an error or a non-truncated page when the path decomposes. The Java loop runs forever otherwise, and the model has no such behaviour.
- CheckpointManager.Exists: does not model exceptions thrown by `doesObjectExist` itself. That probe's handling of statuses is in the SDK, which is not part of this model, so the answer is presence in the store.
