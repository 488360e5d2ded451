/** S3BasedCheckpointFileManager: the checkpoint-manager facade over one store
    client. Every operation decomposes its path with PathResolver; createAtomic,
    open and exists also reject an empty object name, list and delete do not. */
module CheckpointManager {
  import opened Wrappers
  import opened Exceptions
  import opened HadoopConf
  import opened Credentials
  import opened PathResolver
  import opened ObjectStore
  import opened Listing

  const PathStyleAccessName: string := "fs.s3a.path.style.access"
  const EndpointName: string := "fs.s3a.endpoint"
  const RegionName: string := "fs.s3a.region"
  const DefaultEndpoint: string := "http://127.0.0.1:9000"
  const DefaultRegion: string := "us-east-1"

  /** What the store client is built from. */
  datatype ClientSettings = ClientSettings(
    pathStyleAccess: bool,
    endpoint: string,
    region: string,
    credentials: Provider)

  /** The manager's two final fields: its root path and its store client. */
  datatype Manager = Manager(root: string, client: ClientSettings)

  /** The constructor: path-style access unless the flag is set to anything but
      exactly "true", the endpoint and region from the configuration or their
      defaults, and the credentials provider Credentials.load chooses. */
  function NewManager(path: string, conf: Configuration): (m: Manager)
    ensures m.root == path
    ensures m.client.pathStyleAccess <==> PathStyleAccessName !in conf || conf[PathStyleAccessName] == "true"
    ensures EndpointName in conf ==> m.client.endpoint == conf[EndpointName]
    ensures EndpointName !in conf ==> m.client.endpoint == DefaultEndpoint
    ensures RegionName in conf ==> m.client.region == conf[RegionName]
    ensures RegionName !in conf ==> m.client.region == DefaultRegion
    ensures m.client.credentials == Load(conf)
  {
    var pathStyleAccess := "true" == GetOr(conf, PathStyleAccessName, "true");
    var endpoint := GetOr(conf, EndpointName, DefaultEndpoint);
    var location := GetOr(conf, RegionName, DefaultRegion);
    Manager(path, ClientSettings(pathStyleAccess, endpoint, location, Load(conf)))
  }

  /** An empty configuration gives a path-style client for a local endpoint in
      us-east-1 that resolves credentials through the default chain. */
  lemma EmptyConfigurationDefaults(path: string)
    ensures NewManager(path, map[]).client
              == ClientSettings(true, "http://127.0.0.1:9000", "us-east-1", DefaultChain)
  {
  }

  /** The path-style flag is compared case-sensitively with "true". */
  lemma PathStyleFlagIsExact(path: string)
    ensures !NewManager(path, map[PathStyleAccessName := "TRUE"]).client.pathStyleAccess
    ensures NewManager(path, map[PathStyleAccessName := "true"]).client.pathStyleAccess
  {
    assert "TRUE"[0] != "true"[0];
  }

  /** mkdirs: object storage has no directories, so nothing happens. */
  function Mkdirs(store: Store, path: string): (s: Store)
    ensures s == store
  {
    store
  }

  /** isLocal: the store is never a local file system. */
  function IsLocal(): (b: bool)
    ensures !b
  {
    false
  }

  /** createCheckpointDirectory: the manager's root path, with no store call. */
  function CreateCheckpointDirectory(m: Manager): (p: string)
    ensures p == m.root
  {
    m.root
  }

  /** The checkpoint directory is the path the manager was constructed with,
      whatever the configuration. */
  lemma CheckpointDirectoryIsConstructorPath(path: string, conf: Configuration)
    ensures CreateCheckpointDirectory(NewManager(path, conf)) == path
  {
  }

  /** The CancellableFSDataOutputStream createAtomic returns: it records the
      location the wrapped output stream writes to. */
  datatype OutputHandle = OutputHandle(target: Location)

  /** The FSDataInputStream open returns: it wraps an input stream for `source`. */
  datatype InputHandle = InputHandle(source: Location)

  /** createAtomic: a write handle on the object the path names; the overwrite
      flag is not consulted. */
  function CreateAtomic(path: string, overwriteIfPossible: bool): (r: Result<OutputHandle, Exception>)
    ensures r.Success? <==> ResolveObject(path).Success?
    ensures r.Success? ==> r.value.target == ResolveObject(path).value
    ensures r.Failure? ==> r.error == ResolveObject(path).error
  {
    match ResolveObject(path)
    case Failure(e) => Failure(e)
    case Success(loc) => Success(OutputHandle(loc))
  }

  /** Whether the caller asks for overwriting makes no difference. */
  lemma CreateAtomicIgnoresOverwrite(path: string)
    ensures CreateAtomic(path, true) == CreateAtomic(path, false)
  {
  }

  /** open: a read handle on the object the path names. */
  function Open(path: string): (r: Result<InputHandle, Exception>)
    ensures r.Success? <==> ResolveObject(path).Success?
    ensures r.Success? ==> r.value.source == ResolveObject(path).value
    ensures r.Failure? ==> r.error == ResolveObject(path).error
  {
    match ResolveObject(path)
    case Failure(e) => Failure(e)
    case Success(loc) => Success(InputHandle(loc))
  }

  /** One operation against the store: the calls it issued, the store afterwards,
      and what it returned or threw. */
  datatype Run<T> = Run(calls: seq<StoreCall>, store: Store, result: Result<T, Exception>)

  /** exists: probe the store for the object the path names. */
  function Exists(store: Store, path: string): (run: Run<bool>)
    ensures run.store == store
    ensures ResolveObject(path).Failure? ==>
              run.calls == [] && run.result == Failure(ResolveObject(path).error)
    ensures ResolveObject(path).Success? ==>
              run.calls == [DoesObjectExist(ResolveObject(path).value)]
              && run.result == Success(ResolveObject(path).value in store.objects)
  {
    match ResolveObject(path)
    case Failure(e) => Run([], store, Failure(e))
    case Success(loc) => Run([DoesObjectExist(loc)], store, Success(ExistsAnswer(store, loc)))
  }

  /** isEmpty: null, or nothing but chars Java's trim removes. */
  function IsBlank(versionId: Option<string>): (b: bool)
    ensures b <==> versionId.None? || AllSpaces(versionId.value)
  {
    versionId.None? || Trim(versionId.value) == []
  }

  /** The version delete removes: the literal "null" for a blank version id, the
      version id itself otherwise. */
  function VersionToDelete(versionId: Option<string>): (v: string)
    ensures IsBlank(versionId) ==> v == "null"
    ensures !IsBlank(versionId) ==> v == versionId.value && |Trim(v)| > 0
  {
    if IsBlank(versionId) then "null" else versionId.value
  }

  /** The catch block of delete: a 404 is swallowed, any other status rethrown. */
  function Swallow404(status: int): (r: Result<(), Exception>)
    ensures r.Success? <==> status == NotFound
    ensures r.Failure? ==> r.error == AmazonS3(status)
  {
    if status != NotFound then Failure(AmazonS3(status)) else Success(())
  }

  /** The try block of delete, at a decomposed location: read the object's
      version id, then delete exactly that version. A 404 from either call means
      success; no other status is swallowed. At most the object at `loc` leaves
      the store; nothing else changes. */
  function DeleteAt(store: Store, loc: Location): (run: Run<()>)
    ensures 1 <= |run.calls| <= 2 && run.calls[0] == GetObjectMetadata(loc)
    ensures run.result.Failure? ==>
              run.result.error.AmazonS3? && run.result.error.statusCode != NotFound
    ensures run.store.metadataFaults == store.metadataFaults
    ensures run.store.deleteFaults == store.deleteFaults
    ensures run.store.objects == store.objects || run.store.objects == store.objects - {loc}
  {
    match MetadataAnswer(store, loc)
    case Failure(status) => Run([GetObjectMetadata(loc)], store, Swallow404(status))
    case Success(versionId) =>
      var version := VersionToDelete(versionId);
      var calls := [GetObjectMetadata(loc), DeleteVersion(loc, version)];
      match DeleteAnswer(store, loc, version)
      case Failure(status) => Run(calls, store, Swallow404(status))
      case Success(after) => Run(calls, after, Success(()))
  }

  /** delete: decompose the path (no empty-key check), then DeleteAt; the
      decomposition's exception is thrown before the try block. */
  function Delete(store: Store, path: string): (run: Run<()>)
    ensures Decompose(path).Failure? ==> run == Run([], store, Failure(StringIndexOutOfBounds))
    ensures Decompose(path).Success? ==> run == DeleteAt(store, Decompose(path).value)
  {
    match Decompose(path)
    case Failure(e) => Run([], store, Failure(e))
    case Success(loc) => DeleteAt(store, loc)
  }

  // ---------------------------------------------------------------------------
  // Properties of the facade
  // ---------------------------------------------------------------------------

  /** Once the metadata is read, exactly one deleteVersion follows, for the
      version the metadata reported ("null" when that is blank). */
  lemma DeletePinsObservedVersion(store: Store, path: string)
    requires Decompose(path).Success?
    requires MetadataAnswer(store, Decompose(path).value).Success?
    ensures var loc := Decompose(path).value;
            Delete(store, path).calls
              == [GetObjectMetadata(loc), DeleteVersion(loc, VersionToDelete(MetadataAnswer(store, loc).value))]
  {
  }

  /** A failed metadata read issues no deleteVersion and changes nothing; only a
      404 counts as success, any other status is rethrown unchanged. */
  lemma DeleteAfterFailedRead(store: Store, path: string)
    requires Decompose(path).Success?
    requires MetadataAnswer(store, Decompose(path).value).Failure?
    ensures var status := MetadataAnswer(store, Decompose(path).value).error;
            && Delete(store, path).calls == [GetObjectMetadata(Decompose(path).value)]
            && Delete(store, path).store == store
            && (Delete(store, path).result.Success? <==> status == NotFound)
            && (status != NotFound ==> Delete(store, path).result == Failure(AmazonS3(status)))
  {
  }

  /** A failed deleteVersion changes nothing; only a 404 counts as success. */
  lemma DeleteAfterFailedRemoval(store: Store, path: string)
    requires Decompose(path).Success?
    requires MetadataAnswer(store, Decompose(path).value).Success?
    requires Decompose(path).value in store.deleteFaults
    ensures var status := store.deleteFaults[Decompose(path).value];
            && Delete(store, path).store == store
            && (Delete(store, path).result.Success? <==> status == NotFound)
            && (status != NotFound ==> Delete(store, path).result == Failure(AmazonS3(status)))
  {
  }

  /** Deleting an object that is not there returns normally and changes nothing. */
  lemma DeleteAbsentObject(store: Store, path: string)
    requires Decompose(path).Success?
    requires Decompose(path).value !in store.objects
    requires Decompose(path).value !in store.metadataFaults
    ensures Delete(store, path) == Run([GetObjectMetadata(Decompose(path).value)], store, Success(()))
  {
  }

  /** A delete that returned normally can be repeated: the second one returns
      normally too and changes nothing. */
  lemma DeleteIsIdempotent(store: Store, path: string)
    requires Delete(store, path).result.Success?
    ensures var after := Delete(store, path).store;
            Delete(after, path).result.Success? && Delete(after, path).store == after
  {
    var loc := Decompose(path).value;
    var after := Delete(store, path).store;
    if MetadataAnswer(store, loc).Success? && loc !in store.deleteFaults {
      assert loc !in after.objects;
      assert MetadataAnswer(after, loc) == Failure(NotFound);
    }
  }

  /** Without faults at the object, delete removes it, and exists then reports it
      absent. */
  lemma DeleteThenExists(store: Store, path: string)
    requires ResolveObject(path).Success?
    requires ResolveObject(path).value in store.objects
    requires ResolveObject(path).value !in store.metadataFaults
    requires ResolveObject(path).value !in store.deleteFaults
    ensures Delete(store, path).result == Success(())
    ensures Delete(store, path).store.objects == store.objects - {ResolveObject(path).value}
    ensures Exists(Delete(store, path).store, path).result == Success(false)
  {
  }

  /** All operations address the object the single decomposition names. */
  lemma OperationsShareDecomposition(store: Store, path: string, session: seq<Fetch>, overwrite: bool)
    requires ResolveObject(path).Success? && Ends(session)
    ensures var loc := ResolveObject(path).value;
            && CreateAtomic(path, overwrite) == Success(OutputHandle(loc))
            && Open(path) == Success(InputHandle(loc))
            && Exists(store, path).calls == [DoesObjectExist(loc)]
            && Delete(store, path).calls[0] == GetObjectMetadata(loc)
            && ListCalls(path, session)[0] == ListObjects(loc)
  {
  }

  /** An empty object name is rejected by createAtomic, open and exists before any
      store call, while list and delete go ahead with the empty key. */
  lemma EmptyKeyHandling(store: Store, path: string, session: seq<Fetch>, overwrite: bool)
    requires Decompose(path).Success? && Decompose(path).value.key == []
    requires Ends(session)
    ensures var invalid := IllegalArgument(InvalidPathMessage(path));
            && CreateAtomic(path, overwrite) == Failure(invalid)
            && Open(path) == Failure(invalid)
            && Exists(store, path) == Run([], store, Failure(invalid))
    ensures ListCalls(path, session)[0] == ListObjects(Decompose(path).value)
    ensures ListResult(path, session).Failure? ==> ListResult(path, session).error.AmazonS3?
    ensures Delete(store, path).calls[0] == GetObjectMetadata(Decompose(path).value)
  {
    CollectIsFlat(session);
  }
}
