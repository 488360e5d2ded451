/** The object store as the checkpoint manager sees it: the objects present, the
    version id their metadata reports, and the status codes the service answers
    with at locations where a request fails. */
module ObjectStore {
  import opened Wrappers
  import opened Exceptions
  import opened PathResolver

  /** `objects` maps each present object to the version id its metadata reports
      (None when the metadata carries no version id). `metadataFaults` and
      `deleteFaults` give, per location, the status of the AmazonS3Exception that
      getObjectMetadata or deleteVersion is answered with there. */
  datatype Store = Store(
    objects: map<Location, Option<string>>,
    metadataFaults: map<Location, int>,
    deleteFaults: map<Location, int>)

  /** The store client calls the checkpoint manager issues. */
  datatype StoreCall =
    | ListObjects(prefix: Location)
    | ListNextBatchOfObjects(prefix: Location)
    | GetObjectMetadata(loc: Location)
    | DeleteVersion(loc: Location, versionId: string)
    | DoesObjectExist(loc: Location)

  /** The answer to getObjectMetadata: the version id, or the status it fails with
      (404 for an object that is not there). */
  function MetadataAnswer(store: Store, loc: Location): (r: Result<Option<string>, int>)
    ensures loc in store.metadataFaults ==> r == Failure(store.metadataFaults[loc])
    ensures loc !in store.metadataFaults && loc in store.objects ==> r == Success(store.objects[loc])
    ensures loc !in store.metadataFaults && loc !in store.objects ==> r == Failure(NotFound)
  {
    if loc in store.metadataFaults then Failure(store.metadataFaults[loc])
    else if loc in store.objects then Success(store.objects[loc])
    else Failure(NotFound)
  }

  /** The answer to deleteVersion: the store without the object, or the status it
      fails with. The store keeps one version per key, so removing the version the
      metadata reported removes the key. */
  function DeleteAnswer(store: Store, loc: Location, versionId: string): (r: Result<Store, int>)
    ensures r.Failure? <==> loc in store.deleteFaults
    ensures r.Failure? ==> r.error == store.deleteFaults[loc]
    ensures r.Success? ==> r.value.objects == store.objects - {loc}
    ensures r.Success? ==> r.value.metadataFaults == store.metadataFaults
    ensures r.Success? ==> r.value.deleteFaults == store.deleteFaults
  {
    if loc in store.deleteFaults then Failure(store.deleteFaults[loc])
    else Success(store.(objects := store.objects - {loc}))
  }

  /** The answer to doesObjectExist. */
  function ExistsAnswer(store: Store, loc: Location): (b: bool)
    ensures b <==> loc in store.objects
  {
    loc in store.objects
  }
}
