/** Option and Result, shared by every module. */
module Wrappers {

  /** A value that may be absent; stands for a Java reference that may be null. */
  datatype Option<+T> = None | Some(value: T)

  /** The outcome of a call that either returns a value or throws. */
  datatype Result<+R, +E> = Success(value: R) | Failure(error: E)
}

/** The exceptions the checkpoint manager lets escape to its caller. */
module Exceptions {

  datatype Exception =
    /** String.substring with a negative end index: the path has no separator left. */
    | StringIndexOutOfBounds
    /** IllegalArgumentException raised by the empty-object-name check. */
    | IllegalArgument(message: string)
    /** AmazonS3Exception returned by the object store, with its HTTP status. */
    | AmazonS3(statusCode: int)

  /** The status the object store answers for an object that does not exist. */
  const NotFound: int := 404
}

/** Hadoop configuration lookups, reduced to a finite map from names to values. */
module HadoopConf {
  import opened Wrappers

  type Configuration = map<string, string>

  /** Configuration.get(name): the value, or null when the name is unset. */
  function Get(conf: Configuration, name: string): (r: Option<string>)
    ensures r.Some? <==> name in conf
    ensures r.Some? ==> r.value == conf[name]
  {
    if name in conf then Some(conf[name]) else None
  }

  /** Configuration.get(name, default): the value, or the default when the name is unset. */
  function GetOr(conf: Configuration, name: string, default: string): (r: string)
    ensures name in conf ==> r == conf[name]
    ensures name !in conf ==> r == default
  {
    match Get(conf, name)
    case Some(v) => v
    case None => default
  }
}
