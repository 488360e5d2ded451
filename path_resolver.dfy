/** The string surgery every operation of S3BasedCheckpointFileManager performs on
    its path argument, written once: strip a leading "s3a://", trim the result the
    way Java's String.trim does, drop at most one leading '/', and split at the
    first remaining '/' into a bucket name and an object key. */
module PathResolver {
  import opened Wrappers
  import opened Exceptions

  /** The prefix removed by replaceFirst("^s3a://", ""). */
  const Scheme: string := "s3a://"

  /** Hadoop's Path.SEPARATOR_CHAR. */
  const Separator: char := '/'

  /** Where an object lives in the store. */
  datatype Location = Location(bucket: string, key: string)

  /** Java's String.trim removes every char whose code is at most U+0020. */
  predicate IsSpace(c: char) {
    c <= ' '
  }

  predicate AllSpaces(s: string) {
    forall i :: 0 <= i < |s| ==> IsSpace(s[i])
  }

  /** The first index at or after `from` whose char is not a space (or |s|). */
  function SkipSpaces(s: string, from: nat): (st: nat)
    requires from <= |s|
    ensures from <= st <= |s|
    ensures forall i :: from <= i < st ==> IsSpace(s[i])
    ensures st < |s| ==> !IsSpace(s[st])
    decreases |s| - from
  {
    if from < |s| && IsSpace(s[from]) then SkipSpaces(s, from + 1) else from
  }

  /** The end of `s[st..len]` once its trailing spaces are dropped. */
  function BackOverSpaces(s: string, st: nat, len: nat): (en: nat)
    requires st <= len <= |s|
    ensures st <= en <= len
    ensures forall i :: en <= i < len ==> IsSpace(s[i])
    ensures st < en ==> !IsSpace(s[en - 1])
    decreases len
  {
    if st < len && IsSpace(s[len - 1]) then BackOverSpaces(s, st, len - 1) else len
  }

  /** String.trim: skip the leading spaces, back over the trailing ones, and keep
      what lies between. */
  function Trim(s: string): (r: string)
    ensures |r| <= |s|
    ensures r == [] || (!IsSpace(r[0]) && !IsSpace(r[|r| - 1]))
    ensures r == [] <==> AllSpaces(s)
  {
    var st := SkipSpaces(s, 0);
    var en := BackOverSpaces(s, st, |s|);
    s[st..en]
  }

  /** replaceFirst("^s3a://", ""): the scheme is removed only at the very start. */
  function StripScheme(s: string): (r: string)
    ensures Scheme <= s ==> s == Scheme + r
    ensures !(Scheme <= s) ==> r == s
  {
    if Scheme <= s then s[|Scheme|..] else s
  }

  /** Drops one leading separator, if there is one. */
  function DropSeparator(s: string): (r: string)
    ensures s != [] && s[0] == Separator ==> [Separator] + r == s
    ensures !(s != [] && s[0] == Separator) ==> r == s
  {
    if s != [] && s[0] == Separator then s[1..] else s
  }

  /** The string the split is applied to. */
  function Normalise(path: string): string {
    DropSeparator(Trim(StripScheme(path)))
  }

  /** String.indexOf(c): the first index of `c` in `s`, or -1. */
  function IndexOf(s: string, c: char): (i: int)
    ensures -1 <= i < |s|
    ensures i >= 0 ==> s[i] == c && c !in s[..i]
    ensures i == -1 <==> c !in s
  {
    if s == [] then -1
    else if s[0] == c then 0
    else
      var j := IndexOf(s[1..], c);
      assert s == [s[0]] + s[1..];
      if j < 0 then -1 else j + 1
  }

  /** Split at the first separator; p.substring(0, -1) throws when there is none. */
  function Split(p: string): (r: Result<Location, Exception>)
    ensures r.Success? <==> Separator in p
    ensures r.Success? ==> Separator !in r.value.bucket
    ensures r.Success? ==> r.value.bucket + [Separator] + r.value.key == p
    ensures r.Failure? ==> r.error == StringIndexOutOfBounds
  {
    var pos := IndexOf(p, Separator);
    if pos < 0 then Failure(StringIndexOutOfBounds)
    else
      assert p == p[..pos] + [Separator] + p[pos + 1..];
      Success(Location(p[..pos], p[pos + 1..]))
  }

  /** The (bucket, key) that list, createAtomic, open, exists and delete compute from a path. */
  function Decompose(path: string): (r: Result<Location, Exception>)
    ensures r.Success? <==> Separator in Normalise(path)
    ensures r.Success? ==> Separator !in r.value.bucket
    ensures r.Success? ==> r.value.bucket + [Separator] + r.value.key == Normalise(path)
    ensures r.Failure? ==> r.error == StringIndexOutOfBounds
  {
    Split(Normalise(path))
  }

  /** The message of the IllegalArgumentException for a path whose object name is empty. */
  function InvalidPathMessage(path: string): string {
    path + " is not a valid path for the file system"
  }

  /** Decompose followed by the empty-object-name check of createAtomic, open and exists. */
  function ResolveObject(path: string): (r: Result<Location, Exception>)
    ensures r.Success? <==> Decompose(path).Success? && Decompose(path).value.key != []
    ensures r.Success? ==> r == Decompose(path)
    ensures Decompose(path).Failure? ==> r == Decompose(path)
    ensures Decompose(path).Success? && Decompose(path).value.key == [] ==>
              r == Failure(IllegalArgument(InvalidPathMessage(path)))
  {
    match Decompose(path)
    case Failure(e) => Failure(e)
    case Success(loc) =>
      if loc.key == [] then Failure(IllegalArgument(InvalidPathMessage(path))) else Success(loc)
  }

  // ---------------------------------------------------------------------------
  // Properties of the decomposition
  // ---------------------------------------------------------------------------

  /** String.trim removes exactly the spaces around a text that starts and ends
      with a non-space char (with no spaces around, it changes nothing). */
  lemma TrimRemovesSurroundingSpaces(w1: string, t: string, w2: string)
    requires AllSpaces(w1) && AllSpaces(w2)
    requires t != [] && !IsSpace(t[0]) && !IsSpace(t[|t| - 1])
    ensures Trim(w1 + t + w2) == t
  {
    var s := w1 + t + w2;
    var a, b := |w1|, |w1| + |t|;
    assert forall i :: 0 <= i < a ==> s[i] == w1[i];
    assert forall i :: b <= i < |s| ==> s[i] == w2[i - b];
    assert s[a] == t[0] && s[b - 1] == t[|t| - 1];
    var st := SkipSpaces(s, 0);
    assert st == a;
    var en := BackOverSpaces(s, st, |s|);
    assert en == b;
    assert s[a..b] == t;
  }

  /** A text that starts and ends with a non-space char is its own trim. */
  lemma TrimUnchanged(t: string)
    requires t != [] && !IsSpace(t[0]) && !IsSpace(t[|t| - 1])
    ensures Trim(t) == t
  {
    assert SkipSpaces(t, 0) == 0;
    assert BackOverSpaces(t, 0, |t|) == |t|;
    assert t[0..|t|] == t;
  }

  /** Splitting a separator-free bucket joined to a key gives both back. */
  lemma SplitJoined(b: string, k: string)
    requires Separator !in b
    ensures Split(b + [Separator] + k) == Success(Location(b, k))
  {
    var p := b + [Separator] + k;
    assert p[|b|] == Separator;
    var pos := IndexOf(p, Separator);
    assert p[..|b|] == b;
    assert pos == |b|;
    assert p[pos + 1..] == k;
  }

  /** A bucket name that survives normalisation untouched at the front. */
  predicate PlainBucket(b: string) {
    b != [] && Separator !in b && !IsSpace(b[0])
  }

  /** A key that survives normalisation untouched at the back. */
  predicate PlainKey(k: string) {
    k == [] || !IsSpace(k[|k| - 1])
  }

  lemma JoinedIsTrimmed(b: string, k: string)
    requires PlainBucket(b) && PlainKey(k)
    ensures Trim(b + [Separator] + k) == b + [Separator] + k
    ensures Trim([Separator] + b + [Separator] + k) == [Separator] + b + [Separator] + k
  {
    var t := b + [Separator] + k;
    assert t[|t| - 1] == if k == [] then Separator else k[|k| - 1];
    TrimUnchanged(t);
    var st := [Separator] + t;
    assert st[|st| - 1] == t[|t| - 1];
    TrimUnchanged(st);
    assert st == [Separator] + b + [Separator] + k;
  }

  /** The scheme is stripped from a string that starts with it. */
  lemma StripsLeadingScheme(t: string)
    ensures StripScheme(Scheme + t) == t
  {
    assert (Scheme + t)[..|Scheme|] == Scheme;
  }

  /** A string whose first char is not 's' does not start with the scheme. */
  lemma KeepsOtherStart(s: string)
    requires s != [] && s[0] != 's'
    ensures StripScheme(s) == s
  {
    assert !(Scheme <= s) by { assert Scheme[0] == 's'; }
  }

  lemma RoundTripWithScheme(b: string, k: string)
    requires PlainBucket(b) && PlainKey(k)
    ensures Decompose(Scheme + (b + [Separator] + k)) == Success(Location(b, k))
  {
    var t := b + [Separator] + k;
    assert Normalise(Scheme + t) == t by {
      JoinedIsTrimmed(b, k);
      assert t[0] == b[0];
      StripsLeadingScheme(t);
    }
    SplitJoined(b, k);
    DecomposeVia(Scheme + t, t, Success(Location(b, k)));
  }

  lemma RoundTripWithSeparator(b: string, k: string)
    requires PlainBucket(b) && PlainKey(k)
    ensures Decompose([Separator] + (b + [Separator] + k)) == Success(Location(b, k))
  {
    var t := b + [Separator] + k;
    assert Normalise([Separator] + t) == t by {
      JoinedIsTrimmed(b, k);
      assert [Separator] + b + [Separator] + k == [Separator] + t;
      KeepsOtherStart([Separator] + t);
    }
    SplitJoined(b, k);
    DecomposeVia([Separator] + t, t, Success(Location(b, k)));
  }

  lemma RoundTripBare(b: string, k: string)
    requires PlainBucket(b) && PlainKey(k)
    requires !(Scheme <= b + [Separator] + k)
    ensures Decompose(b + [Separator] + k) == Success(Location(b, k))
  {
    var t := b + [Separator] + k;
    assert Normalise(t) == t by {
      JoinedIsTrimmed(b, k);
      assert t[0] == b[0];
    }
    SplitJoined(b, k);
    DecomposeVia(t, t, Success(Location(b, k)));
  }

  /** "s3a://b/k", "/b/k" and "b/k" all decompose to bucket b and key k. The bare
      form needs one exclusion: for bucket "s3a:" and a key starting with '/',
      "b/k" itself starts with the scheme, which is then stripped. */
  lemma DecomposeRoundTrip(b: string, k: string)
    requires PlainBucket(b) && PlainKey(k)
    ensures Decompose(Scheme + (b + [Separator] + k)) == Success(Location(b, k))
    ensures Decompose([Separator] + (b + [Separator] + k)) == Success(Location(b, k))
    ensures !(Scheme <= b + [Separator] + k) ==>
              Decompose(b + [Separator] + k) == Success(Location(b, k))
  {
    RoundTripWithScheme(b, k);
    RoundTripWithSeparator(b, k);
    if !(Scheme <= b + [Separator] + k) {
      RoundTripBare(b, k);
    }
  }

  /** The example path of the checkpoint layout. */
  lemma DecomposeExample()
    ensures Decompose("s3a://bucket1/ckpt/_commits/0") == Success(Location("bucket1", "ckpt/_commits/0"))
    ensures ResolveObject("s3a://bucket1/ckpt/_commits/0") == Success(Location("bucket1", "ckpt/_commits/0"))
  {
    var b, k := "bucket1", "ckpt/_commits/0";
    assert Separator !in b by {
      forall i | 0 <= i < |b| ensures b[i] != Separator { }
    }
    var path := Scheme + (b + [Separator] + k);
    assert path == "s3a://bucket1/ckpt/_commits/0";
    RoundTripWithScheme(b, k);
  }

  /** Behind leading spaces the scheme is not stripped, and trimming keeps it. */
  lemma SpacesKeepScheme(w: string, bk: string)
    requires w != [] && AllSpaces(w)
    requires bk != [] && !IsSpace(bk[|bk| - 1])
    ensures Normalise(w + (Scheme + bk)) == Scheme + bk
  {
    var t := Scheme + bk;
    var s := w + t;
    assert s[0] == w[0] && IsSpace(s[0]);
    KeepsOtherStart(s);
    assert t[0] == 's' && t[|t| - 1] == bk[|bk| - 1];
    assert s == w + t + [];
    TrimRemovesSurroundingSpaces(w, t, []);
  }

  /** A path that still starts with the scheme splits at the scheme's first '/'. */
  lemma SplitsInsideScheme(bk: string)
    ensures Split(Scheme + bk) == Success(Location("s3a:", [Separator] + bk))
  {
    assert Separator !in "s3a:" by {
      forall i | 0 <= i < 4 ensures "s3a:"[i] != Separator { }
    }
    SplitJoined("s3a:", [Separator] + bk);
    assert "s3a:" + [Separator] + ([Separator] + bk) == Scheme + bk;
  }

  /** The scheme is stripped before trimming, so leading spaces keep it: the
      bucket becomes "s3a:" and the rest of the path becomes the key. */
  lemma SchemeOnlyAtStart(w: string, b: string, k: string)
    requires w != [] && AllSpaces(w)
    requires PlainBucket(b) && PlainKey(k)
    ensures Decompose(w + (Scheme + (b + [Separator] + k)))
              == Success(Location("s3a:", [Separator] + (b + [Separator] + k)))
  {
    var bk := b + [Separator] + k;
    assert bk[|bk| - 1] == if k == [] then Separator else k[|k| - 1];
    SpacesKeepScheme(w, bk);
    SplitsInsideScheme(bk);
    DecomposeVia(w + (Scheme + bk), Scheme + bk, Success(Location("s3a:", [Separator] + bk)));
  }

  /** A decomposition is the split of the normalised path. */
  lemma DecomposeVia(path: string, normalised: string, r: Result<Location, Exception>)
    requires Normalise(path) == normalised && Split(normalised) == r
    ensures Decompose(path) == r
  {
  }

  /** Of two leading separators, normalisation drops one. */
  lemma DropsOneOfTwo(bk: string)
    requires bk != [] && !IsSpace(bk[|bk| - 1])
    ensures Normalise([Separator, Separator] + bk) == [Separator] + bk
  {
    var s := [Separator, Separator] + bk;
    assert StripScheme(s) == s by {
      KeepsOtherStart(s);
    }
    assert Trim(s) == s by {
      assert s[|s| - 1] == bk[|bk| - 1];
      TrimUnchanged(s);
    }
    assert DropSeparator(s) == [Separator] + bk by {
      assert s[1..] == [Separator] + bk;
    }
  }

  /** Behind two leading separators the bucket is empty. */
  lemma EmptyBucket(bk: string)
    requires bk != [] && !IsSpace(bk[|bk| - 1])
    ensures Decompose([Separator, Separator] + bk) == Success(Location("", bk))
  {
    DropsOneOfTwo(bk);
    assert Split([Separator] + bk) == Success(Location("", bk)) by {
      SplitJoined("", bk);
      assert "" + [Separator] + bk == [Separator] + bk;
    }
    DecomposeVia([Separator, Separator] + bk, [Separator] + bk, Success(Location("", bk)));
  }

  /** Only one leading separator is dropped: "//b/k" has an empty bucket. */
  lemma OneSeparatorDropped(b: string, k: string)
    requires PlainBucket(b) && PlainKey(k)
    ensures Decompose([Separator, Separator] + (b + [Separator] + k))
              == Success(Location("", b + [Separator] + k))
  {
    var bk := b + [Separator] + k;
    assert bk[|bk| - 1] == if k == [] then Separator else k[|k| - 1];
    EmptyBucket(bk);
  }

  /** The guard on the bare form is needed: "s3a:" + "/" + "/x" starts with the
      scheme, which is stripped, so no separator is left to split at. */
  lemma BareFormNeedsGuard()
    ensures Decompose("s3a:" + [Separator] + "/x") == Failure(StringIndexOutOfBounds)
  {
    var p := "s3a:" + [Separator] + "/x";
    assert p == Scheme + "x";
    assert Normalise(p) == "x" by {
      StripsLeadingScheme("x");
      TrimUnchanged("x");
    }
    assert Separator !in "x";
    DecomposeVia(p, "x", Failure(StringIndexOutOfBounds));
  }

  /** A path naming only a bucket fails: without a trailing separator the
      substring call throws, with one the object name is empty. */
  lemma BucketOnlyPaths(b: string)
    requires PlainBucket(b) && !IsSpace(b[|b| - 1])
    ensures Decompose(Scheme + b) == Failure(StringIndexOutOfBounds)
    ensures Decompose(Scheme + (b + [Separator])) == Success(Location(b, ""))
    ensures ResolveObject(Scheme + (b + [Separator]))
              == Failure(IllegalArgument(InvalidPathMessage(Scheme + (b + [Separator]))))
  {
    assert Normalise(Scheme + b) == b by {
      StripsLeadingScheme(b);
      TrimUnchanged(b);
    }
    DecomposeVia(Scheme + b, b, Failure(StringIndexOutOfBounds));
    var t := b + [Separator];
    assert Normalise(Scheme + t) == t by {
      StripsLeadingScheme(t);
      assert t[0] == b[0] && t[|t| - 1] == Separator;
      TrimUnchanged(t);
    }
    assert Split(t) == Success(Location(b, "")) by {
      SplitJoined(b, "");
      assert b + [Separator] + "" == t;
    }
    DecomposeVia(Scheme + t, t, Success(Location(b, "")));
  }
}
