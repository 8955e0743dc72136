/** `VersionedOperationHelper.findVersionMatches`: keep the operations that accept a version. */
module VersionedOperationHelper {
  import opened Wrappers
  import opened Streams

  /**
   * The operations of `converters`, in order, whose `acceptsVersion` holds of `version`.
   * `version` (possibly `None`, Java's `null`) goes to each operation's predicate as it is.
   */
  function FindVersionMatches<T>(version: Option<string>, converters: seq<T>,
                                 acceptsVersion: (T, Option<string>) -> bool): (r: seq<T>)
    ensures |r| <= |converters|
    ensures forall i :: 0 <= i < |r| ==> acceptsVersion(r[i], version) && r[i] in converters
    ensures forall i :: 0 <= i < |converters| && acceptsVersion(converters[i], version) ==>
                        converters[i] in r
  {
    Filter(converters, (c: T) => acceptsVersion(c, version))
  }

  /** The matches keep the relative order of the input. */
  lemma FindVersionMatchesIsSubsequence<T>(version: Option<string>, converters: seq<T>,
                                           acceptsVersion: (T, Option<string>) -> bool)
    ensures IsSubsequence(FindVersionMatches(version, converters, acceptsVersion), converters)
  {
    FilterIsSubsequence(converters, (c: T) => acceptsVersion(c, version));
  }

  /** The matches are the filter of `converters` by any predicate that agrees with `acceptsVersion(_, version)`. */
  lemma FindVersionMatchesIsFilter<T>(version: Option<string>, converters: seq<T>,
                                      acceptsVersion: (T, Option<string>) -> bool, accepts: T -> bool)
    requires forall i :: 0 <= i < |converters| ==> acceptsVersion(converters[i], version) == accepts(converters[i])
    ensures FindVersionMatches(version, converters, acceptsVersion) == Filter(converters, accepts)
  {
    FilterExtensional(converters, (c: T) => acceptsVersion(c, version), accepts);
  }

  /**
   * No special case for any version, `None` included: two versions that every operation answers
   * alike select the same operations.
   */
  lemma VersionSeenOnlyByOperations<T>(v1: Option<string>, v2: Option<string>, converters: seq<T>,
                                       acceptsVersion: (T, Option<string>) -> bool)
    requires forall i :: 0 <= i < |converters| ==>
                         acceptsVersion(converters[i], v1) == acceptsVersion(converters[i], v2)
    ensures FindVersionMatches(v1, converters, acceptsVersion) ==
            FindVersionMatches(v2, converters, acceptsVersion)
  {
    FilterExtensional(converters, (c: T) => acceptsVersion(c, v1), (c: T) => acceptsVersion(c, v2));
  }
}
