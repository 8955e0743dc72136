/**
 * `VersionedDescription`: an operation name, optionally qualified as `name@version`.
 * `From` is the only way one is made; splitting follows Guava's `Splitter.on("@").splitToList`,
 * which splits at every separator and keeps empty pieces.
 */
module VersionedDescriptions {
  import opened Wrappers
  import opened RegistryErrors

  const Separator: char := '@'

  /** `version == None` is the Java `null` version of an unversioned name. */
  datatype VersionedDescription = VersionedDescription(descriptionName: string, version: Option<string>)

  /** Number of occurrences of `c` in `s`. */
  function Occurrences(s: string, c: char): (n: nat)
    ensures n == 0 <==> c !in s
    ensures n <= |s|
  {
    if |s| == 0 then 0
    else (if s[0] == c then 1 else 0) + Occurrences(s[1..], c)
  }

  /** The pieces of `s` between the occurrences of `sep`, empty pieces included. */
  function Split(s: string, sep: char): (parts: seq<string>)
    ensures |parts| == Occurrences(s, sep) + 1
    ensures forall i :: 0 <= i < |parts| ==> sep !in parts[i]
  {
    if |s| == 0 then [""]
    else
      var rest := Split(s[1..], sep);
      if s[0] == sep then [""] + rest
      else [[s[0]] + rest[0]] + rest[1..]
  }

  /** The pieces, with `sep` between each two neighbours. */
  function Join(parts: seq<string>, sep: char): string
    requires |parts| >= 1
  {
    if |parts| == 1 then parts[0] else parts[0] + [sep] + Join(parts[1..], sep)
  }

  /** Splitting loses nothing: joining the pieces gives back the input. */
  lemma {:induction false} JoinSplit(s: string, sep: char)
    ensures Join(Split(s, sep), sep) == s
  {
    if |s| > 0 {
      var rest := Split(s[1..], sep);
      JoinSplit(s[1..], sep);
      if s[0] == sep {
        assert ([""] + rest)[1..] == rest;
      } else {
        var parts := [[s[0]] + rest[0]] + rest[1..];
        if |rest| == 1 {
          assert parts == [[s[0]] + rest[0]];
        } else {
          assert parts[1..] == rest[1..];
          assert Join(rest, sep) == rest[0] + [sep] + Join(rest[1..], sep);
        }
      }
    }
  }

  /** Joining pieces free of the separator and splitting again gives back the pieces. */
  lemma {:induction false} SplitJoin(parts: seq<string>, sep: char)
    requires |parts| >= 1
    requires forall i :: 0 <= i < |parts| ==> sep !in parts[i]
    ensures Split(Join(parts, sep), sep) == parts
  {
    if |parts| == 1 {
      SplitFree(parts[0], sep);
    } else {
      SplitJoin(parts[1..], sep);
      SplitThroughSeparator(parts[0], Join(parts[1..], sep), sep);
      assert [parts[0]] + parts[1..] == parts;
    }
  }

  lemma {:induction false} SplitFree(s: string, sep: char)
    requires sep !in s
    ensures Split(s, sep) == [s]
  {
    if |s| > 0 {
      SplitFree(s[1..], sep);
      assert [s[0]] + s[1..] == s;
    }
  }

  /** Splitting `a + [sep] + b` where `a` is free of `sep` puts `a` first and then the pieces of `b`. */
  lemma {:induction false} SplitThroughSeparator(a: string, b: string, sep: char)
    requires sep !in a
    ensures Split(a + [sep] + b, sep) == [a] + Split(b, sep)
  {
    var s := a + [sep] + b;
    if |a| == 0 {
      assert s[1..] == b;
    } else {
      assert s[1..] == a[1..] + [sep] + b;
      SplitThroughSeparator(a[1..], b, sep);
      assert [a[0]] + a[1..] == a;
    }
  }

  /** The text `From` reads back: `name` alone, or `name@version`. */
  function Format(vd: VersionedDescription): string
  {
    match vd.version
    case None => vd.descriptionName
    case Some(v) => vd.descriptionName + [Separator] + v
  }

  /** Neither part contains the separator, as every result of `From` satisfies. */
  predicate WellFormed(vd: VersionedDescription)
  {
    Separator !in vd.descriptionName && (vd.version.Some? ==> Separator !in vd.version.value)
  }

  /**
   * `VersionedDescription.from`: a name with no `@` is unversioned; a name with one `@` splits
   * into the text before and the text after it (either may be empty); any more `@` is malformed.
   */
  function From(descriptionName: string): (r: Result<VersionedDescription, Error>)
    ensures r.Failure? <==> Occurrences(descriptionName, Separator) >= 2
    ensures r.Failure? ==> r.error == MalformedVersionedDescription
    ensures Separator !in descriptionName ==> r == Success(VersionedDescription(descriptionName, None))
    ensures r.Success? ==> WellFormed(r.value) && Format(r.value) == descriptionName
    ensures r.Success? ==> (r.value.version.Some? <==> Separator in descriptionName)
  {
    if Separator in descriptionName then
      var parts := Split(descriptionName, Separator);
      if |parts| != 2 then Failure(MalformedVersionedDescription)
      else
        JoinSplit(descriptionName, Separator);
        Success(VersionedDescription(parts[0], Some(parts[1])))
    else
      Success(VersionedDescription(descriptionName, None))
  }

  /** Every well-formed description is read back from its text: `From` inverts `Format`. */
  lemma {:induction false} FromFormat(vd: VersionedDescription)
    requires WellFormed(vd)
    ensures From(Format(vd)) == Success(vd)
  {
    if vd.version.Some? {
      var parts := [vd.descriptionName, vd.version.value];
      assert Join(parts[1..], Separator) == vd.version.value;
      SplitJoin(parts, Separator);
      assert Split(Format(vd), Separator) == parts;
    }
  }
}
