# Operation registry resolution, modelled in Dafny

This project models how clouddriver's `AnnotationsBasedAtomicOperationsRegistry` picks the handler for a
named atomic operation: exactly one *converter* (`getAtomicOperationConverter`), or at most one
*description validator* (`getAtomicOperationDescriptionValidator`), for an optional cloud provider.

Resolution has four steps, and each is a function here:

1. **Legacy lookup** (`AnnotationsRegistry.GetBean`): the name is first looked up as a bean name. A bean
   of the requested kind is returned at once, whatever the provider. A bean of the other kind fails the
   cast. A missing bean is final for a converter when no provider is given. A validator falls through to
   `null` in that case.
2. **Versioned names** (`VersionedDescriptions.From`): `name@version` is split at every `@`, as Guava's
   `Splitter.on("@")` does, keeping empty pieces. No `@` gives an unversioned name. One `@` gives
   (before, after). More than one is a `UserException`.
3. **Provider tag** (`AnnotationsRegistry.GetCloudProviderAnnotation`): the provider id must match
   exactly one catalog entry. That entry's operation annotation type is the tag.
4. **Filtering and cardinality**: the beans carrying the tag are filtered. For converters the filter keeps
   matching base name and converter kind, then keeps those that accept the requested version
   (`VersionedOperationHelper.FindVersionMatches`). Zero survivors is "not found" and two or more is an
   error. Validators are matched by validator name and kind, and the first match is returned.

The collaborators are plain values:
- the Spring application context is a `Directory`: a map from bean name to bean, plus the sequence of all
  beans;
- a bean is a `Handler` with a kind, the text of each provider annotation it carries, and its
  `acceptsVersion` predicate;
- the `CloudProvider` list is a sequence of (id, annotation type) pairs;
- `DescriptionValidator.getValidatorName` is a function field of the `Registry`.

Exceptions are values of `RegistryErrors.Error`, one constructor per exception the code throws.

Where the code evidently goes wrong, the model follows the intended behaviour:
- Strings are compared by value. The code compares `String`s with reference `==` (`clouddriver-api/src/main/java/com/netflix/spinnaker/clouddriver/orchestration/AnnotationsBasedAtomicOperationsRegistry.java` lines 72, 122 and 135).
- The candidates are the annotated beans themselves. The code collects the `Map.Entry` objects of
  `getBeansWithAnnotation(...).entrySet()`, passes them to `findVersionMatches` and casts them to the
  handler interfaces (lines 61-78, 91, 113-126), where the first such use fails with
  `ClassCastException`. Module `AsWritten` models this too; see "## Findings".
- Provider lookup reports "not found" on zero matches and returns the single entry's annotation type.
  The code tests `!isEmpty()` at line 137 and returns `null` at lines 144-145. Module `AsWritten`
  models the code as written; see "## Findings".

These points follow the code as written:
- Empty pieces are accepted: `"a@"` parses to `("a", "")` and `"@v"` to `("", "v")`.
- Converter resolution parses each tagged bean's annotation text inside the filter, before the
  `instanceof` test. So one tagged bean of either kind with a malformed annotation makes the whole
  converter lookup fail (`AnnotationsRegistry.ConverterMalformedCandidate`).
- The validator path parses no version and calls no version filter. When several validators match it
  returns the first one instead of reporting the ambiguity (`AnnotationsRegistry.ValidatorFirstMatch`).

## Model

| member | source | states |
|---|---|---|
| `VersionedDescriptions.From` | clouddriver-api/src/main/java/com/netflix/spinnaker/clouddriver/orchestration/AnnotationsBasedAtomicOperationsRegistry.java:160-172 | Fails, and only with the malformed-name error, exactly when the name has two or more `@`. A name without `@` gives itself with no version. On success neither part contains `@`, a version is present exactly when the input has an `@`, and rejoining the parts gives back the input. |
| `VersionedDescriptions.FromFormat` | clouddriver-api/src/main/java/com/netflix/spinnaker/clouddriver/orchestration/AnnotationsBasedAtomicOperationsRegistry.java:161-168 | Any base and version free of `@` (either may be empty), joined as `base@version` or given as `base` alone, parse back to exactly that pair. |
| `VersionedDescriptions.Split` | clouddriver-api/src/main/java/com/netflix/spinnaker/clouddriver/orchestration/AnnotationsBasedAtomicOperationsRegistry.java:150-162 | Splitting on `@` gives one more piece than the input has `@`, and no piece contains `@`. |
| `VersionedDescriptions.JoinSplit` | clouddriver-api/src/main/java/com/netflix/spinnaker/clouddriver/orchestration/AnnotationsBasedAtomicOperationsRegistry.java:162 | Splitting loses nothing: joining the pieces with `@` gives back the input. |
| `VersionedDescriptions.SplitJoin` | clouddriver-api/src/main/java/com/netflix/spinnaker/clouddriver/orchestration/AnnotationsBasedAtomicOperationsRegistry.java:162 | Pieces free of `@`, joined with `@` and split again, come back unchanged. |
| `VersionedDescriptions.Occurrences` | clouddriver-api/src/main/java/com/netflix/spinnaker/clouddriver/orchestration/AnnotationsBasedAtomicOperationsRegistry.java:161 | The `@` count is zero exactly when `contains("@")` is false. |
| `Streams.Filter` | clouddriver-api/src/main/java/com/netflix/spinnaker/clouddriver/orchestration/VersionedOperationHelper.java:10-12 | A stream `filter`/`collect`. Every kept element satisfies the predicate and comes from the input. Every input element that satisfies it is kept. The output is no longer than the input. |
| `Streams.FilterIsSubsequence` | clouddriver-api/src/main/java/com/netflix/spinnaker/clouddriver/orchestration/VersionedOperationHelper.java:10-12 | The filter's output is a subsequence of its input, so relative order is preserved. |
| `Streams.TryFilter` | clouddriver-api/src/main/java/com/netflix/spinnaker/clouddriver/orchestration/AnnotationsBasedAtomicOperationsRegistry.java:61-75 | A filter whose predicate may throw. It succeeds exactly when the predicate succeeds on every element. Otherwise it fails with the failure of the first element that fails. On success it keeps exactly the elements the predicate accepts. |
| `VersionedOperationHelper.FindVersionMatches` | clouddriver-api/src/main/java/com/netflix/spinnaker/clouddriver/orchestration/VersionedOperationHelper.java:8-13 | Every returned operation accepts the version. Every input operation that accepts it is returned. The output is no longer than the input. |
| `VersionedOperationHelper.FindVersionMatchesIsSubsequence` | clouddriver-api/src/main/java/com/netflix/spinnaker/clouddriver/orchestration/VersionedOperationHelper.java:10-12 | The matches keep the input's relative order. |
| `VersionedOperationHelper.FindVersionMatchesIsFilter` | clouddriver-api/src/main/java/com/netflix/spinnaker/clouddriver/orchestration/VersionedOperationHelper.java:11 | The matches are the filter of the input by any predicate that agrees with `acceptsVersion(version)` on the input. |
| `VersionedOperationHelper.VersionSeenOnlyByOperations` | clouddriver-api/src/main/java/com/netflix/spinnaker/clouddriver/orchestration/VersionedOperationHelper.java:9-11 | No version, not even an absent one, is special-cased. Two versions that every operation answers alike select the same operations. |
| `AnnotationsRegistry.GetBean` | clouddriver-api/src/main/java/com/netflix/spinnaker/clouddriver/orchestration/ApplicationContextAtomicOperationsRegistry.java:39-53 | The legacy `getBean` plus cast. It succeeds exactly when a bean of the requested kind has the name, and returns that bean. The no-such-bean error comes exactly when the name is absent. Otherwise it fails the cast. |
| `AnnotationsRegistry.BeansWithAnnotation` | clouddriver-api/src/main/java/com/netflix/spinnaker/clouddriver/orchestration/AnnotationsBasedAtomicOperationsRegistry.java:62-71 | Lists only context beans that carry the provider's annotation, each paired with that annotation's text, and lists every such bean. |
| `AnnotationsRegistry.BeansWithAnnotationIsFilter` | clouddriver-api/src/main/java/com/netflix/spinnaker/clouddriver/orchestration/AnnotationsBasedAtomicOperationsRegistry.java:62 | The listed beans are exactly the context's beans carrying the annotation, each as often as it occurs there, in context order. |
| `AnnotationsRegistry.CloudProvidersWithId` | clouddriver-api/src/main/java/com/netflix/spinnaker/clouddriver/orchestration/AnnotationsBasedAtomicOperationsRegistry.java:133-136 | The id filter keeps only catalog entries with the requested id, and keeps every such entry. |
| `AnnotationsRegistry.GetCloudProviderAnnotation` | clouddriver-api/src/main/java/com/netflix/spinnaker/clouddriver/orchestration/AnnotationsBasedAtomicOperationsRegistry.java:129-146 | Not found exactly when no entry has the id. The duplicate error exactly when two entries have it. On success, the result is the annotation type of an entry with that id. No other error occurs. |
| `AnnotationsRegistry.RegisteredProvider` | clouddriver-api/src/main/java/com/netflix/spinnaker/clouddriver/orchestration/AnnotationsBasedAtomicOperationsRegistry.java:133-145 | A provider listed exactly once resolves to its own annotation type. |
| `AnnotationsRegistry.ProviderLookupIgnoresOtherIds` | clouddriver-api/src/main/java/com/netflix/spinnaker/clouddriver/orchestration/AnnotationsBasedAtomicOperationsRegistry.java:133-136 | Adding a catalog entry with another id, at any position, does not change the outcome. |
| `AnnotationsRegistry.DeclaresConverter` | clouddriver-api/src/main/java/com/netflix/spinnaker/clouddriver/orchestration/AnnotationsBasedAtomicOperationsRegistry.java:64-74 | The per-candidate filter of the converter lookup. It throws, and only the malformed-name error, exactly when the candidate's annotation text has two or more `@`. It keeps the candidate exactly when the candidate is a converter whose annotation parses to the requested base name, with any version. |
| `AnnotationsRegistry.TaggedConverters` | clouddriver-api/src/main/java/com/netflix/spinnaker/clouddriver/orchestration/AnnotationsBasedAtomicOperationsRegistry.java:60-78 | The tagged converter pipeline. It can fail only with the malformed-name error. Every candidate it keeps is an eligible converter: right kind, annotation parses to the requested base name, accepts the requested version. |
| `AnnotationsRegistry.TaggedConvertersAreEligible` | clouddriver-api/src/main/java/com/netflix/spinnaker/clouddriver/orchestration/AnnotationsBasedAtomicOperationsRegistry.java:61-78 | When every annotation parses, the name/kind filter followed by the version filter keeps exactly the eligible candidates, in order. |
| `AnnotationsRegistry.GetAtomicOperationConverter` | clouddriver-api/src/main/java/com/netflix/spinnaker/clouddriver/orchestration/AnnotationsBasedAtomicOperationsRegistry.java:25-92 | Only converters are returned. A legacy converter bean under the name is returned unchanged, whatever the provider. A legacy bean of the other kind fails the cast. A legacy miss without a provider is the no-such-bean error. Otherwise a malformed name, and then a provider failure, end resolution with that error before any bean is listed. |
| `AnnotationsRegistry.ConverterOutcome` | clouddriver-api/src/main/java/com/netflix/spinnaker/clouddriver/orchestration/AnnotationsBasedAtomicOperationsRegistry.java:61-91 | On the tagged path with parseable annotations, the outcome depends only on the single filter of the candidates by eligibility. No eligible candidate is "not found". Several give "more than one", with the number of them. One is returned. |
| `AnnotationsRegistry.ConverterNotFoundIffNoneEligible` | clouddriver-api/src/main/java/com/netflix/spinnaker/clouddriver/orchestration/AnnotationsBasedAtomicOperationsRegistry.java:80-84 | On the tagged path, the lookup fails with "not found" exactly when no candidate is an eligible converter. |
| `AnnotationsRegistry.ConverterAmbiguousIffTwoEligible` | clouddriver-api/src/main/java/com/netflix/spinnaker/clouddriver/orchestration/AnnotationsBasedAtomicOperationsRegistry.java:85-89 | On the tagged path, the lookup fails with "more than one" exactly when two distinct candidates are eligible converters. |
| `AnnotationsRegistry.ConverterFoundWhenOneEligible` | clouddriver-api/src/main/java/com/netflix/spinnaker/clouddriver/orchestration/AnnotationsBasedAtomicOperationsRegistry.java:91 | On the tagged path, when exactly one candidate is an eligible converter, that candidate's bean is returned. |
| `AnnotationsRegistry.ConverterMalformedCandidate` | clouddriver-api/src/main/java/com/netflix/spinnaker/clouddriver/orchestration/AnnotationsBasedAtomicOperationsRegistry.java:63-75 | One tagged bean whose annotation text has two or more `@` makes the converter lookup fail with the malformed-name error. |
| `AnnotationsRegistry.GetAtomicOperationDescriptionValidator` | clouddriver-api/src/main/java/com/netflix/spinnaker/clouddriver/orchestration/AnnotationsBasedAtomicOperationsRegistry.java:95-127 | Only validators are returned, and the lookup never fails with a not-found error of its own. A legacy validator bean is returned unchanged, and one of the other kind fails the cast. A legacy miss without a provider gives `null`. A provider failure propagates. |
| `AnnotationsRegistry.FirstDeclaringValidator` | clouddriver-api/src/main/java/com/netflix/spinnaker/clouddriver/orchestration/AnnotationsBasedAtomicOperationsRegistry.java:116-126 | The head of the filtered candidates is the first candidate, in list order, that declares the validator. The filter is empty exactly when no candidate declares it. |
| `AnnotationsRegistry.ValidatorFirstMatch` | clouddriver-api/src/main/java/com/netflix/spinnaker/clouddriver/orchestration/AnnotationsBasedAtomicOperationsRegistry.java:113-126 | On the tagged path the lookup always succeeds. It gives `null` exactly when no candidate declares the validator. Otherwise it gives the first candidate, in context order, that does. "Declares" is `DeclaresValidator`, the filter lambda at lines 116-123: a validator bean whose annotation text maps to the requested validator name. |
| `AsWritten.GetCloudProviderAnnotationAsWritten` | clouddriver-api/src/main/java/com/netflix/spinnaker/clouddriver/orchestration/AnnotationsBasedAtomicOperationsRegistry.java:133-145 | As written, the lookup never returns an annotation type. It throws "not found" exactly when some entry does have the id. It fails at `get(0)` with `IndexOutOfBoundsException` exactly when no entry has the id. |
| `AsWritten.RegisteredProviderRejected` | clouddriver-api/src/main/java/com/netflix/spinnaker/clouddriver/orchestration/AnnotationsBasedAtomicOperationsRegistry.java:137-145 | For a provider listed exactly once, the code as written throws "not found", while the corrected lookup returns its annotation type. |
| `AsWritten.TaggedConverterAsWritten` | clouddriver-api/src/main/java/com/netflix/spinnaker/clouddriver/orchestration/AnnotationsBasedAtomicOperationsRegistry.java:61-84 | As written, the tagged converter lookup never returns a converter. It fails on the cast of an entry exactly when every annotation parses and some candidate passes the name and kind filter. Otherwise it throws, and only the malformed-name error or "not found". |
| `AsWritten.SingleConverterEntryRejected` | clouddriver-api/src/main/java/com/netflix/spinnaker/clouddriver/orchestration/AnnotationsBasedAtomicOperationsRegistry.java:61-91 | With exactly one eligible converter, the code as written fails on the cast of its entry, while the corrected lookup returns that converter. |
| `AsWritten.TaggedValidatorAsWritten` | clouddriver-api/src/main/java/com/netflix/spinnaker/clouddriver/orchestration/AnnotationsBasedAtomicOperationsRegistry.java:113-126 | As written, the tagged validator lookup fails on the cast of `validators.get(0)` exactly when some candidate declares the validator, and otherwise gives `null`. |
| `AsWritten.DeclaredValidatorEntryRejected` | clouddriver-api/src/main/java/com/netflix/spinnaker/clouddriver/orchestration/AnnotationsBasedAtomicOperationsRegistry.java:113-126 | When a tagged candidate declares the validator, the code as written fails on the cast of its entry, while the corrected lookup returns a validator. |

## Left out

- Spring itself: reflection (`getBeansWithAnnotation`, `getAnnotation`), `@Autowired` wiring and bean
  creation. The context is a value. Its bean order stands for the iteration order of the returned map.
- What an annotation's `toString()` looks like (the code's own TODO at line 65 doubts it is the name).
  The model takes the annotation text as given.
- `DescriptionValidator.getValidatorName` is not part of this model. It is a function parameter.
- `CloudProvider` implementations and the two `AtomicOperationsRegistry` interfaces, which hold only
  signatures.
- A `null` bean from `getBean` (the `!= null` tests at lines 34 and 102). Spring does not return one
  for a defined bean. Also left out: `null` operation or validator names, which would throw
  `NullPointerException`.
- A bean that implements both the converter and the validator interface. Each bean has one kind.
- Exception message text, including the `${...}` placeholders, which Java does not interpolate. Only
  error kinds and counts are modelled.
- Reference identity of strings. It is replaced by value equality, as described above.
- `DuplicateCloudProvider(count)` and `MultipleConverters(count)`: the count belongs to the model.
  The code throws a plain `RuntimeException`, and the count appears only inside a `${...}`
  placeholder of its message, which Java does not fill in. So the program reports the count nowhere.
- Concurrency. Resolution is a pure function of its inputs.
- The link between the two views of the application context. `Directory.byName` (for `getBean`) and
  `Directory.beans` (for `getBeansWithAnnotation`) are independent inputs. Spring serves both from one
  context, but no lemma here depends on them agreeing.
- Bean names of annotated beans. A handler has no identity beyond its value, so two beans with equal
  kind, annotations and version predicate are indistinguishable.

## Findings

| source | as written | input that shows it | evidently intended | confidence | as-written member | corrected member |
|---|---|---|---|---|---|---|
| clouddriver-api/src/main/java/com/netflix/spinnaker/clouddriver/orchestration/AnnotationsBasedAtomicOperationsRegistry.java:137-145 | `if (!cloudProviderInstances.isEmpty()) throw CloudProviderNotFoundException`; then `get(0)` on the empty list, and `return null` | catalog `[("aws", A)]`, provider `"aws"`: throws "not found"; any provider that is absent: `IndexOutOfBoundsException`. "Not found" for a present provider assumes ids that compare equal; under reference `==` an equal id held in another `String` object also ends at `get(0)` | zero matches is "not found", one match returns its annotation type | not executed | `AsWritten.GetCloudProviderAnnotationAsWritten`, `AsWritten.RegisteredProviderRejected` | `AnnotationsRegistry.GetCloudProviderAnnotation` |
| clouddriver-api/src/main/java/com/netflix/spinnaker/clouddriver/orchestration/AnnotationsBasedAtomicOperationsRegistry.java:61-126 | `getBeansWithAnnotation(tag).entrySet().stream()...collect(...)`: the lists hold `Map.Entry` objects, which then reach `findVersionMatches` (whose `it.acceptsVersion` casts each element to the operation type) and the cast `(DescriptionValidator) validators.get(0)` | with the provider lookup corrected (as written it never returns a tag, so this code is reached only after that fix): one bean annotated `@P("op")` that is an `AtomicOperationConverter`, and a lookup of `"op"` for a provider with tag `P` and no legacy bean `"op"`: `ClassCastException`; the same for a validator bean whose annotation maps to the requested validator name | the filters and casts apply to the beans, `entry.getValue()`, so a single eligible converter is returned and the first declaring validator is returned | not executed | `AsWritten.TaggedConverterAsWritten`, `AsWritten.SingleConverterEntryRejected`, `AsWritten.TaggedValidatorAsWritten`, `AsWritten.DeclaredValidatorEntryRejected` | `AnnotationsRegistry.ConverterFoundWhenOneEligible`, `AnnotationsRegistry.ValidatorFirstMatch` |
