/**
 * `getCloudProviderAnnotation` as the code has it, kept beside the corrected
 * `AnnotationsRegistry.GetCloudProviderAnnotation` that the rest of the model uses. The code
 * throws "not found" when the list of matching providers is NOT empty, and after the checks it
 * calls `get(0)` on what is then an empty list and would return `null` even past that.
 * Ids are compared by value here. Under the code's reference `==` an id equal in value but held
 * in another `String` object matches nothing, and so ends at `get(0)` instead of "not found".
 *
 * Also as the code has it: the tagged converter and validator lookups collect the `Map.Entry`
 * objects of `getBeansWithAnnotation(...).entrySet()`, not the beans. The filters read
 * `getValue()` and so select correctly. The first handler-typed use of an entry is a cast that
 * fails with `ClassCastException`. For converters this is the `acceptsVersion` call inside
 * `findVersionMatches`, and for validators it is the cast of `validators.get(0)`. These
 * functions model the tagged step on its own: as written it is reached only once the provider
 * lookup above has been corrected to return a tag.
 */
module AsWritten {
  import opened Wrappers
  import opened RegistryErrors
  import opened Streams
  import opened VersionedDescriptions
  import opened AnnotationsRegistry

  /** How a call ends: an exception of the model, `IndexOutOfBoundsException`, or a returned tag. */
  datatype ProviderLookupOutcome = Threw(error: Error) | IndexOutOfBounds | Returned(tag: Option<Tag>)

  /** `getCloudProviderAnnotation` line by line: it never returns, so it never yields an annotation type. */
  function GetCloudProviderAnnotationAsWritten(cloudProviders: seq<CloudProvider>, cloudProvider: string): (r: ProviderLookupOutcome)
    ensures !r.Returned?
    ensures r == Threw(CloudProviderNotFound) <==>
            exists i :: 0 <= i < |cloudProviders| && cloudProviders[i].id == cloudProvider
    ensures r == IndexOutOfBounds <==>
            forall i :: 0 <= i < |cloudProviders| ==> cloudProviders[i].id != cloudProvider
  {
    var cloudProviderInstances := CloudProvidersWithId(cloudProviders, cloudProvider);
    FilterEmpty(cloudProviders, (p: CloudProvider) => p.id == cloudProvider);
    if |cloudProviderInstances| != 0 then Threw(CloudProviderNotFound)
    // the list is empty here, so the "more than one" test that follows cannot fire,
    // and `get(0)` on the empty list throws before `return null`
    else IndexOutOfBounds
  }

  /**
   * A catalog in which exactly one entry has the requested id: the code reports that provider
   * as not found, while the intended lookup returns that entry's annotation type.
   */
  lemma RegisteredProviderRejected(cloudProviders: seq<CloudProvider>, cloudProvider: string, k: nat)
    requires k < |cloudProviders| && cloudProviders[k].id == cloudProvider
    requires forall j :: 0 <= j < |cloudProviders| && j != k ==> cloudProviders[j].id != cloudProvider
    ensures GetCloudProviderAnnotationAsWritten(cloudProviders, cloudProvider) == Threw(CloudProviderNotFound)
    ensures GetCloudProviderAnnotation(cloudProviders, cloudProvider) ==
            Success(cloudProviders[k].operationAnnotationType)
  {
    RegisteredProvider(cloudProviders, cloudProvider, k);
  }

  /** How a tagged lookup over the raw entry list ends: a failed cast of an entry, an exception, or a result. */
  datatype EntryListOutcome = EntryCastFails | EntryThrew(error: Error) | EntryReturned(handler: Option<Handler>)

  /**
   * The tagged converter lookup for `vd` as written. The name and kind filter runs on the entries.
   * A non-empty result then reaches `acceptsVersion` as an entry, and the cast to the operation
   * type fails. An empty one is "not found".
   */
  function TaggedConverterAsWritten(context: Directory, vd: VersionedDescription, tag: Tag): (r: EntryListOutcome)
    ensures !r.EntryReturned?
    ensures r.EntryThrew? ==> r.error == MalformedVersionedDescription || r.error == ConverterNotFound
    ensures var candidates := BeansWithAnnotation(context.beans, tag);
            r == EntryCastFails <==>
            (forall i :: 0 <= i < |candidates| ==> DeclaresConverter(candidates[i], vd.descriptionName).Success?) &&
            exists i :: 0 <= i < |candidates| && DeclaresConverter(candidates[i], vd.descriptionName) == Success(true)
  {
    var candidates := BeansWithAnnotation(context.beans, tag);
    var declares := (c: AnnotatedBean) => DeclaresConverter(c, vd.descriptionName);
    match TryFilter(candidates, declares)
    case Failure(e) => EntryThrew(e)
    case Success(named) =>
      TryFilterNonEmpty(candidates, declares);
      if |named| != 0 then EntryCastFails else EntryThrew(ConverterNotFound)
  }

  /**
   * A tagged converter that is the only eligible one: as written the lookup fails on the cast of
   * its entry, while the corrected lookup returns it.
   */
  lemma SingleConverterEntryRejected(registry: Registry, description: string, cloudProvider: string,
                                     vd: VersionedDescription, tag: Tag, k: nat)
    requires OnTaggedPath(registry, description, cloudProvider, vd, tag)
    requires DeclaredNamesParse(BeansWithAnnotation(registry.applicationContext.beans, tag))
    requires var candidates := BeansWithAnnotation(registry.applicationContext.beans, tag);
             k < |candidates| && EligibleConverter(candidates[k], vd) &&
             forall j :: 0 <= j < |candidates| && j != k ==> !EligibleConverter(candidates[j], vd)
    ensures TaggedConverterAsWritten(registry.applicationContext, vd, tag) == EntryCastFails
    ensures GetAtomicOperationConverter(registry, description, Some(cloudProvider)) ==
            Success(BeansWithAnnotation(registry.applicationContext.beans, tag)[k].bean)
  {
    var candidates := BeansWithAnnotation(registry.applicationContext.beans, tag);
    assert DeclaresConverter(candidates[k], vd.descriptionName) == Success(true);
    forall i | 0 <= i < |candidates| ensures DeclaresConverter(candidates[i], vd.descriptionName).Success? {
    }
    ConverterFoundWhenOneEligible(registry, description, cloudProvider, vd, tag, k);
  }

  /**
   * The tagged validator lookup as written. The validator filter runs on the entries. A non-empty
   * result fails on `(DescriptionValidator) validators.get(0)`, and an empty one is `null`.
   */
  function TaggedValidatorAsWritten(registry: Registry, validator: string, tag: Tag): (r: EntryListOutcome)
    ensures r == EntryCastFails || r == EntryReturned(None)
    ensures var candidates := BeansWithAnnotation(registry.applicationContext.beans, tag);
            r == EntryCastFails <==>
            exists i :: 0 <= i < |candidates| && DeclaresValidator(registry, candidates[i], validator)
  {
    var candidates := BeansWithAnnotation(registry.applicationContext.beans, tag);
    var declares := (c: AnnotatedBean) => DeclaresValidator(registry, c, validator);
    FilterEmpty(candidates, declares);
    assert (exists i :: 0 <= i < |candidates| && declares(candidates[i])) ==>
           exists i :: 0 <= i < |candidates| && DeclaresValidator(registry, candidates[i], validator);
    if |Filter(candidates, declares)| != 0 then EntryCastFails else EntryReturned(None)
  }

  /**
   * A tagged candidate that declares the validator: as written the lookup fails on the cast of its
   * entry, while the corrected lookup returns a validator.
   */
  lemma DeclaredValidatorEntryRejected(registry: Registry, validator: string, cloudProvider: string, tag: Tag, k: nat)
    requires validator !in registry.applicationContext.byName
    requires GetCloudProviderAnnotation(registry.cloudProviders, cloudProvider) == Success(tag)
    requires k < |BeansWithAnnotation(registry.applicationContext.beans, tag)|
    requires DeclaresValidator(registry, BeansWithAnnotation(registry.applicationContext.beans, tag)[k], validator)
    ensures TaggedValidatorAsWritten(registry, validator, tag) == EntryCastFails
    ensures var r := GetAtomicOperationDescriptionValidator(registry, validator, Some(cloudProvider));
            r.Success? && r.value.Some?
  {
    ValidatorFirstMatch(registry, validator, cloudProvider, tag);
  }
}
