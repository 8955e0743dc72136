/**
 * `AnnotationsBasedAtomicOperationsRegistry`: which converter, or which validator, handles a
 * named operation for a cloud provider.
 *
 * A name is first looked up as a bean name (the legacy, provider-specific naming scheme). Only
 * when no bean has that name and a provider is given does resolution go on: the provider's
 * operation annotation type is looked up in the provider catalog, the beans carrying that
 * annotation are listed, and those whose annotation names the operation (and, for converters,
 * accept the requested version) are kept.
 *
 * Divergences from the code, all modelled as evidently intended:
 * - names are compared by value; the code compares `String`s with reference `==`;
 * - the candidates are the annotated beans; the code collects the `Map.Entry` objects of
 *   `getBeansWithAnnotation(...).entrySet()` and later casts them to the handler interfaces;
 * - provider lookup fails when no catalog entry matches and returns the one entry's annotation
 *   type; the code tests `!isEmpty()` and returns `null` (see module AsWritten).
 */
module AnnotationsRegistry {
  import opened Wrappers
  import opened RegistryErrors
  import opened Streams
  import opened VersionedDescriptions
  import opened VersionedOperationHelper

  /** Which handler interface a bean implements. */
  datatype Kind = Converter | Validator

  /** An operation annotation type, one per cloud provider (e.g. the one of the AWS provider). */
  datatype Tag = Tag(annotationType: string)

  /**
   * A bean of the application context. `annotations[t]` is the text of its annotation of type
   * `t` (what `getClass().getAnnotation(t).toString()` yields); `acceptsVersion` is
   * `VersionedCloudProviderOperation.acceptsVersion`.
   */
  datatype Handler = Handler(kind: Kind, annotations: map<Tag, string>,
                             acceptsVersion: Option<string> -> bool)

  /** A `CloudProvider` of the catalog: its id and its operation annotation type. */
  datatype CloudProvider = CloudProvider(id: string, operationAnnotationType: Tag)

  /** A bean listed under an annotation type, with the text of that annotation. */
  datatype AnnotatedBean = AnnotatedBean(bean: Handler, annotation: string)

  /**
   * The application context: beans by name (for `getBean`) and all beans, in order. The two
   * views are independent inputs; nothing requires a named bean to appear among `beans`.
   */
  datatype Directory = Directory(byName: map<string, Handler>, beans: seq<Handler>)

  /**
   * The registry's collaborators. `validatorName` is `DescriptionValidator.getValidatorName`,
   * whose definition is not part of this model.
   */
  datatype Registry = Registry(applicationContext: Directory, cloudProviders: seq<CloudProvider>,
                               validatorName: string -> string)

  /**
   * The legacy lookup `(Converter or Validator) applicationContext.getBean(name)`: a missing name
   * throws `NoSuchBeanDefinitionException`, a bean of the other kind fails the cast.
   */
  function GetBean(context: Directory, name: string, kind: Kind): (r: Result<Handler, Error>)
    ensures r.Success? <==> name in context.byName && context.byName[name].kind == kind
    ensures r.Success? ==> r.value == context.byName[name]
    ensures r == Failure(NoSuchBeanDefinition) <==> name !in context.byName
    ensures r.Failure? ==> r.error == NoSuchBeanDefinition || r.error == BeanNotOfRequiredType
  {
    if name !in context.byName then Failure(NoSuchBeanDefinition)
    else if context.byName[name].kind != kind then Failure(BeanNotOfRequiredType)
    else Success(context.byName[name])
  }

  /**
   * `getBeansWithAnnotation(tag)` with each bean's annotation of that type: exactly the beans
   * annotated with `tag`, in the context's order.
   */
  function BeansWithAnnotation(beans: seq<Handler>, tag: Tag): (r: seq<AnnotatedBean>)
    ensures |r| <= |beans|
    ensures forall i :: 0 <= i < |r| ==>
                        r[i].bean in beans && tag in r[i].bean.annotations &&
                        r[i].annotation == r[i].bean.annotations[tag]
    ensures forall i :: 0 <= i < |beans| && tag in beans[i].annotations ==>
                        AnnotatedBean(beans[i], beans[i].annotations[tag]) in r
  {
    if |beans| == 0 then []
    else
      var rest := BeansWithAnnotation(beans[1..], tag);
      if tag in beans[0].annotations then [AnnotatedBean(beans[0], beans[0].annotations[tag])] + rest
      else rest
  }

  /** The beans of listed candidates, in list order. */
  function Beans(listed: seq<AnnotatedBean>): (r: seq<Handler>)
    ensures |r| == |listed|
    ensures forall i :: 0 <= i < |listed| ==> r[i] == listed[i].bean
  {
    if |listed| == 0 then [] else [listed[0].bean] + Beans(listed[1..])
  }

  /** The beans `getBeansWithAnnotation` lists are the context's beans carrying `tag`, each once, in context order. */
  lemma {:induction false} BeansWithAnnotationIsFilter(beans: seq<Handler>, tag: Tag)
    ensures Beans(BeansWithAnnotation(beans, tag)) == Filter(beans, (b: Handler) => tag in b.annotations)
  {
    if |beans| != 0 {
      BeansWithAnnotationIsFilter(beans[1..], tag);
      var rest := BeansWithAnnotation(beans[1..], tag);
      if tag in beans[0].annotations {
        var listed := [AnnotatedBean(beans[0], beans[0].annotations[tag])] + rest;
        assert listed[1..] == rest;
      }
    }
  }

  /** The catalog entries whose id is `cloudProvider` (the `it.getId() == cloudProvider` filter), in catalog order. */
  function CloudProvidersWithId(cloudProviders: seq<CloudProvider>, cloudProvider: string): (r: seq<CloudProvider>)
    ensures forall i :: 0 <= i < |r| ==> r[i].id == cloudProvider && r[i] in cloudProviders
    ensures forall i :: 0 <= i < |cloudProviders| && cloudProviders[i].id == cloudProvider ==>
                        cloudProviders[i] in r
  {
    Filter(cloudProviders, (p: CloudProvider) => p.id == cloudProvider)
  }

  /**
   * `getCloudProviderAnnotation`: the operation annotation type of the one catalog entry with
   * id `cloudProvider`; not found when there is none, a configuration error when there are several.
   */
  function GetCloudProviderAnnotation(cloudProviders: seq<CloudProvider>, cloudProvider: string): (r: Result<Tag, Error>)
    ensures r.Failure? ==> r.error == CloudProviderNotFound || r.error.DuplicateCloudProvider?
    ensures r == Failure(CloudProviderNotFound) <==>
            forall i :: 0 <= i < |cloudProviders| ==> cloudProviders[i].id != cloudProvider
    ensures (r.Failure? && r.error.DuplicateCloudProvider?) <==>
            exists i, j :: 0 <= i < j < |cloudProviders| &&
                           cloudProviders[i].id == cloudProvider && cloudProviders[j].id == cloudProvider
    ensures r.Success? ==>
            exists i :: 0 <= i < |cloudProviders| && cloudProviders[i].id == cloudProvider &&
                        r.value == cloudProviders[i].operationAnnotationType
  {
    var cloudProviderInstances := CloudProvidersWithId(cloudProviders, cloudProvider);
    FilterEmpty(cloudProviders, (p: CloudProvider) => p.id == cloudProvider);
    FilterAtLeastTwo(cloudProviders, (p: CloudProvider) => p.id == cloudProvider);
    if |cloudProviderInstances| == 0 then Failure(CloudProviderNotFound)
    else if |cloudProviderInstances| > 1 then Failure(DuplicateCloudProvider(|cloudProviderInstances|))
    else Success(cloudProviderInstances[0].operationAnnotationType)
  }

  /** A provider registered exactly once resolves to its own operation annotation type. */
  lemma RegisteredProvider(cloudProviders: seq<CloudProvider>, cloudProvider: string, k: nat)
    requires k < |cloudProviders| && cloudProviders[k].id == cloudProvider
    requires forall j :: 0 <= j < |cloudProviders| && j != k ==> cloudProviders[j].id != cloudProvider
    ensures GetCloudProviderAnnotation(cloudProviders, cloudProvider) ==
            Success(cloudProviders[k].operationAnnotationType)
  {
    var r := GetCloudProviderAnnotation(cloudProviders, cloudProvider);
    assert r.Success? ==> r.value == cloudProviders[k].operationAnnotationType;
  }

  /** Resolution depends only on the catalog entries with the requested id: adding another changes nothing. */
  lemma ProviderLookupIgnoresOtherIds(cloudProviders: seq<CloudProvider>, other: CloudProvider, k: nat,
                                      cloudProvider: string)
    requires k <= |cloudProviders| && other.id != cloudProvider
    ensures GetCloudProviderAnnotation(cloudProviders[..k] + [other] + cloudProviders[k..], cloudProvider) ==
            GetCloudProviderAnnotation(cloudProviders, cloudProvider)
  {
    var extended := cloudProviders[..k] + [other] + cloudProviders[k..];
    FilterIgnoresRejected(cloudProviders, other, k, (p: CloudProvider) => p.id == cloudProvider);
    assert CloudProvidersWithId(extended, cloudProvider) == CloudProvidersWithId(cloudProviders, cloudProvider);
  }

  /**
   * The converter filter of the tagged lookup on one candidate: its annotation text is parsed
   * as a versioned name (which may throw) and its base name compared with the requested one.
   */
  function DeclaresConverter(candidate: AnnotatedBean, descriptionName: string): (r: Result<bool, Error>)
    ensures r.Failure? <==> Occurrences(candidate.annotation, Separator) >= 2
    ensures r.Failure? ==> r.error == MalformedVersionedDescription
    ensures r == Success(true) <==>
            candidate.bean.kind == Converter &&
            exists version :: From(candidate.annotation) == Success(VersionedDescription(descriptionName, version))
  {
    var converterVersion :- From(candidate.annotation);
    Success(converterVersion.descriptionName == descriptionName && candidate.bean.kind == Converter)
  }

  /** Every candidate's annotation text is a well-formed versioned name. */
  predicate DeclaredNamesParse(candidates: seq<AnnotatedBean>)
  {
    forall i :: 0 <= i < |candidates| ==> From(candidates[i].annotation).Success?
  }

  /** A candidate the converter lookup for `vd` keeps after filtering by name, kind and version. */
  predicate EligibleConverter(candidate: AnnotatedBean, vd: VersionedDescription)
  {
    && candidate.bean.kind == Converter
    && From(candidate.annotation).Success?
    && From(candidate.annotation).value.descriptionName == vd.descriptionName
    && candidate.bean.acceptsVersion(vd.version)
  }

  /**
   * The tagged lookup's candidates for `vd` (the stream pipeline in `getAtomicOperationConverter`): the beans annotated with `tag`, filtered by
   * declared name and kind, then by version.
   */
  function TaggedConverters(context: Directory, vd: VersionedDescription, tag: Tag): (r: Result<seq<AnnotatedBean>, Error>)
    ensures r.Failure? ==> r.error == MalformedVersionedDescription
    ensures r.Success? ==> forall i :: 0 <= i < |r.value| ==> EligibleConverter(r.value[i], vd)
  {
    var candidates := BeansWithAnnotation(context.beans, tag);
    var named :- TryFilter(candidates, (c: AnnotatedBean) => DeclaresConverter(c, vd.descriptionName));
    Success(FindVersionMatches(vd.version, named, (c: AnnotatedBean, v: Option<string>) => c.bean.acceptsVersion(v)))
  }

  /** When every candidate's annotation parses, the tagged lookup keeps exactly the eligible candidates, in order. */
  lemma TaggedConvertersAreEligible(context: Directory, vd: VersionedDescription, tag: Tag)
    requires DeclaredNamesParse(BeansWithAnnotation(context.beans, tag))
    ensures TaggedConverters(context, vd, tag) ==
            Success(Filter(BeansWithAnnotation(context.beans, tag), (c: AnnotatedBean) => EligibleConverter(c, vd)))
  {
    var candidates := BeansWithAnnotation(context.beans, tag);
    var p := (c: AnnotatedBean) => DeclaresConverter(c, vd.descriptionName);
    var named := (c: AnnotatedBean) =>
      From(c.annotation).Success? && From(c.annotation).value.descriptionName == vd.descriptionName &&
      c.bean.kind == Converter;
    var acceptsVersion := (c: AnnotatedBean, v: Option<string>) => c.bean.acceptsVersion(v);
    var accepts := (c: AnnotatedBean) => c.bean.acceptsVersion(vd.version);
    forall i | 0 <= i < |candidates| ensures p(candidates[i]) == Success(named(candidates[i])) {
    }
    TryFilterIsFilter(candidates, p, named);
    FindVersionMatchesIsFilter(vd.version, Filter(candidates, named), acceptsVersion, accepts);
    FilterFilter(candidates, named, accepts, (c: AnnotatedBean) => EligibleConverter(c, vd));
  }

  /** `getAtomicOperationConverter(description, cloudProvider)`. */
  function GetAtomicOperationConverter(registry: Registry, description: string,
                                       cloudProvider: Option<string>): (r: Result<Handler, Error>)
    ensures r.Success? ==> r.value.kind == Converter
    // a bean with that name is returned unchanged, whatever the provider
    ensures description in registry.applicationContext.byName &&
            registry.applicationContext.byName[description].kind == Converter ==>
            r == Success(registry.applicationContext.byName[description])
    ensures description in registry.applicationContext.byName &&
            registry.applicationContext.byName[description].kind != Converter ==>
            r == Failure(BeanNotOfRequiredType)
    // without a provider the legacy miss is final
    ensures description !in registry.applicationContext.byName && cloudProvider.None? ==>
            r == Failure(NoSuchBeanDefinition)
    // a malformed name, then a provider failure, ends resolution before any bean is listed
    ensures description !in registry.applicationContext.byName && cloudProvider.Some? &&
            From(description).Failure? ==>
            r == Failure(MalformedVersionedDescription)
    ensures description !in registry.applicationContext.byName && cloudProvider.Some? &&
            From(description).Success? &&
            GetCloudProviderAnnotation(registry.cloudProviders, cloudProvider.value).Failure? ==>
            r == Failure(GetCloudProviderAnnotation(registry.cloudProviders, cloudProvider.value).error)
  {
    match GetBean(registry.applicationContext, description, Converter)
    case Success(converter) => Success(converter)
    case Failure(e) =>
      if e != NoSuchBeanDefinition || cloudProvider.None? then Failure(e)
      else
        var versionedDescription :- From(description);
        var providerAnnotationType :- GetCloudProviderAnnotation(registry.cloudProviders, cloudProvider.value);
        var converters :- TaggedConverters(registry.applicationContext, versionedDescription, providerAnnotationType);
        if |converters| == 0 then Failure(ConverterNotFound)
        else if |converters| > 1 then Failure(MultipleConverters(|converters|))
        else Success(converters[0].bean)
  }

  /** Converter resolution reached the tagged lookup for `vd` under the provider annotation type `tag`. */
  predicate OnTaggedPath(registry: Registry, description: string, cloudProvider: string,
                         vd: VersionedDescription, tag: Tag)
  {
    && description !in registry.applicationContext.byName
    && From(description) == Success(vd)
    && GetCloudProviderAnnotation(registry.cloudProviders, cloudProvider) == Success(tag)
  }

  /** On the tagged path the outcome is decided by the eligible candidates alone. */
  lemma ConverterOutcome(registry: Registry, description: string, cloudProvider: string,
                         vd: VersionedDescription, tag: Tag)
    requires OnTaggedPath(registry, description, cloudProvider, vd, tag)
    requires DeclaredNamesParse(BeansWithAnnotation(registry.applicationContext.beans, tag))
    ensures var matches := Filter(BeansWithAnnotation(registry.applicationContext.beans, tag),
                                  (c: AnnotatedBean) => EligibleConverter(c, vd));
            GetAtomicOperationConverter(registry, description, Some(cloudProvider)) ==
            if |matches| == 0 then Failure(ConverterNotFound)
            else if |matches| > 1 then Failure(MultipleConverters(|matches|))
            else Success(matches[0].bean)
  {
    TaggedConvertersAreEligible(registry.applicationContext, vd, tag);
  }

  /** On the tagged path, "not found" exactly when no candidate is an eligible converter. */
  lemma ConverterNotFoundIffNoneEligible(registry: Registry, description: string, cloudProvider: string,
                                         vd: VersionedDescription, tag: Tag)
    requires OnTaggedPath(registry, description, cloudProvider, vd, tag)
    requires DeclaredNamesParse(BeansWithAnnotation(registry.applicationContext.beans, tag))
    ensures var candidates := BeansWithAnnotation(registry.applicationContext.beans, tag);
            GetAtomicOperationConverter(registry, description, Some(cloudProvider)) == Failure(ConverterNotFound) <==>
            forall i :: 0 <= i < |candidates| ==> !EligibleConverter(candidates[i], vd)
  {
    var candidates := BeansWithAnnotation(registry.applicationContext.beans, tag);
    ConverterOutcome(registry, description, cloudProvider, vd, tag);
    FilterEmpty(candidates, (c: AnnotatedBean) => EligibleConverter(c, vd));
  }

  /** On the tagged path, "more than one" exactly when two candidates are eligible converters. */
  lemma ConverterAmbiguousIffTwoEligible(registry: Registry, description: string, cloudProvider: string,
                                         vd: VersionedDescription, tag: Tag)
    requires OnTaggedPath(registry, description, cloudProvider, vd, tag)
    requires DeclaredNamesParse(BeansWithAnnotation(registry.applicationContext.beans, tag))
    ensures var candidates := BeansWithAnnotation(registry.applicationContext.beans, tag);
            var r := GetAtomicOperationConverter(registry, description, Some(cloudProvider));
            (r.Failure? && r.error.MultipleConverters?) <==>
            exists i, j :: 0 <= i < j < |candidates| &&
                           EligibleConverter(candidates[i], vd) && EligibleConverter(candidates[j], vd)
  {
    var candidates := BeansWithAnnotation(registry.applicationContext.beans, tag);
    ConverterOutcome(registry, description, cloudProvider, vd, tag);
    FilterAtLeastTwo(candidates, (c: AnnotatedBean) => EligibleConverter(c, vd));
  }

  /** On the tagged path, a single eligible candidate is the converter returned. */
  lemma ConverterFoundWhenOneEligible(registry: Registry, description: string, cloudProvider: string,
                                      vd: VersionedDescription, tag: Tag, k: nat)
    requires OnTaggedPath(registry, description, cloudProvider, vd, tag)
    requires DeclaredNamesParse(BeansWithAnnotation(registry.applicationContext.beans, tag))
    requires var candidates := BeansWithAnnotation(registry.applicationContext.beans, tag);
             k < |candidates| && EligibleConverter(candidates[k], vd) &&
             forall j :: 0 <= j < |candidates| && j != k ==> !EligibleConverter(candidates[j], vd)
    ensures GetAtomicOperationConverter(registry, description, Some(cloudProvider)) ==
            Success(BeansWithAnnotation(registry.applicationContext.beans, tag)[k].bean)
  {
    var candidates := BeansWithAnnotation(registry.applicationContext.beans, tag);
    var eligible := (c: AnnotatedBean) => EligibleConverter(c, vd);
    ConverterOutcome(registry, description, cloudProvider, vd, tag);
    FilterSingle(candidates, eligible, k);
  }

  /** A candidate whose annotation text is not a versioned name makes the whole converter lookup fail. */
  lemma ConverterMalformedCandidate(registry: Registry, description: string, cloudProvider: string,
                                    vd: VersionedDescription, tag: Tag, k: nat)
    requires OnTaggedPath(registry, description, cloudProvider, vd, tag)
    requires k < |BeansWithAnnotation(registry.applicationContext.beans, tag)|
    requires From(BeansWithAnnotation(registry.applicationContext.beans, tag)[k].annotation).Failure?
    ensures GetAtomicOperationConverter(registry, description, Some(cloudProvider)) ==
            Failure(MalformedVersionedDescription)
  {
  }

  /** The validator filter of the tagged lookup on one candidate. */
  predicate DeclaresValidator(registry: Registry, candidate: AnnotatedBean, validator: string)
  {
    registry.validatorName(candidate.annotation) == validator && candidate.bean.kind == Validator
  }

  /**
   * `getAtomicOperationDescriptionValidator(validator, cloudProvider)`; `None` is the `null`
   * that means "no validator configured".
   */
  function GetAtomicOperationDescriptionValidator(registry: Registry, validator: string,
                                                  cloudProvider: Option<string>): (r: Result<Option<Handler>, Error>)
    ensures r.Success? && r.value.Some? ==> r.value.value.kind == Validator
    // never a not-found error for the validator itself
    ensures r.Failure? ==>
            r.error == BeanNotOfRequiredType || r.error == CloudProviderNotFound || r.error.DuplicateCloudProvider?
    ensures validator in registry.applicationContext.byName &&
            registry.applicationContext.byName[validator].kind == Validator ==>
            r == Success(Some(registry.applicationContext.byName[validator]))
    ensures validator in registry.applicationContext.byName &&
            registry.applicationContext.byName[validator].kind != Validator ==>
            r == Failure(BeanNotOfRequiredType)
    ensures validator !in registry.applicationContext.byName && cloudProvider.None? ==> r == Success(None)
    ensures validator !in registry.applicationContext.byName && cloudProvider.Some? &&
            GetCloudProviderAnnotation(registry.cloudProviders, cloudProvider.value).Failure? ==>
            r == Failure(GetCloudProviderAnnotation(registry.cloudProviders, cloudProvider.value).error)
  {
    match GetBean(registry.applicationContext, validator, Validator)
    case Success(descriptionValidator) => Success(Some(descriptionValidator))
    case Failure(e) =>
      if e != NoSuchBeanDefinition then Failure(e)
      else if cloudProvider.None? then Success(None)
      else
        var providerAnnotationType :- GetCloudProviderAnnotation(registry.cloudProviders, cloudProvider.value);
        var candidates := BeansWithAnnotation(registry.applicationContext.beans, providerAnnotationType);
        var validators := Filter(candidates, (c: AnnotatedBean) => DeclaresValidator(registry, c, validator));
        if |validators| != 0 then Success(Some(validators[0].bean)) else Success(None)
  }

  /** On the tagged path the validator outcome is decided by the candidates that declare the validator. */
  lemma ValidatorOutcome(registry: Registry, validator: string, cloudProvider: string, tag: Tag)
    requires validator !in registry.applicationContext.byName
    requires GetCloudProviderAnnotation(registry.cloudProviders, cloudProvider) == Success(tag)
    ensures var validators := Filter(BeansWithAnnotation(registry.applicationContext.beans, tag),
                                     (c: AnnotatedBean) => DeclaresValidator(registry, c, validator));
            GetAtomicOperationDescriptionValidator(registry, validator, Some(cloudProvider)) ==
            if |validators| != 0 then Success(Some(validators[0].bean)) else Success(None)
  {
  }

  /** Among `candidates`, the first one that declares `validator` is the head of those that do. */
  lemma FirstDeclaringValidator(registry: Registry, validator: string, candidates: seq<AnnotatedBean>)
    ensures var validators := Filter(candidates, (c: AnnotatedBean) => DeclaresValidator(registry, c, validator));
            && (|validators| == 0 <==>
                forall i :: 0 <= i < |candidates| ==> !DeclaresValidator(registry, candidates[i], validator))
            && (|validators| != 0 ==>
                exists i :: 0 <= i < |candidates| && validators[0].bean == candidates[i].bean &&
                            DeclaresValidator(registry, candidates[i], validator) &&
                            forall j :: 0 <= j < i ==> !DeclaresValidator(registry, candidates[j], validator))
  {
    var declares := (c: AnnotatedBean) => DeclaresValidator(registry, c, validator);
    FilterEmpty(candidates, declares);
    if Filter(candidates, declares) != [] {
      FilterHead(candidates, declares);
    }
  }

  /**
   * On the tagged path the validator lookup always succeeds: with nothing when no candidate
   * declares the validator, and otherwise with the first candidate, in context order, that does.
   */
  lemma ValidatorFirstMatch(registry: Registry, validator: string, cloudProvider: string, tag: Tag)
    requires validator !in registry.applicationContext.byName
    requires GetCloudProviderAnnotation(registry.cloudProviders, cloudProvider) == Success(tag)
    ensures var candidates := BeansWithAnnotation(registry.applicationContext.beans, tag);
            var r := GetAtomicOperationDescriptionValidator(registry, validator, Some(cloudProvider));
            && r.Success?
            && (r.value.None? <==>
                forall i :: 0 <= i < |candidates| ==> !DeclaresValidator(registry, candidates[i], validator))
            && (r.value.Some? ==>
                exists i :: 0 <= i < |candidates| && r.value.value == candidates[i].bean &&
                            DeclaresValidator(registry, candidates[i], validator) &&
                            forall j :: 0 <= j < i ==> !DeclaresValidator(registry, candidates[j], validator))
  {
    ValidatorOutcome(registry, validator, cloudProvider, tag);
    FirstDeclaringValidator(registry, validator, BeansWithAnnotation(registry.applicationContext.beans, tag));
  }
}
