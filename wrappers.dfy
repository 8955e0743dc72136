/** Option and Result: the absent `@Nullable` value and the thrown exception of the Java code. */
module Wrappers {

  /** `None` stands for Java's `null`. */
  datatype Option<+T> = None | Some(value: T)

  /** `Failure(e)` stands for an exception `e` thrown to the caller; usable with `:-`. */
  datatype Result<+T, +E> = Success(value: T) | Failure(error: E) {

    predicate IsFailure() {
      Failure?
    }

    function PropagateFailure<U>(): Result<U, E>
      requires Failure?
    {
      Failure(error)
    }

    function Extract(): T
      requires Success?
    {
      value
    }
  }
}

/** The exceptions the resolution of an operation can end with. */
module RegistryErrors {

  datatype Error =
    /** `UserException`: a versioned name that is not `{description}@{version}`. */
    | MalformedVersionedDescription
    /** `NoSuchBeanDefinitionException` from the legacy by-name lookup. */
    | NoSuchBeanDefinition
    /** `ClassCastException` from the legacy lookup: the bean under that name is not of the requested kind. */
    | BeanNotOfRequiredType
    /** `CloudProviderNotFoundException`: no catalog entry carries the provider id. */
    | CloudProviderNotFound
    /** `RuntimeException`: `count` catalog entries carry the provider id. */
    | DuplicateCloudProvider(count: nat)
    /** `AtomicOperationConverterNotFoundException`: no tagged converter survives filtering. */
    | ConverterNotFound
    /** `RuntimeException`: `count` tagged converters survive filtering. */
    | MultipleConverters(count: nat)
}
