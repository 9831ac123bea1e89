/** What the two decorators share: the collaborators they are built from, the
    failures they let through, and the removal of `api_resource` from the
    serialization context before delegating. */
module Decoration {
  import opened Results
  import opened Php

  /** A failure surfacing from a call to `normalize`. */
  datatype Error =
    /** An exception thrown by the decorated `normalize`, the IRI converter or
        the context builder, passed on as it was thrown. */
    | Thrown(exception: string)
    /** `$context['output']['iri'] = …` applied to an `output` entry that PHP
        cannot write into: a string, a number, `true`, or an object (whose
        class, and so whether it implements `ArrayAccess`, is not modelled). */
    | OutputNotWritable(output: Value)

  /** The `$format` argument: a format name, or PHP null. */
  type Format = Option<string>

  /** The decorated normalizer, known only through its three methods. Only
      `normalize` can fail here: `supportsNormalization` and
      `hasCacheableSupportsMethod` are modelled as answers that never throw. */
  datatype Decorated = Decorated(
    supports: (Value, Format, PhpArray) -> bool,
    normalize: (Value, Format, PhpArray) -> Result<Value, Error>,
    cacheable: bool)

  /** `IriConverterInterface::getIriFromItem`: the IRI of a resource, or the
      exception the converter throws for an item it cannot identify. */
  type IriConverter = Value -> Result<string, Error>

  const API_RESOURCE: Key := StrKey("api_resource")

  /** The resource taken out of the context, and the context that is left. */
  datatype Extraction = Extraction(resource: Option<Value>, delegated: PhpArray)

  /** `if (isset($context['api_resource'])) { $originalResource = …; unset(…); }`:
      a resource held under `api_resource` is taken out of the context; a
      missing or null entry leaves the context exactly as it was. */
  function ExtractResource(context: PhpArray): (x: Extraction)
    ensures x.resource.Some? <==> Isset(context, API_RESOURCE)
    ensures x.resource.Some? ==> Get(context, API_RESOURCE) == Some(x.resource.value)
    ensures !Isset(x.delegated, API_RESOURCE)
    ensures forall k :: k != API_RESOURCE ==> Get(x.delegated, k) == Get(context, k)
    ensures Subsequence(x.delegated, context)
    ensures x.resource.None? ==> x.delegated == context
  {
    if Isset(context, API_RESOURCE) then
      Extraction(Some(Get(context, API_RESOURCE).value), Unset(context, API_RESOURCE))
    else
      SubsequenceOfItself(context);
      Extraction(None, context)
  }

  /** Two decorated normalizers that return the same result for every context
      without a non-null `api_resource`; what they do on other contexts is
      free. */
  ghost predicate AgreeWithoutResource(d1: Decorated, d2: Decorated) {
    forall o, f, c :: !Isset(c, API_RESOURCE) ==> d1.normalize(o, f, c) == d2.normalize(o, f, c)
  }
}
