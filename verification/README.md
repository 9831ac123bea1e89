# Non-resource object normalizers (HAL and JSON-LD), modelled in Dafny

API Platform serializes plain values, as well as its API resources. Two small
decorators handle values that are not resources. Each one wraps a *decorated*
Symfony normalizer and an *IRI converter*:

- the HAL `NonResourceObjectNormalizer` (format `jsonhal`). When the
  serialization context names a resource under `api_resource`, it puts
  `_links: {self: {href: IRI}}` in front of the normalized array;
- the JSON-LD `NonResourceObjectNormalizer` (format `jsonld`). When the context
  sets `api_normalize`, it puts the JSON-LD metadata (`@context`, `@id`, …)
  produced by a context builder in front of the normalized array. If a
  resource was given, the builder also receives the resource and its IRI.

Both decorators take `api_resource` out of the context before delegating. Both
merge with PHP's array union `$metadata + $data`.

The model is functional. PHP values and ordered PHP arrays are datatypes
(`Php`). The serialization context is such an array, so `isset`, `unset`
and appending assignment behave as they do in PHP. The autovivifying
`$context['output']['iri'] = …` does too, except for an object under `output`
(see "Left out"). The decorated normalizer, the IRI converter and the
JSON-LD context builder are function-valued fields. An exception thrown
by the decorated `normalize`, by `getIriFromItem` or by the context builder is a
`Failure` value that propagates unchanged. The decorated
`supportsNormalization` and `hasCacheableSupportsMethod` are modelled as never
throwing (see "Left out"). Each decorator's `normalize` is a pure function.
Lemmas state its branches, the context the collaborators receive, and the
shape of the merged array.

Modules:

- `Results`: `Option`, and `Result` (the value a PHP call returns or the exception it throws).
- `Php`: keys, values, arrays, `Get` (`$a[$k]`), `Isset`, `Unset`, `Assign`, `Truthy`.
- `ArrayUnion`: the `+` operator on arrays (`Union`). `MergeArrays` is the engine's insertion loop, proved equal to it.
- `Decoration`: what both classes share. This covers the collaborators, the `Error` type, and the removal of `api_resource`.
- `HalSerializer`: `src/Hal/Serializer/NonResourceObjectNormalizer.php`.
- `JsonLdSerializer`: `src/JsonLd/Serializer/NonResourceObjectNormalizer.php`.

One might expect the payload to win on a shared key. It does not:
`$metadata + $data` keeps the left operand's entry, so the metadata value is
kept and the data value is dropped. `CollisionExample` and the contract of
`ArrayUnion.Union` state this.

## Model

| member | source | states |
|---|---|---|
| `Php.Get` | src/JsonLd/Serializer/NonResourceObjectNormalizer.php:66 | reading `$a[$k]` finds a value exactly when `k` is one of the array's keys, and that value is stored under `k` in the array |
| `Php.IssetFindsEntry` | src/Hal/Serializer/NonResourceObjectNormalizer.php:60 | `isset($a[$k])` holds exactly when an entry under `k` holds something other than null. A null entry counts as unset |
| `Php.Truthy` | src/JsonLd/Serializer/NonResourceObjectNormalizer.php:71 | a value converts to false exactly when it is `null`, `false`, `0`, `""`, `"0"` or `[]` |
| `Php.Unset` | src/JsonLd/Serializer/NonResourceObjectNormalizer.php:67 | removes exactly the entries under the key. Every other entry keeps its value, and the survivors keep their relative order. A missing key leaves the array as it was |
| `Php.Assign` | src/JsonLd/Serializer/NonResourceObjectNormalizer.php:76-77 | after `$a[$k] = $v`, reading `k` gives `v` and reading any other key gives what it gave before |
| `Php.AssignAppends` | src/JsonLd/Serializer/NonResourceObjectNormalizer.php:77 | assigning to a key that is absent (here `api_resource`, which was unset) appends one entry at the end |
| `Php.AssignKeepsKeys` | src/JsonLd/Serializer/NonResourceObjectNormalizer.php:76 | assigning to a key that is present (an existing `output` or `iri`) keeps the key sequence and positions |
| `Php.AssignKeepsUniqueKeys` | src/JsonLd/Serializer/NonResourceObjectNormalizer.php:76-77 | an assignment never makes an array repeat a key |
| `ArrayUnion.Union` | src/JsonLd/Serializer/NonResourceObjectNormalizer.php:82 | `$metadata + $data` starts with all metadata entries in order. Then come exactly the data entries whose key the metadata lacks, in their data order. On a shared key, reading the result gives the metadata value |
| `ArrayUnion.UnionKeepsUniqueKeys` | src/Hal/Serializer/NonResourceObjectNormalizer.php:82 | the union of two arrays without repeated keys has no repeated key |
| `ArrayUnion.UnionWithSingle` | src/Hal/Serializer/NonResourceObjectNormalizer.php:74-82 | with a one-entry left operand, that entry comes first. It replaces the right operand's entry under the same key, and the rest follows unchanged |
| `ArrayUnion.MergeArrays` | src/Hal/Serializer/NonResourceObjectNormalizer.php:82 | the engine's algorithm gives exactly `Union`. It starts from the left operand and adds each right entry whose key is not yet present |
| `Decoration.ExtractResource` | src/Hal/Serializer/NonResourceObjectNormalizer.php:60-63 | a resource is extracted exactly when `api_resource` is set and not null. After extraction the context has no non-null `api_resource`, and every other key keeps its value and order. A null or missing entry leaves the context untouched |
| `HalSerializer.SupportsNormalization` | src/Hal/Serializer/NonResourceObjectNormalizer.php:42-45 | true only for format `jsonhal`. For that format it is true exactly when the decorated normalizer supports the same data, format and context |
| `HalSerializer.HasCacheableSupportsMethod` | src/Hal/Serializer/NonResourceObjectNormalizer.php:50-53 | always the decorated normalizer's answer |
| `HalSerializer.Normalize` | src/Hal/Serializer/NonResourceObjectNormalizer.php:58-83 | without a non-null `api_resource`, the result is the decorated result for the same arguments. With one, an array result always opens with `_links` holding the resource's IRI |
| `HalSerializer.DecoratedNeverSeesResource` | src/Hal/Serializer/NonResourceObjectNormalizer.php:60-65 | the decorated normalizer's behaviour on contexts that hold a non-null `api_resource` never affects the result |
| `HalSerializer.DecoratedFailurePropagates` | src/Hal/Serializer/NonResourceObjectNormalizer.php:65 | an exception from the decorated normalizer is passed on unchanged |
| `HalSerializer.NonArrayUnchanged` | src/Hal/Serializer/NonResourceObjectNormalizer.php:66-68 | decorated output that is not an array is returned unchanged |
| `HalSerializer.NoResourceIgnoresIriConverter` | src/Hal/Serializer/NonResourceObjectNormalizer.php:70-72 | without a resource, swapping the IRI converter changes nothing, because it is never consulted |
| `HalSerializer.SelfLinkComesFirst` | src/Hal/Serializer/NonResourceObjectNormalizer.php:74-82 | with a resource and array output, the result is `_links: {self: {href: IRI}}` first. The decorated entries other than `_links` follow, in order and with their values |
| `HalSerializer.ResultKeepsUniqueKeys` | src/Hal/Serializer/NonResourceObjectNormalizer.php:74-82 | when the decorated array repeats no key, a successful result is an array that repeats no key: `_links` is not duplicated |
| `HalSerializer.IriFailurePropagates` | src/Hal/Serializer/NonResourceObjectNormalizer.php:77 | with a resource and array output, an exception from the IRI converter is passed on unchanged |
| `HalSerializer.SelfLinkExample` | src/Hal/Serializer/NonResourceObjectNormalizer.php:58-83 | a resource resolving to `/x/1` with output `{name: "a"}` gives `{_links: {self: {href: "/x/1"}}, name: "a"}` |
| `JsonLdSerializer.SupportsNormalization` | src/JsonLd/Serializer/NonResourceObjectNormalizer.php:47-50 | true only for format `jsonld`. For that format it is true exactly when the decorated normalizer supports the same data, format and context |
| `JsonLdSerializer.HasCacheableSupportsMethod` | src/JsonLd/Serializer/NonResourceObjectNormalizer.php:55-58 | always the decorated normalizer's answer |
| `JsonLdSerializer.Normalize` | src/JsonLd/Serializer/NonResourceObjectNormalizer.php:63-83 | when `api_normalize` is missing or falsy, the result is the decorated result, even if a resource was given |
| `JsonLdSerializer.NormalizeRequested` | src/JsonLd/Serializer/NonResourceObjectNormalizer.php:71 | `$context['api_normalize'] ?? false` is true only when `api_normalize` is set and not null, and then exactly when its value is truthy |
| `JsonLdSerializer.WriteOutputIri` | src/JsonLd/Serializer/NonResourceObjectNormalizer.php:76 | `$context['output']['iri'] = $iri` succeeds exactly when `output` is an array, missing, null or false. Afterwards `output.iri` is the IRI, and the other `output` entries and context entries are kept. Otherwise the failure carries the `output` value |
| `JsonLdSerializer.BuilderContext` | src/JsonLd/Serializer/NonResourceObjectNormalizer.php:75-78 | without a resource, the builder's context is the context the decorated normalizer saw. With one, an IRI converter exception or an unwritable `output` is the failure. Otherwise `api_resource` holds the resource again and `output.iri` its IRI |
| `JsonLdSerializer.BuilderContextKeepsUniqueKeys` | src/JsonLd/Serializer/NonResourceObjectNormalizer.php:75-78 | a caller's context without repeated keys gives the builder a context without repeated keys: `output` and `api_resource` each appear once |
| `JsonLdSerializer.DecoratedNeverSeesResource` | src/JsonLd/Serializer/NonResourceObjectNormalizer.php:65-70 | the decorated normalizer's behaviour on contexts that hold a non-null `api_resource` never affects the result |
| `JsonLdSerializer.DecoratedFailurePropagates` | src/JsonLd/Serializer/NonResourceObjectNormalizer.php:70 | an exception from the decorated normalizer is passed on unchanged |
| `JsonLdSerializer.NonArrayUnchanged` | src/JsonLd/Serializer/NonResourceObjectNormalizer.php:71-72 | decorated output that is not an array is returned unchanged |
| `JsonLdSerializer.NotRequestedIgnoresCollaborators` | src/JsonLd/Serializer/NonResourceObjectNormalizer.php:71-72 | when `api_normalize` is missing or falsy, swapping the IRI converter or the context builder changes nothing, because neither is consulted |
| `JsonLdSerializer.BuilderContextRestoresResource` | src/JsonLd/Serializer/NonResourceObjectNormalizer.php:75-78 | with a resolvable resource and an `output` that is an array, missing, null or false, the builder's context has `api_resource` set back to the resource and `output.iri` set to its IRI. The rest of `output` and every other entry are the caller's |
| `JsonLdSerializer.BuilderSeesRestoredResource` | src/JsonLd/Serializer/NonResourceObjectNormalizer.php:75-82 | with `api_normalize`, array output, a resolvable resource and an `output` that is an array, missing, null or false, the result is the builder's metadata for the original object under that restored context, put in front of the decorated array |
| `JsonLdSerializer.BuilderSeesContextWithoutResource` | src/JsonLd/Serializer/NonResourceObjectNormalizer.php:75-82 | with `api_normalize` and array output but no resource, the builder gets the object and the caller's context, and the IRI converter is never consulted |
| `JsonLdSerializer.IriFailurePropagates` | src/JsonLd/Serializer/NonResourceObjectNormalizer.php:76 | an exception from the IRI converter is passed on unchanged |
| `JsonLdSerializer.UnwritableOutputFails` | src/JsonLd/Serializer/NonResourceObjectNormalizer.php:76 | with a resolvable resource, an `output` that is not an array, null or false makes the IRI write fail, and that failure is the result |
| `JsonLdSerializer.CollisionExample` | src/JsonLd/Serializer/NonResourceObjectNormalizer.php:63-83 | worked case: the builder's context is `[api_normalize, output: {iri}, api_resource]` in that order. Where the data repeats `@id`, the builder's `@id` is kept |

## Left out

- The constructors and Symfony's `NormalizerInterface`/`CacheableSupportsMethodInterface` plumbing: dependency injection with no logic of its own.
- The internals of the decorated normalizer, the IRI converter, routing, and `JsonLdContextTrait::createJsonLdContext` with the anonymous context builder. These are not part of this model, so each appears only as an opaque function (`Decorated`, `IriConverter`, `ContextBuilder`).
- Exception classes: every exception thrown by the decorated `normalize`, by `getIriFromItem` or by the context builder is one opaque `Error.Thrown` value, passed through unchanged. Exceptions from the decorated `supportsNormalization` and `hasCacheableSupportsMethod` are not modelled (see the next lines).
- Floating-point values (their truthiness in `api_normalize`), PHP references, and the engine's conversion of numeric string keys to integer keys.
- `HalSerializer.HasCacheableSupportsMethod`: the decorated normalizer's answer is modelled as a fixed boolean, not as a call whose answer could change between calls. The call is modelled as never throwing. The decorated normalizer is typed only as `NormalizerInterface`, which does not declare `hasCacheableSupportsMethod`. So a decorated normalizer that does not implement `CacheableSupportsMethodInterface` makes PHP throw a "Call to undefined method" Error here.
- `JsonLdSerializer.HasCacheableSupportsMethod`: the same simplifications as for the HAL variant: a fixed boolean, never throwing, and no undefined-method Error for a decorated normalizer that does not implement `CacheableSupportsMethodInterface`.
- `HalSerializer.SupportsNormalization`: the decorated `supportsNormalization` is modelled as a total boolean function that never throws. In PHP, an exception it throws for format `jsonhal` propagates. For other formats the `&&` skips the call.
- `JsonLdSerializer.SupportsNormalization`: the same for format `jsonld`. An exception from the decorated `supportsNormalization` is not modelled.
- `JsonLdSerializer.WriteOutputIri`: a string (empty or not), a number, `true` or any object under `output` is modelled as a failure (`OutputNotWritable`). For an object that implements `ArrayAccess`, PHP instead calls `offsetSet('iri', …)` and the write succeeds. Objects carry no class in this model. For the scalars, PHP 8 throws while PHP 7 only warns; the PHP 7 behaviour is not modelled.
- `JsonLdSerializer.UnwritableOutputFails`: for the same reason, it also declares the write a failure for an `ArrayAccess` object under `output`, which PHP accepts.
- `JsonLdSerializer.BuilderContext`: inherits the same simplification for an object under `output`.
- `JsonLdSerializer.BuilderContextRestoresResource`: inherits the `WriteOutputIri` simplification. Its hypothesis that `output` is an array, missing, null or false leaves out an `ArrayAccess` object under `output`, which PHP writes through `offsetSet`.
- `JsonLdSerializer.BuilderSeesRestoredResource`: the same. An `ArrayAccess` object under `output` is outside its hypothesis.
- Whether a collaborator is called at all is not observable in a pure model. "Not called" is stated instead as "the result does not depend on it" (`NoResourceIgnoresIriConverter`, `NotRequestedIgnoresCollaborators`).
- Concurrency, content negotiation and deserialization: this code does not touch them.
