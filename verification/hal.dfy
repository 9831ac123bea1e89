/** The HAL `NonResourceObjectNormalizer`: delegates to the decorated
    normalizer and, when the context named a resource, puts a
    `_links.self.href` block holding the resource's IRI in front of the
    normalized array. */
module HalSerializer {
  import opened Results
  import opened Php
  import opened ArrayUnion
  import opened Decoration

  const FORMAT: string := "jsonhal"
  const LINKS: Key := StrKey("_links")

  datatype Normalizer = Normalizer(decorated: Decorated, iriConverter: IriConverter)

  /** Supported exactly for the `jsonhal` format, and then only when the
      decorated normalizer supports the same arguments. */
  function SupportsNormalization(n: Normalizer, data: Value, format: Format, context: PhpArray): (r: bool)
    ensures r ==> format == Some(FORMAT)
    ensures format == Some(FORMAT) ==> (r <==> n.decorated.supports(data, format, context))
  {
    format == Some(FORMAT) && n.decorated.supports(data, format, context)
  }

  /** Cacheability is whatever the decorated normalizer reports. */
  function HasCacheableSupportsMethod(n: Normalizer): (r: bool)
    ensures r == n.decorated.cacheable
  {
    n.decorated.cacheable
  }

  /** `['self' => ['href' => $iri]]`, the value stored under `_links`. */
  function SelfLink(iri: string): Value {
    Arr([Entry(StrKey("self"), Arr([Entry(StrKey("href"), Str(iri))]))])
  }

  /** `normalize($object, $format, $context)`. */
  function Normalize(n: Normalizer, obj: Value, format: Format, context: PhpArray): (r: Result<Value, Error>)
    ensures !Isset(context, API_RESOURCE) ==> r == n.decorated.normalize(obj, format, context)
    ensures Isset(context, API_RESOURCE) && r.Success? && r.value.Arr? ==>
      var resolved := n.iriConverter(Get(context, API_RESOURCE).value);
      resolved.Success? && r.value.entries != [] && r.value.entries[0] == Entry(LINKS, SelfLink(resolved.value))
  {
    var x := ExtractResource(context);
    var data :- n.decorated.normalize(obj, format, x.delegated);
    if !data.Arr? then Success(data)
    else if x.resource.None? then Success(data)
    else
      var iri :- n.iriConverter(x.resource.value);
      Success(Arr(Union([Entry(LINKS, SelfLink(iri))], data.entries)))
  }

  /** The decorated normalizer is only ever handed a context without a
      non-null `api_resource`: replacing it by one that behaves the same on
      such contexts, whatever it does on others, changes no result. */
  lemma DecoratedNeverSeesResource(n: Normalizer, d: Decorated, obj: Value, format: Format, context: PhpArray)
    requires AgreeWithoutResource(d, n.decorated)
    ensures Normalize(n.(decorated := d), obj, format, context) == Normalize(n, obj, format, context)
  {
    assert !Isset(ExtractResource(context).delegated, API_RESOURCE);
  }

  /** An exception from the decorated normalizer is passed on unchanged. */
  lemma DecoratedFailurePropagates(n: Normalizer, obj: Value, format: Format, context: PhpArray, e: Error)
    requires n.decorated.normalize(obj, format, ExtractResource(context).delegated) == Failure(e)
    ensures Normalize(n, obj, format, context) == Failure(e)
  {
  }

  /** Output that is not an array is returned as the decorated normalizer
      produced it. */
  lemma NonArrayUnchanged(n: Normalizer, obj: Value, format: Format, context: PhpArray, v: Value)
    requires n.decorated.normalize(obj, format, ExtractResource(context).delegated) == Success(v)
    requires !v.Arr?
    ensures Normalize(n, obj, format, context) == Success(v)
  {
  }

  /** Without a resource the IRI converter plays no part: the result is the
      same whichever converter the normalizer was built with. */
  lemma NoResourceIgnoresIriConverter(n: Normalizer, c: IriConverter, obj: Value, format: Format, context: PhpArray)
    requires !Isset(context, API_RESOURCE)
    ensures Normalize(n.(iriConverter := c), obj, format, context) == Normalize(n, obj, format, context)
  {
  }

  /** With a resource and array output, the result opens with `_links`
      holding exactly `{self: {href: IRI}}`; after it come the decorated
      entries other than `_links`, in their order and with their values. */
  lemma SelfLinkComesFirst(n: Normalizer, obj: Value, format: Format, context: PhpArray, data: PhpArray, iri: string)
    requires Isset(context, API_RESOURCE)
    requires n.decorated.normalize(obj, format, ExtractResource(context).delegated) == Success(Arr(data))
    requires n.iriConverter(Get(context, API_RESOURCE).value) == Success(iri)
    ensures Normalize(n, obj, format, context) == Success(Arr([Entry(LINKS, SelfLink(iri))] + Unset(data, LINKS)))
  {
    UnionWithSingle(Entry(LINKS, SelfLink(iri)), data);
  }

  /** The envelope never repeats a key: when the decorated array has no
      repeated key, neither has the array returned. */
  lemma ResultKeepsUniqueKeys(n: Normalizer, obj: Value, format: Format, context: PhpArray, data: PhpArray)
    requires n.decorated.normalize(obj, format, ExtractResource(context).delegated) == Success(Arr(data))
    requires UniqueKeys(data)
    ensures Normalize(n, obj, format, context).Success? ==>
      Normalize(n, obj, format, context).value.Arr? && UniqueKeys(Normalize(n, obj, format, context).value.entries)
  {
    var x := ExtractResource(context);
    if x.resource.Some? && n.iriConverter(x.resource.value).Success? {
      UnionKeepsUniqueKeys([Entry(LINKS, SelfLink(n.iriConverter(x.resource.value).value))], data);
    }
  }

  /** With a resource and array output, an exception from the IRI converter
      is passed on unchanged. */
  lemma IriFailurePropagates(n: Normalizer, obj: Value, format: Format, context: PhpArray, data: PhpArray, e: Error)
    requires Isset(context, API_RESOURCE)
    requires n.decorated.normalize(obj, format, ExtractResource(context).delegated) == Success(Arr(data))
    requires n.iriConverter(Get(context, API_RESOURCE).value) == Failure(e)
    ensures Normalize(n, obj, format, context) == Failure(e)
  {
  }

  /** A worked case: a resource resolving to `/x/1` and decorated output
      `{name: "a"}` give `{_links: {self: {href: "/x/1"}}, name: "a"}`. */
  lemma SelfLinkExample(n: Normalizer)
    requires n.decorated.normalize(Obj(1), Some(FORMAT), []) == Success(Arr([Entry(StrKey("name"), Str("a"))]))
    requires n.iriConverter(Obj(2)) == Success("/x/1")
    ensures Normalize(n, Obj(1), Some(FORMAT), [Entry(API_RESOURCE, Obj(2))])
      == Success(Arr([Entry(LINKS, SelfLink("/x/1")), Entry(StrKey("name"), Str("a"))]))
  {
    var data := [Entry(StrKey("name"), Str("a"))];
    var context := [Entry(API_RESOURCE, Obj(2))];
    assert ExtractResource(context).delegated == [];
    assert Keys(data) == [StrKey("name")];
    assert Unset(data, LINKS) == data;
    SelfLinkComesFirst(n, Obj(1), Some(FORMAT), context, data, "/x/1");
    assert [Entry(LINKS, SelfLink("/x/1"))] + data == [Entry(LINKS, SelfLink("/x/1")), Entry(StrKey("name"), Str("a"))];
  }
}
