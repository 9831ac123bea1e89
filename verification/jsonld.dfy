/** The JSON-LD `NonResourceObjectNormalizer`: delegates to the decorated
    normalizer and, when the context asks for `api_normalize`, puts the
    JSON-LD metadata (`@context`, `@id`, …) computed by the context builder in
    front of the normalized array.

    Two readings of the context recur below. `NormalizeRequested` is PHP's
    `??`, which treats a null entry like a missing one. `OutputEntries` reads
    a non-array `output` as holding no entries. */
module JsonLdSerializer {
  import opened Results
  import opened Php
  import opened ArrayUnion
  import opened Decoration

  const FORMAT: string := "jsonld"
  const API_NORMALIZE: Key := StrKey("api_normalize")
  const OUTPUT: Key := StrKey("output")
  const IRI: Key := StrKey("iri")

  /** `createJsonLdContext($anonymousContextBuilder, $object, $context)`: the
      metadata array for an object under a context, or the exception thrown
      while computing it. */
  type ContextBuilder = (Value, PhpArray) -> Result<PhpArray, Error>

  datatype Normalizer = Normalizer(decorated: Decorated, iriConverter: IriConverter, contextBuilder: ContextBuilder)

  /** Supported exactly for the `jsonld` format, and then only when the
      decorated normalizer supports the same arguments. */
  function SupportsNormalization(n: Normalizer, data: Value, format: Format, context: PhpArray): (r: bool)
    ensures r ==> format == Some(FORMAT)
    ensures format == Some(FORMAT) ==> (r <==> n.decorated.supports(data, format, context))
  {
    format == Some(FORMAT) && n.decorated.supports(data, format, context)
  }

  /** Cacheability is whatever the decorated normalizer reports. */
  function HasCacheableSupportsMethod(n: Normalizer): (r: bool)
    ensures r == n.decorated.cacheable
  {
    n.decorated.cacheable
  }

  /** `$context['api_normalize'] ?? false`, converted to bool. */
  function NormalizeRequested(context: PhpArray): (r: bool)
    ensures r ==> Isset(context, API_NORMALIZE)
    ensures Isset(context, API_NORMALIZE) ==> (r <==> Truthy(Get(context, API_NORMALIZE).value))
  {
    match Get(context, API_NORMALIZE)
    case None => false
    case Some(v) => Truthy(v)
  }

  function OutputEntries(context: PhpArray): PhpArray {
    match Get(context, OUTPUT)
    case Some(Arr(entries)) => entries
    case _ => []
  }

  /** `$context['output']['iri'] = …` succeeds when `output` is an array, or
      is missing, null or false (PHP then creates the inner array). */
  predicate OutputWritable(context: PhpArray) {
    match Get(context, OUTPUT)
    case None => true
    case Some(v) => v.Arr? || v == Null || v == Bool(false)
  }

  /** `$context['output']['iri'] = $iri`. */
  function WriteOutputIri(context: PhpArray, iri: string): (r: Result<PhpArray, Error>)
    ensures r.Success? <==> OutputWritable(context)
    ensures r.Failure? ==> r.error == OutputNotWritable(Get(context, OUTPUT).value)
    ensures r.Success? ==> Get(OutputEntries(r.value), IRI) == Some(Str(iri))
    ensures r.Success? ==> forall k :: k != IRI ==> Get(OutputEntries(r.value), k) == Get(OutputEntries(context), k)
    ensures r.Success? ==> forall k :: k != OUTPUT ==> Get(r.value, k) == Get(context, k)
  {
    if OutputWritable(context) then Success(Assign(context, OUTPUT, OutputWithIri(context, iri)))
    else Failure(OutputNotWritable(Get(context, OUTPUT).value))
  }

  /** The new `output` value: the existing array with `iri` written into it,
      or a fresh one-entry array in place of a missing, null or false one. */
  function OutputWithIri(context: PhpArray, iri: string): Value {
    match Get(context, OUTPUT)
    case Some(Arr(entries)) => Arr(Assign(entries, IRI, Str(iri)))
    case _ => Arr([Entry(IRI, Str(iri))])
  }

  /** The context handed to the context builder: with a resource, its IRI is
      written to `output.iri` and the resource is put back under
      `api_resource`; without one, the context the decorated normalizer saw. */
  function BuilderContext(conv: IriConverter, x: Extraction): (r: Result<PhpArray, Error>)
    ensures x.resource.None? ==> r == Success(x.delegated)
    ensures x.resource.Some? && conv(x.resource.value).Failure? ==> r == Failure(conv(x.resource.value).error)
    ensures x.resource.Some? && conv(x.resource.value).Success? && !OutputWritable(x.delegated) ==>
      r == Failure(OutputNotWritable(Get(x.delegated, OUTPUT).value))
    ensures x.resource.Some? && conv(x.resource.value).Success? && OutputWritable(x.delegated) ==>
      && r.Success?
      && Get(r.value, API_RESOURCE) == x.resource
      && Get(OutputEntries(r.value), IRI) == Some(Str(conv(x.resource.value).value))
  {
    match x.resource
    case None => Success(x.delegated)
    case Some(resource) =>
      var iri :- conv(resource);
      var withIri :- WriteOutputIri(x.delegated, iri);
      assert Get(Assign(withIri, API_RESOURCE, resource), OUTPUT) == Get(withIri, OUTPUT);
      Success(Assign(withIri, API_RESOURCE, resource))
  }

  /** `$metadata + $data` once the builder has answered. */
  function Merged(metadata: Result<PhpArray, Error>, data: PhpArray): Result<Value, Error> {
    match metadata
    case Success(m) => Success(Arr(Union(m, data)))
    case Failure(e) => Failure(e)
  }

  /** `normalize($object, $format, $context)`. */
  function Normalize(n: Normalizer, obj: Value, format: Format, context: PhpArray): (r: Result<Value, Error>)
    ensures !NormalizeRequested(context) ==> r == n.decorated.normalize(obj, format, ExtractResource(context).delegated)
  {
    GateSurvivesExtraction(context);
    var x := ExtractResource(context);
    var data :- n.decorated.normalize(obj, format, x.delegated);
    if !data.Arr? || !NormalizeRequested(x.delegated) then Success(data)
    else AddMetadata(n.iriConverter, n.contextBuilder, obj, x, data.entries)
  }

  /** The metadata step, once the gate has let an array through. */
  function AddMetadata(conv: IriConverter, builder: ContextBuilder, obj: Value, x: Extraction, data: PhpArray): Result<Value, Error> {
    var builderContext :- BuilderContext(conv, x);
    Merged(builder(obj, builderContext), data)
  }

  /** Taking `api_resource` out of the context leaves the `api_normalize` gate as it was. */
  lemma GateSurvivesExtraction(context: PhpArray)
    ensures NormalizeRequested(ExtractResource(context).delegated) == NormalizeRequested(context)
  {
    assert API_NORMALIZE != API_RESOURCE;
    assert Get(ExtractResource(context).delegated, API_NORMALIZE) == Get(context, API_NORMALIZE);
  }

  /** The decorated normalizer is only ever handed a context without a
      non-null `api_resource`: replacing it by one that behaves the same on
      such contexts, whatever it does on others, changes no result. */
  lemma DecoratedNeverSeesResource(n: Normalizer, d: Decorated, obj: Value, format: Format, context: PhpArray)
    requires AgreeWithoutResource(d, n.decorated)
    ensures Normalize(n.(decorated := d), obj, format, context) == Normalize(n, obj, format, context)
  {
    var x := ExtractResource(context);
    assert d.normalize(obj, format, x.delegated) == n.decorated.normalize(obj, format, x.delegated);
  }

  /** An exception from the decorated normalizer is passed on unchanged. */
  lemma DecoratedFailurePropagates(n: Normalizer, obj: Value, format: Format, context: PhpArray, e: Error)
    requires n.decorated.normalize(obj, format, ExtractResource(context).delegated) == Failure(e)
    ensures Normalize(n, obj, format, context) == Failure(e)
  {
  }

  /** Output that is not an array is returned as the decorated normalizer
      produced it. */
  lemma NonArrayUnchanged(n: Normalizer, obj: Value, format: Format, context: PhpArray, v: Value)
    requires n.decorated.normalize(obj, format, ExtractResource(context).delegated) == Success(v)
    requires !v.Arr?
    ensures Normalize(n, obj, format, context) == Success(v)
  {
  }

  /** Without `api_normalize` neither the IRI converter nor the context
      builder plays a part, even when a resource was given: the result is the
      same whichever of them the normalizer was built with. */
  lemma NotRequestedIgnoresCollaborators(n: Normalizer, c: IriConverter, b: ContextBuilder, obj: Value, format: Format, context: PhpArray)
    requires !NormalizeRequested(context)
    ensures Normalize(n.(iriConverter := c, contextBuilder := b), obj, format, context) == Normalize(n, obj, format, context)
  {
  }

  /** What the context builder receives when a resource was given: the
      original object (not the resource), and a context in which `api_resource`
      holds the resource again, `output.iri` holds its IRI, the rest of
      `output` is kept, and every other entry is the caller's. */
  ghost predicate ResourceRestored(bc: PhpArray, context: PhpArray, iri: string) {
    && Get(bc, API_RESOURCE) == Get(context, API_RESOURCE)
    && Get(OutputEntries(bc), IRI) == Some(Str(iri))
    && (forall k :: k != IRI ==> Get(OutputEntries(bc), k) == Get(OutputEntries(context), k))
    && (forall k :: k != API_RESOURCE && k != OUTPUT ==> Get(bc, k) == Get(context, k))
  }

  /** With a resource whose IRI resolves and a writable `output`, the
      builder's context restores the resource and carries its IRI. */
  lemma BuilderContextRestoresResource(conv: IriConverter, context: PhpArray, iri: string)
    requires Isset(context, API_RESOURCE) && OutputWritable(context)
    requires conv(Get(context, API_RESOURCE).value) == Success(iri)
    ensures BuilderContext(conv, ExtractResource(context)).Success?
    ensures ResourceRestored(BuilderContext(conv, ExtractResource(context)).value, context, iri)
  {
    var x := ExtractResource(context);
    assert OutputEntries(x.delegated) == OutputEntries(context) && OutputWritable(x.delegated) by {
      assert Get(x.delegated, OUTPUT) == Get(context, OUTPUT);
    }
    var withIri := WriteOutputIri(x.delegated, iri);
    var bc := Assign(withIri.value, API_RESOURCE, x.resource.value);
    assert BuilderContext(conv, x) == Success(bc);
    RestoringKeepsOutput(x.delegated, iri, x.resource.value);
    RestoringKeepsOthers(x.delegated, iri, x.resource.value);
  }

  /** Putting the resource back does not disturb `output`. */
  lemma RestoringKeepsOutput(delegated: PhpArray, iri: string, resource: Value)
    requires OutputWritable(delegated)
    ensures OutputEntries(Assign(WriteOutputIri(delegated, iri).value, API_RESOURCE, resource))
         == OutputEntries(WriteOutputIri(delegated, iri).value)
  {
    var withIri := WriteOutputIri(delegated, iri).value;
    assert Get(Assign(withIri, API_RESOURCE, resource), OUTPUT) == Get(withIri, OUTPUT);
  }

  /** Writing the IRI and putting the resource back touch no other entry. */
  lemma RestoringKeepsOthers(delegated: PhpArray, iri: string, resource: Value)
    requires OutputWritable(delegated)
    ensures forall k :: k != API_RESOURCE && k != OUTPUT ==>
      Get(Assign(WriteOutputIri(delegated, iri).value, API_RESOURCE, resource), k) == Get(delegated, k)
  {
    var withIri := WriteOutputIri(delegated, iri).value;
    forall k | k != API_RESOURCE && k != OUTPUT
      ensures Get(Assign(withIri, API_RESOURCE, resource), k) == Get(delegated, k)
    {
      assert Get(withIri, k) == Get(delegated, k);
    }
  }

  /** Neither the IRI write nor restoring the resource repeats a key: a
      context without repeated keys gives the builder one without them. */
  lemma BuilderContextKeepsUniqueKeys(conv: IriConverter, context: PhpArray)
    requires UniqueKeys(context)
    ensures BuilderContext(conv, ExtractResource(context)).Success? ==>
      UniqueKeys(BuilderContext(conv, ExtractResource(context)).value)
  {
    var x := ExtractResource(context);
    if x.resource.Some? && conv(x.resource.value).Success? {
      var iri := conv(x.resource.value).value;
      var withIri := WriteOutputIri(x.delegated, iri);
      if withIri.Success? {
        WriteOutputIriKeepsUniqueKeys(x.delegated, iri);
        AssignKeepsUniqueKeys(withIri.value, API_RESOURCE, x.resource.value);
      }
    }
  }

  /** Writing `output.iri` adds or replaces one top-level key only. */
  lemma WriteOutputIriKeepsUniqueKeys(context: PhpArray, iri: string)
    requires UniqueKeys(context)
    ensures WriteOutputIri(context, iri).Success? ==> UniqueKeys(WriteOutputIri(context, iri).value)
  {
    if OutputWritable(context) {
      AssignKeepsUniqueKeys(context, OUTPUT, OutputWithIri(context, iri));
    }
  }

  /** Once `api_normalize` is set and the output is an array, the result is
      the metadata step applied to the decorated output. */
  lemma GateOpen(n: Normalizer, obj: Value, format: Format, context: PhpArray, data: PhpArray)
    requires NormalizeRequested(context)
    requires n.decorated.normalize(obj, format, ExtractResource(context).delegated) == Success(Arr(data))
    ensures Normalize(n, obj, format, context) == AddMetadata(n.iriConverter, n.contextBuilder, obj, ExtractResource(context), data)
  {
    GateSurvivesExtraction(context);
  }

  /** With `api_normalize`, array output and a resource whose IRI resolves,
      the result is the builder's metadata for the object, under a context
      carrying the resource and its IRI, put in front of the decorated output. */
  lemma BuilderSeesRestoredResource(n: Normalizer, obj: Value, format: Format, context: PhpArray, data: PhpArray, iri: string)
    requires NormalizeRequested(context) && Isset(context, API_RESOURCE) && OutputWritable(context)
    requires n.decorated.normalize(obj, format, ExtractResource(context).delegated) == Success(Arr(data))
    requires n.iriConverter(Get(context, API_RESOURCE).value) == Success(iri)
    ensures var built := BuilderContext(n.iriConverter, ExtractResource(context));
      && built.Success?
      && ResourceRestored(built.value, context, iri)
      && Normalize(n, obj, format, context) == Merged(n.contextBuilder(obj, built.value), data)
  {
    BuilderContextRestoresResource(n.iriConverter, context, iri);
    GateOpen(n, obj, format, context, data);
  }

  /** With `api_normalize` and array output but no resource, the builder gets
      the object and the caller's context, and the IRI converter plays no part. */
  lemma BuilderSeesContextWithoutResource(n: Normalizer, obj: Value, format: Format, context: PhpArray, data: PhpArray)
    requires NormalizeRequested(context) && !Isset(context, API_RESOURCE)
    requires n.decorated.normalize(obj, format, context) == Success(Arr(data))
    ensures Normalize(n, obj, format, context) == Merged(n.contextBuilder(obj, context), data)
    ensures forall c :: Normalize(n.(iriConverter := c), obj, format, context) == Normalize(n, obj, format, context)
  {
  }

  /** With `api_normalize`, array output and a resource, an exception from
      the IRI converter is passed on unchanged and the builder is not reached. */
  lemma IriFailurePropagates(n: Normalizer, obj: Value, format: Format, context: PhpArray, data: PhpArray, e: Error)
    requires NormalizeRequested(context) && Isset(context, API_RESOURCE)
    requires n.decorated.normalize(obj, format, ExtractResource(context).delegated) == Success(Arr(data))
    requires n.iriConverter(Get(context, API_RESOURCE).value) == Failure(e)
    ensures Normalize(n, obj, format, context) == Failure(e)
  {
    GateOpen(n, obj, format, context, data);
  }

  /** With a resource whose IRI resolves, an `output` entry that is not an
      array, null or false makes the IRI write fail. */
  lemma UnwritableOutputFails(n: Normalizer, obj: Value, format: Format, context: PhpArray, data: PhpArray, iri: string)
    requires NormalizeRequested(context) && Isset(context, API_RESOURCE) && !OutputWritable(context)
    requires n.decorated.normalize(obj, format, ExtractResource(context).delegated) == Success(Arr(data))
    requires n.iriConverter(Get(context, API_RESOURCE).value) == Success(iri)
    ensures Normalize(n, obj, format, context) == Failure(OutputNotWritable(Get(context, OUTPUT).value))
  {
    GateOpen(n, obj, format, context, data);
    assert Get(ExtractResource(context).delegated, OUTPUT) == Get(context, OUTPUT);
  }

  /** A worked case with a key collision: the decorated output already holds
      an `@id`; the builder's `@id` is the one kept, ahead of the payload. The
      builder sees `api_normalize` untouched, then the new `output.iri`, then
      the resource re-appended under `api_resource`. */
  lemma CollisionExample(n: Normalizer)
    requires n.decorated.normalize(Obj(1), Some(FORMAT), [Entry(API_NORMALIZE, Bool(true))])
      == Success(Arr([Entry(StrKey("@id"), Str("/other")), Entry(StrKey("name"), Str("a"))]))
    requires n.iriConverter(Obj(2)) == Success("/x/1")
    requires n.contextBuilder(Obj(1), [Entry(API_NORMALIZE, Bool(true)),
                                       Entry(OUTPUT, Arr([Entry(IRI, Str("/x/1"))])),
                                       Entry(API_RESOURCE, Obj(2))])
      == Success([Entry(StrKey("@context"), Str("/contexts/Thing")), Entry(StrKey("@id"), Str("/x/1"))])
    ensures Normalize(n, Obj(1), Some(FORMAT), [Entry(API_NORMALIZE, Bool(true)), Entry(API_RESOURCE, Obj(2))])
      == Success(Arr([Entry(StrKey("@context"), Str("/contexts/Thing")),
                      Entry(StrKey("@id"), Str("/x/1")),
                      Entry(StrKey("name"), Str("a"))]))
  {
    var context := [Entry(API_NORMALIZE, Bool(true)), Entry(API_RESOURCE, Obj(2))];
    var data := [Entry(StrKey("@id"), Str("/other")), Entry(StrKey("name"), Str("a"))];
    ExampleExtraction();
    ExampleBuilderContext(n.iriConverter);
    ExampleUnion();
    GateOpen(n, Obj(1), Some(FORMAT), context, data);
  }

  lemma ExampleExtraction()
    ensures ExtractResource([Entry(API_NORMALIZE, Bool(true)), Entry(API_RESOURCE, Obj(2))])
      == Extraction(Some(Obj(2)), [Entry(API_NORMALIZE, Bool(true))])
    ensures NormalizeRequested([Entry(API_NORMALIZE, Bool(true)), Entry(API_RESOURCE, Obj(2))])
  {
    var context := [Entry(API_NORMALIZE, Bool(true)), Entry(API_RESOURCE, Obj(2))];
    assert Isset(context, API_RESOURCE);
    assert context[1..][1..] == [];
  }

  lemma ExampleBuilderContext(conv: IriConverter)
    requires conv(Obj(2)) == Success("/x/1")
    ensures BuilderContext(conv, Extraction(Some(Obj(2)), [Entry(API_NORMALIZE, Bool(true))]))
      == Success([Entry(API_NORMALIZE, Bool(true)),
                  Entry(OUTPUT, Arr([Entry(IRI, Str("/x/1"))])),
                  Entry(API_RESOURCE, Obj(2))])
  {
    ExampleWriteIri();
    ExampleRestoreResource();
  }

  lemma ExampleWriteIri()
    ensures WriteOutputIri([Entry(API_NORMALIZE, Bool(true))], "/x/1")
      == Success([Entry(API_NORMALIZE, Bool(true)), Entry(OUTPUT, Arr([Entry(IRI, Str("/x/1"))]))])
  {
    var delegated := [Entry(API_NORMALIZE, Bool(true))];
    var outputIri := Arr([Entry(IRI, Str("/x/1"))]);
    assert Keys(delegated) == [API_NORMALIZE];
    assert Get(delegated, OUTPUT) == None;
    AssignAppends(delegated, OUTPUT, outputIri);
    assert delegated + [Entry(OUTPUT, outputIri)] == [Entry(API_NORMALIZE, Bool(true)), Entry(OUTPUT, outputIri)];
  }

  lemma ExampleRestoreResource()
    ensures Assign([Entry(API_NORMALIZE, Bool(true)), Entry(OUTPUT, Arr([Entry(IRI, Str("/x/1"))]))], API_RESOURCE, Obj(2))
      == [Entry(API_NORMALIZE, Bool(true)), Entry(OUTPUT, Arr([Entry(IRI, Str("/x/1"))])), Entry(API_RESOURCE, Obj(2))]
  {
    var withIri := [Entry(API_NORMALIZE, Bool(true)), Entry(OUTPUT, Arr([Entry(IRI, Str("/x/1"))]))];
    ExampleResourceAbsent(withIri);
    AssignAppends(withIri, API_RESOURCE, Obj(2));
    assert withIri + [Entry(API_RESOURCE, Obj(2))]
      == [Entry(API_NORMALIZE, Bool(true)), Entry(OUTPUT, Arr([Entry(IRI, Str("/x/1"))])), Entry(API_RESOURCE, Obj(2))];
  }

  lemma ExampleResourceAbsent(withIri: PhpArray)
    requires withIri == [Entry(API_NORMALIZE, Bool(true)), Entry(OUTPUT, Arr([Entry(IRI, Str("/x/1"))]))]
    ensures API_RESOURCE !in Keys(withIri)
  {
    assert Keys(withIri) == [API_NORMALIZE, OUTPUT];
  }

  lemma ExampleUnion()
    ensures Union([Entry(StrKey("@context"), Str("/contexts/Thing")), Entry(StrKey("@id"), Str("/x/1"))],
                  [Entry(StrKey("@id"), Str("/other")), Entry(StrKey("name"), Str("a"))])
      == [Entry(StrKey("@context"), Str("/contexts/Thing")), Entry(StrKey("@id"), Str("/x/1")), Entry(StrKey("name"), Str("a"))]
  {
    var m := [Entry(StrKey("@context"), Str("/contexts/Thing")), Entry(StrKey("@id"), Str("/x/1"))];
    var data := [Entry(StrKey("@id"), Str("/other")), Entry(StrKey("name"), Str("a"))];
    assert Absent(data, Keys(m)) == [Entry(StrKey("name"), Str("a"))] by {
      assert Keys(m) == [StrKey("@context"), StrKey("@id")];
      assert data[1..] == [Entry(StrKey("name"), Str("a"))];
      assert StrKey("name") !in Keys(m);
      assert data[1..][1..] == [];
      assert Absent(data, Keys(m)) == Absent(data[1..], Keys(m));
      assert Absent(data[1..], Keys(m)) == [Entry(StrKey("name"), Str("a"))] + Absent([], Keys(m));
    }
    assert m + [Entry(StrKey("name"), Str("a"))]
      == [Entry(StrKey("@context"), Str("/contexts/Thing")), Entry(StrKey("@id"), Str("/x/1")), Entry(StrKey("name"), Str("a"))];
  }
}
