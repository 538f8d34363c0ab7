/** The ImageFx node: one prompt, an aspect ratio, a seed and an image count go
    out as a single generation request; the images that decode come back with the
    seed of the first candidate, and any failure yields a placeholder batch with
    the input seed. */
module ImageFx {
  import opened Common
  import opened Codec
  import opened Wire

  /** The node's seeds are reduced into 0..999999. */
  const SeedModulus := 1000000

  /** The display labels the node offers, in the order of its input list. */
  const AspectRatioLabels: seq<string> :=
    ["1:1 (Square)", "9:16 (Portrait)", "16:9 (Landscape)", "3:4 (Portrait)", "4:3 (Landscape)"]

  /** Display label -> API aspect-ratio constant. */
  const AspectRatioDisplay: map<string, string> := map[
    "1:1 (Square)" := "IMAGE_ASPECT_RATIO_SQUARE",
    "9:16 (Portrait)" := "IMAGE_ASPECT_RATIO_PORTRAIT",
    "16:9 (Landscape)" := LandscapeRatio,
    "3:4 (Portrait)" := "IMAGE_ASPECT_RATIO_PORTRAIT_THREE_FOUR",
    "4:3 (Landscape)" := "IMAGE_ASPECT_RATIO_LANDSCAPE_FOUR_THREE"]

  /** `_get_api_aspect_ratio`: the table's entry, landscape for an unknown label.
      The result is always one of the five API constants. */
  function ApiAspectRatio(display: string): (r: string)
    ensures r in AspectRatioDisplay.Values
    ensures display in AspectRatioDisplay ==> r == AspectRatioDisplay[display]
    ensures display !in AspectRatioDisplay ==> r == LandscapeRatio
  {
    assert AspectRatioDisplay["16:9 (Landscape)"] == LandscapeRatio;
    if display in AspectRatioDisplay then AspectRatioDisplay[display] else LandscapeRatio
  }

  /** The five labels and their constants. */
  lemma AspectRatioTable()
    ensures ApiAspectRatio("1:1 (Square)") == "IMAGE_ASPECT_RATIO_SQUARE"
    ensures ApiAspectRatio("9:16 (Portrait)") == "IMAGE_ASPECT_RATIO_PORTRAIT"
    ensures ApiAspectRatio("16:9 (Landscape)") == "IMAGE_ASPECT_RATIO_LANDSCAPE"
    ensures ApiAspectRatio("3:4 (Portrait)") == "IMAGE_ASPECT_RATIO_PORTRAIT_THREE_FOUR"
    ensures ApiAspectRatio("4:3 (Landscape)") == "IMAGE_ASPECT_RATIO_LANDSCAPE_FOUR_THREE"
  {
  }

  /** The labels the node offers are exactly the table's keys, so the landscape
      default only serves labels the node does not offer. */
  lemma OfferedLabelsAreTableKeys()
    ensures forall k :: 0 <= k < |AspectRatioLabels| ==> AspectRatioLabels[k] in AspectRatioDisplay
    ensures forall name :: name in AspectRatioDisplay ==> name in AspectRatioLabels
  {
  }

  /** `seed % 1000000` is the identity on the node's declared input range
      0..999999, and sends seeds above it to their residue. */
  lemma ReduceSeedOnInputRange(seed: int)
    ensures 0 <= seed <= SeedModulus - 1 <==> ReduceSeed(seed, SeedModulus) == seed
  {
  }

  /** The request body of `generate_image`. */
  function ImageFxRequest(prompt: string, seed: int, aspectRatio: string, numImages: int, sessionId: string): (q: GenerationRequest)
    ensures q.userInput.candidatesCount == numImages
    ensures q.userInput.prompts == [prompt] && !q.userInput.isExpandedPrompt
    ensures 0 <= q.userInput.seed < SeedModulus && q.userInput.seed == ReduceSeed(seed, SeedModulus)
    ensures q.clientContext == ClientContext(sessionId, "IMAGE_FX")
    ensures q.aspectRatio == ApiAspectRatio(aspectRatio) && q.aspectRatio in AspectRatioDisplay.Values
    ensures q.modelNameType == ModelNameType
  {
    GenerationRequest(
      UserInput(numImages, [prompt], false, ReduceSeed(seed, SeedModulus)),
      ClientContext(sessionId, "IMAGE_FX"),
      ApiAspectRatio(aspectRatio),
      ModelNameType)
  }

  /** `k.startswith(':')`: an HTTP/2 pseudo-header name. */
  predicate IsPseudoHeader(name: string)
  {
    |name| > 0 && name[0] == ':'
  }

  /** The header-cleaning comprehension: drops exactly the keys starting with ':'
      and keeps every other key with its value. */
  function CleanHeaders(headers: map<string, string>): (r: map<string, string>)
    ensures forall k :: k in r <==> k in headers && !IsPseudoHeader(k)
    ensures forall k :: k in r ==> r[k] == headers[k]
  {
    map k | k in headers && !IsPseudoHeader(k) :: headers[k]
  }

  /** Cleaning twice is cleaning once, and headers without pseudo-headers pass
      through untouched. */
  lemma CleanHeadersIdempotent(headers: map<string, string>)
    ensures CleanHeaders(CleanHeaders(headers)) == CleanHeaders(headers)
    ensures (forall k :: k in headers ==> !IsPseudoHeader(k)) ==> CleanHeaders(headers) == headers
  {
  }

  /** One pass of the guarded loop body: None when the candidate lacks
      `encodedImage` or its text does not decode (both caught and skipped). */
  function Attempt(g: GeneratedImage, decode: Decoder): Option<Image>
  {
    if g.encodedImage.None? then None else decode(StripDataUri(g.encodedImage.value))
  }

  /** The images the loop collects: every successful decode, in response order. */
  function Decoded(generated: seq<GeneratedImage>, decode: Decoder): seq<Image>
  {
    if |generated| == 0 then []
    else
      var images := Decoded(generated[..|generated| - 1], decode);
      match Attempt(generated[|generated| - 1], decode)
      case None => images
      case Some(image) => images + [image]
  }

  /** The seed the loop records: taken from the first candidate that has
      `encodedImage` (its `seed`, else the input seed), before that candidate is
      decoded; later candidates never change it. */
  function FirstSeed(generated: seq<GeneratedImage>, seed: int): Option<int>
  {
    if |generated| == 0 then None
    else match FirstSeed(generated[..|generated| - 1], seed)
      case Some(s) => Some(s)
      case None =>
        var g := generated[|generated| - 1];
        if g.encodedImage.Some? then Some(g.seed.GetOr(seed)) else None
  }

  /** Decoding a concatenation decodes each part in turn: order is kept. */
  lemma {:induction false} DecodedAppend(a: seq<GeneratedImage>, b: seq<GeneratedImage>, decode: Decoder)
    ensures Decoded(a + b, decode) == Decoded(a, decode) + Decoded(b, decode)
  {
    if |b| == 0 {
      assert a + b == a;
    } else {
      var b' := b[..|b| - 1];
      assert (a + b)[..|a + b| - 1] == a + b';
      DecodedAppend(a, b', decode);
    }
  }

  /** A candidate that fails is skipped and the loop goes on with the rest. */
  lemma DecodedSkipsFailure(generated: seq<GeneratedImage>, i: nat, decode: Decoder)
    requires i < |generated| && Attempt(generated[i], decode).None?
    ensures Decoded(generated, decode) == Decoded(generated[..i], decode) + Decoded(generated[i + 1..], decode)
  {
    assert generated == generated[..i] + [generated[i]] + generated[i + 1..];
    DecodedAppend(generated[..i] + [generated[i]], generated[i + 1..], decode);
    DecodedAppend(generated[..i], [generated[i]], decode);
    assert [generated[i]][..0] == [];
  }

  /** Every collected image is the decode of some candidate, and there are at
      most as many images as candidates. */
  lemma {:induction false} DecodedMembers(generated: seq<GeneratedImage>, decode: Decoder)
    ensures |Decoded(generated, decode)| <= |generated|
    ensures forall x :: x in Decoded(generated, decode) ==> exists i :: 0 <= i < |generated| && Attempt(generated[i], decode) == Some(x)
  {
    if |generated| > 0 {
      var prefix := generated[..|generated| - 1];
      DecodedMembers(prefix, decode);
      assert forall i :: 0 <= i < |prefix| ==> prefix[i] == generated[i];
      var images := Decoded(prefix, decode);
      match Attempt(generated[|prefix|], decode)
      case None =>
        assert Decoded(generated, decode) == images;
      case Some(image) =>
        assert Decoded(generated, decode) == images + [image];
        assert forall x :: x in images + [image] ==> x in images || x == image;
    }
  }

  /** When every candidate decodes, the batch is their images one for one. */
  lemma {:induction false} DecodedAll(generated: seq<GeneratedImage>, decode: Decoder)
    requires forall i :: 0 <= i < |generated| ==> Attempt(generated[i], decode).Some?
    ensures |Decoded(generated, decode)| == |generated|
    ensures forall i :: 0 <= i < |generated| ==> Some(Decoded(generated, decode)[i]) == Attempt(generated[i], decode)
  {
    if |generated| > 0 {
      var prefix := generated[..|generated| - 1];
      assert forall i :: 0 <= i < |prefix| ==> prefix[i] == generated[i];
      DecodedAll(prefix, decode);
      var images := Decoded(prefix, decode);
      var last := Attempt(generated[|prefix|], decode).value;
      assert Decoded(generated, decode) == images + [last];
      forall i | 0 <= i < |generated|
        ensures Some(Decoded(generated, decode)[i]) == Attempt(generated[i], decode)
      {
        if i < |prefix| {
          assert (images + [last])[i] == images[i];
        }
      }
    }
  }

  /** When no candidate decodes, nothing is collected. */
  lemma {:induction false} DecodedNone(generated: seq<GeneratedImage>, decode: Decoder)
    requires forall i :: 0 <= i < |generated| ==> Attempt(generated[i], decode).None?
    ensures Decoded(generated, decode) == []
  {
    if |generated| > 0 {
      var prefix := generated[..|generated| - 1];
      assert forall i :: 0 <= i < |prefix| ==> prefix[i] == generated[i];
      DecodedNone(prefix, decode);
    }
  }

  /** Every collected image is the decode of some candidate, there are at most as
      many images as candidates, and when every candidate decodes the batch is the
      candidates' images one for one. */
  lemma DecodedFromCandidates(generated: seq<GeneratedImage>, decode: Decoder)
    ensures |Decoded(generated, decode)| <= |generated|
    ensures forall x :: x in Decoded(generated, decode) ==> exists i :: 0 <= i < |generated| && Attempt(generated[i], decode) == Some(x)
    ensures (forall i :: 0 <= i < |generated| ==> Attempt(generated[i], decode).Some?) ==>
      && |Decoded(generated, decode)| == |generated|
      && forall i :: 0 <= i < |generated| ==> Some(Decoded(generated, decode)[i]) == Attempt(generated[i], decode)
    ensures (forall i :: 0 <= i < |generated| ==> Attempt(generated[i], decode).None?) ==> Decoded(generated, decode) == []
  {
    DecodedMembers(generated, decode);
    if forall i :: 0 <= i < |generated| ==> Attempt(generated[i], decode).Some? {
      DecodedAll(generated, decode);
    }
    if forall i :: 0 <= i < |generated| ==> Attempt(generated[i], decode).None? {
      DecodedNone(generated, decode);
    }
  }

  /** The recorded seed belongs to the first candidate with `encodedImage`, and
      there is none exactly when no candidate has one. */
  lemma {:induction false} FirstSeedIsFirst(generated: seq<GeneratedImage>, seed: int)
    ensures FirstSeed(generated, seed).None? <==> forall i :: 0 <= i < |generated| ==> generated[i].encodedImage.None?
    ensures forall i ::
      (&& 0 <= i < |generated| && generated[i].encodedImage.Some?
       && (forall j :: 0 <= j < i ==> generated[j].encodedImage.None?))
      ==> FirstSeed(generated, seed) == Some(generated[i].seed.GetOr(seed))
    ensures FirstSeed(generated, seed).Some? ==>
      exists i :: 0 <= i < |generated| && generated[i].encodedImage.Some?
        && (forall j :: 0 <= j < i ==> generated[j].encodedImage.None?)
        && FirstSeed(generated, seed) == Some(generated[i].seed.GetOr(seed))
  {
    if |generated| > 0 {
      var prefix := generated[..|generated| - 1];
      FirstSeedIsFirst(prefix, seed);
      assert forall i :: 0 <= i < |prefix| ==> prefix[i] == generated[i];
      if FirstSeed(prefix, seed).None? && generated[|prefix|].encodedImage.Some? {
        assert forall j :: 0 <= j < |prefix| ==> generated[j].encodedImage.None?;
      }
    }
  }

  /** Whenever an image was collected a seed was recorded, so the echoed seed is
      never Python's None. */
  lemma {:induction false} SeedRecordedWhenDecoded(generated: seq<GeneratedImage>, seed: int, decode: Decoder)
    ensures |Decoded(generated, decode)| > 0 ==> FirstSeed(generated, seed).Some?
  {
    if |generated| > 0 {
      SeedRecordedWhenDecoded(generated[..|generated| - 1], seed, decode);
    }
  }

  /** The node's two outputs: the image batch and `str` of the seed. */
  datatype FxOutput = FxOutput(images: seq<Image>, seed: string)

  /** `num_images` zero images with the original, unreduced input seed. */
  function Placeholder(seed: int, numImages: nat): FxOutput
  {
    FxOutput(ZeroBatch(numImages), Decimal(seed))
  }

  /** What `generate_image` returns for a given reply of the generation call. */
  function Assembly(reply: Reply<GenerationResponse>, seed: int, numImages: nat, decode: Decoder): FxOutput
  {
    match reply
    case Failure => Placeholder(seed, numImages)
    case Success(response) =>
      if response.imagePanels.None? || |response.imagePanels.value| == 0
        || response.imagePanels.value[0].generatedImages.None?
      then Placeholder(seed, numImages)
      else
        var generated := response.imagePanels.value[0].generatedImages.value;
        var images := Decoded(generated, decode);
        if |images| == 0 then Placeholder(seed, numImages)
        else
          SeedRecordedWhenDecoded(generated, seed, decode);
          FxOutput(images, Decimal(FirstSeed(generated, seed).value))
  }

  /** The result in each case:
      - a failed call, no `imagePanels`, an empty panel list or a panel without
        `generatedImages` (errors the outer handler catches) gives the placeholder
        batch with `str` of the unreduced input seed;
      - so does a panel none of whose candidates decodes;
      - otherwise the result is the decoded images in response order with `str`
        of the seed of the first candidate that has `encodedImage`.
      A request for at least one image never yields an empty batch. */
  lemma AssemblyCases(reply: Reply<GenerationResponse>, seed: int, numImages: nat, decode: Decoder)
    ensures !(HasPanel(reply) && FirstPanel(reply).generatedImages.Some?) ==>
      Assembly(reply, seed, numImages, decode) == Placeholder(seed, numImages)
    ensures HasPanel(reply) && FirstPanel(reply).generatedImages.Some? ==>
      var generated := FirstPanel(reply).generatedImages.value;
      && (Decoded(generated, decode) == [] ==> Assembly(reply, seed, numImages, decode) == Placeholder(seed, numImages))
      && (Decoded(generated, decode) != [] ==>
           && FirstSeed(generated, seed).Some?
           && Assembly(reply, seed, numImages, decode) == FxOutput(Decoded(generated, decode), Decimal(FirstSeed(generated, seed).value))
           && exists i :: 0 <= i < |generated| && generated[i].encodedImage.Some?
                && (forall j :: 0 <= j < i ==> generated[j].encodedImage.None?)
                && Assembly(reply, seed, numImages, decode).seed == Decimal(generated[i].seed.GetOr(seed)))
    ensures numImages > 0 ==> |Assembly(reply, seed, numImages, decode).images| > 0
  {
    if HasPanel(reply) && FirstPanel(reply).generatedImages.Some? {
      var generated := FirstPanel(reply).generatedImages.value;
      SeedRecordedWhenDecoded(generated, seed, decode);
      FirstSeedIsFirst(generated, seed);
    }
  }

  /** The part of `generate_image` after the response arrives: the guarded decode
      loop, which records the seed once and appends each image that decodes. */
  method AssembleResult(reply: Reply<GenerationResponse>, seed: int, numImages: nat, decode: Decoder) returns (out: FxOutput)
    ensures out == Assembly(reply, seed, numImages, decode)
  {
    out := Placeholder(seed, numImages);
    if reply.Failure? {
      return;
    }
    var response := reply.body;
    if response.imagePanels.None? || |response.imagePanels.value| == 0 {
      return;
    }
    var panel := response.imagePanels.value[0];
    if panel.generatedImages.None? {
      return;
    }
    var generated := panel.generatedImages.value;
    var images: seq<Image> := [];
    var responseSeed: Option<int> := None;
    for i := 0 to |generated|
      invariant images == Decoded(generated[..i], decode)
      invariant responseSeed == FirstSeed(generated[..i], seed)
    {
      assert generated[..i + 1][..i] == generated[..i];
      var encoded := generated[i].encodedImage;
      if encoded.Some? {
        if responseSeed.None? {
          responseSeed := Some(generated[i].seed.GetOr(seed));
        }
        var decoded := decode(StripDataUri(encoded.value));
        if decoded.Some? {
          images := images + [decoded.value];
        }
      }
    }
    assert generated[..|generated|] == generated;
    if |images| > 0 {
      SeedRecordedWhenDecoded(generated, seed, decode);
      out := FxOutput(images, Decimal(responseSeed.value));
    }
  }

  /** `generate_image`. The clock-derived session id, the header dictionary, the
      generation endpoint and the image decoder are parameters. Besides the result
      it yields the request body and the headers it sent. */
  method GenerateImage(
    prompt: string, seed: int, aspectRatio: string, numImages: nat, sessionId: string,
    headers: map<string, string>, generation: GenerationService, decode: Decoder)
    returns (out: FxOutput, request: GenerationRequest, sentHeaders: map<string, string>)
    requires IsSessionId(sessionId)
    ensures request == ImageFxRequest(prompt, seed, aspectRatio, numImages, sessionId)
    ensures request.clientContext.sessionId == sessionId
    ensures sentHeaders == CleanHeaders(headers)
    ensures out == Assembly(generation(request), seed, numImages, decode)
  {
    request := ImageFxRequest(prompt, seed, aspectRatio, numImages, sessionId);
    sentHeaders := CleanHeaders(headers);
    out := AssembleResult(generation(request), seed, numImages, decode);
  }
}
