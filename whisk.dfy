/** The Whisk node's `generate_image`: storyboard call, generation request with
    the reduced seed, and result assembly. Unlike the ImageFx node, the decode loop
    here has no per-image guard, and only request failures are caught, so several
    response shapes end the call with an exception; they are modelled as
    `Escaped` rather than as a fallback. */
module Whisk {
  import opened Common
  import opened Codec
  import opened Wire
  import opened WhiskPayload

  /** The largest seed the node accepts, and the modulus it reduces by. */
  const SeedModulus := 2147483647

  /** An exception the node does not catch. */
  datatype Uncaught = KeyError | IndexError | DecodeError

  /** How a call of the node ends: with a value, or with an exception. */
  datatype Completion<+T> = Returned(value: T) | Escaped(error: Uncaught)

  /** On the declared input range 0..2147483647 the reduction is the identity
      except at the top, which is sent as 0, like seed 0. */
  lemma ReduceSeedOnInputRange(seed: int)
    requires 0 <= seed <= SeedModulus
    ensures ReduceSeed(seed, SeedModulus) == 0 <==> seed == 0 || seed == SeedModulus
    ensures seed < SeedModulus ==> ReduceSeed(seed, SeedModulus) == seed
  {
  }

  /** The storyboard response body as the node reads it. */
  datatype StoryboardBody =
    | Unexpected            // no `result` or no `result.data`
    | DataWithoutJson       // `result.data` present, `result.data.json` absent
    | StoryboardPrompt(text: string)

  type StoryboardService = Payload -> Reply<StoryboardBody>

  /** The storyboard prompt: the service's text, "" on a failed call or an
      unexpected body, and a KeyError that escapes when `data` lacks `json`. */
  function StoryboardOutcome(reply: Reply<StoryboardBody>): (r: Completion<string>)
    ensures r.Escaped? <==> reply == Success(DataWithoutJson)
    ensures reply.Success? && reply.body.StoryboardPrompt? ==> r == Returned(reply.body.text)
    ensures reply == Failure || reply == Success(Unexpected) ==> r == Returned("")
    ensures r.Returned? && r.value != "" ==> reply == Success(StoryboardPrompt(r.value))
  {
    match reply
    case Failure => Returned("")
    case Success(Unexpected) => Returned("")
    case Success(DataWithoutJson) => Escaped(KeyError)
    case Success(StoryboardPrompt(text)) => Returned(text)
  }

  /** The `runImageFx` body the Whisk node sends. */
  function WhiskRequest(storyboardPrompt: string, seed: int, numImages: int, sessionId: string): (q: GenerationRequest)
    ensures q.userInput.candidatesCount == numImages
    ensures q.userInput.prompts == [storyboardPrompt] && !q.userInput.isExpandedPrompt
    ensures 0 <= q.userInput.seed < SeedModulus && q.userInput.seed == ReduceSeed(seed, SeedModulus)
    ensures q.clientContext == ClientContext(sessionId, "BACKBONE")
    ensures q.aspectRatio == LandscapeRatio && q.modelNameType == ModelNameType
  {
    GenerationRequest(
      UserInput(numImages, [storyboardPrompt], false, ReduceSeed(seed, SeedModulus)),
      ClientContext(sessionId, "BACKBONE"),
      LandscapeRatio,
      ModelNameType)
  }

  /** The generated images and the per-image prompts. */
  datatype Batch = Batch(images: seq<Image>, prompts: seq<string>)

  /** `num_images` zero placeholders and no prompts. */
  function Fallback(numImages: nat): Batch
  {
    Batch(ZeroBatch(numImages), [])
  }

  /** Decodes every candidate in order; the first candidate without `encodedImage`
      or whose text does not decode ends the loop with the exception. */
  function StrictDecode(generated: seq<GeneratedImage>, decode: Decoder): Completion<seq<Image>>
  {
    if |generated| == 0 then Returned([])
    else match StrictDecode(generated[..|generated| - 1], decode)
      case Escaped(e) => Escaped(e)
      case Returned(images) =>
        var g := generated[|generated| - 1];
        if g.encodedImage.None? then Escaped(KeyError)
        else match decode(StripDataUri(g.encodedImage.value))
          case None => Escaped(DecodeError)
          case Some(image) => Returned(images + [image])
  }

  /** Once a prefix of the candidates raises, the whole loop raises the same
      exception: later candidates are never looked at. */
  lemma {:induction false} StrictDecodeStops(generated: seq<GeneratedImage>, k: nat, decode: Decoder)
    requires k <= |generated| && StrictDecode(generated[..k], decode).Escaped?
    ensures StrictDecode(generated, decode) == StrictDecode(generated[..k], decode)
  {
    if k < |generated| {
      var prefix := generated[..|generated| - 1];
      assert prefix[..k] == generated[..k];
      StrictDecodeStops(prefix, k, decode);
    } else {
      assert generated[..k] == generated;
    }
  }

  /** Does this candidate carry text that decodes? */
  predicate Decodes(g: GeneratedImage, decode: Decoder)
  {
    g.encodedImage.Some? && decode(StripDataUri(g.encodedImage.value)).Some?
  }

  /** The exception a candidate that does not decode raises: KeyError for a
      missing `encodedImage`, the decoder's error otherwise. */
  function FailureOf(g: GeneratedImage): Uncaught
  {
    if g.encodedImage.None? then KeyError else DecodeError
  }

  /** The loop raises the exception of the first candidate that does not decode. */
  lemma StrictDecodeFirstFailure(generated: seq<GeneratedImage>, i: nat, decode: Decoder)
    requires i < |generated| && !Decodes(generated[i], decode)
    requires forall j :: 0 <= j < i ==> Decodes(generated[j], decode)
    ensures StrictDecode(generated, decode) == Escaped(FailureOf(generated[i]))
  {
    var upTo := generated[..i + 1];
    assert upTo[..i] == generated[..i];
    StrictDecodeAll(generated[..i], decode);
    StrictDecodeStops(generated, i + 1, decode);
  }

  /** The loop returns iff every candidate decodes, and then it returns every
      decoded image, one per candidate, in response order. */
  lemma {:induction false} StrictDecodeAll(generated: seq<GeneratedImage>, decode: Decoder)
    ensures StrictDecode(generated, decode).Returned? <==> forall i :: 0 <= i < |generated| ==> Decodes(generated[i], decode)
    ensures StrictDecode(generated, decode).Returned? ==>
      var images := StrictDecode(generated, decode).value;
      && |images| == |generated|
      && forall i :: 0 <= i < |generated| ==> Some(images[i]) == decode(StripDataUri(generated[i].encodedImage.value))
  {
    if |generated| > 0 {
      var prefix := generated[..|generated| - 1];
      StrictDecodeAll(prefix, decode);
      assert forall i :: 0 <= i < |prefix| ==> prefix[i] == generated[i];
    }
  }

  /** The `try` block after the generation call: fallback on a failed call or a
      response without `imagePanels`; exceptions for an empty panel list, a panel
      without `generatedImages` or a candidate that does not decode; otherwise the
      decoded images with the first panel's prompt (default "") once per image,
      and the fallback again when the panel holds no candidates. */
  function Assembly(reply: Reply<GenerationResponse>, numImages: nat, decode: Decoder): Completion<Batch>
  {
    match reply
    case Failure => Returned(Fallback(numImages))
    case Success(response) =>
      if response.imagePanels.None? then Returned(Fallback(numImages))
      else if |response.imagePanels.value| == 0 then Escaped(IndexError)
      else
        var panel := response.imagePanels.value[0];
        if panel.generatedImages.None? then Escaped(KeyError)
        else match StrictDecode(panel.generatedImages.value, decode)
          case Escaped(e) => Escaped(e)
          case Returned(images) =>
            if |images| == 0 then Returned(Fallback(numImages))
            else Returned(Batch(images, seq(|images|, _ => panel.prompt.GetOr(""))))
  }

  /** The cases of the assembly, each stated from the reply alone:
      - a failed call or a reply without `imagePanels` gives the fallback;
      - an empty panel list raises IndexError, a panel without `generatedImages`
        raises KeyError;
      - a panel with no candidates gives the fallback;
      - when every candidate decodes, the batch holds each candidate's image in
        response order and the panel's prompt (default "") once per image;
      - otherwise the first candidate that does not decode raises its exception.
      So a caller asking for at least one image never receives an empty batch. */
  lemma AssemblyCases(reply: Reply<GenerationResponse>, numImages: nat, decode: Decoder)
    ensures reply.Failure? || reply.body.imagePanels.None? ==> Assembly(reply, numImages, decode) == Returned(Fallback(numImages))
    ensures reply.Success? && reply.body.imagePanels == Some([]) ==> Assembly(reply, numImages, decode) == Escaped(IndexError)
    ensures HasPanel(reply) && FirstPanel(reply).generatedImages.None? ==> Assembly(reply, numImages, decode) == Escaped(KeyError)
    ensures HasPanel(reply) && FirstPanel(reply).generatedImages == Some([]) ==> Assembly(reply, numImages, decode) == Returned(Fallback(numImages))
    ensures HasPanel(reply) && FirstPanel(reply).generatedImages.Some? ==>
      var generated := FirstPanel(reply).generatedImages.value;
      var r := Assembly(reply, numImages, decode);
      && (|generated| > 0 && (forall i :: 0 <= i < |generated| ==> Decodes(generated[i], decode)) ==>
           && r.Returned?
           && |r.value.images| == |r.value.prompts| == |generated|
           && forall i :: 0 <= i < |generated| ==>
                && Some(r.value.images[i]) == decode(StripDataUri(generated[i].encodedImage.value))
                && r.value.prompts[i] == FirstPanel(reply).prompt.GetOr(""))
      && (forall i ::
            (&& 0 <= i < |generated| && !Decodes(generated[i], decode)
             && (forall j :: 0 <= j < i ==> Decodes(generated[j], decode)))
            ==> r == Escaped(FailureOf(generated[i])))
    ensures var r := Assembly(reply, numImages, decode);
      r.Returned? && numImages > 0 ==> |r.value.images| > 0
  {
    if HasPanel(reply) && FirstPanel(reply).generatedImages.Some? {
      var generated := FirstPanel(reply).generatedImages.value;
      StrictDecodeAll(generated, decode);
      forall i | 0 <= i < |generated| && !Decodes(generated[i], decode)
          && (forall j :: 0 <= j < i ==> Decodes(generated[j], decode))
        ensures StrictDecode(generated, decode) == Escaped(FailureOf(generated[i]))
      {
        StrictDecodeFirstFailure(generated, i, decode);
      }
    }
  }

  /** The generation part of `generate_image`, with the loop that appends each
      decoded image and the panel prompt. */
  method AssembleBatch(reply: Reply<GenerationResponse>, numImages: nat, decode: Decoder) returns (r: Completion<Batch>)
    ensures r == Assembly(reply, numImages, decode)
  {
    r := Returned(Fallback(numImages));
    if reply.Failure? {
      return;
    }
    var response := reply.body;
    if response.imagePanels.None? {
      return;
    }
    if |response.imagePanels.value| == 0 {
      return Escaped(IndexError);
    }
    var panel := response.imagePanels.value[0];
    if panel.generatedImages.None? {
      return Escaped(KeyError);
    }
    var generated := panel.generatedImages.value;
    var images: seq<Image> := [];
    var prompts: seq<string> := [];
    for i := 0 to |generated|
      invariant StrictDecode(generated[..i], decode) == Returned(images)
      invariant prompts == seq(|images|, _ => panel.prompt.GetOr(""))
    {
      assert generated[..i + 1][..i] == generated[..i];
      var encoded := generated[i].encodedImage;
      if encoded.None? {
        StrictDecodeStops(generated, i + 1, decode);
        return Escaped(KeyError);
      }
      var decoded := decode(StripDataUri(encoded.value));
      if decoded.None? {
        StrictDecodeStops(generated, i + 1, decode);
        return Escaped(DecodeError);
      }
      images := images + [decoded.value];
      prompts := prompts + [panel.prompt.GetOr("")];
    }
    assert generated[..|generated|] == generated;
    if |images| > 0 {
      r := Returned(Batch(images, prompts));
    }
  }

  /** The node's five outputs; `prompts` is the list the source serialises with
      `json.dumps`. */
  datatype WhiskOutput = WhiskOutput(
    images: seq<Image>,
    subjectPrompt: string,
    scenePrompt: string,
    stylePrompt: string,
    prompts: seq<string>)

  /** The caption of a supplied entry, "" when absent. */
  function PromptOf(entry: Option<ImageData>): string
  {
    if entry.Some? then entry.value.prompt else ""
  }

  /** `generate_image`. The clock-derived session id is a parameter; the three
      services and the decoder stand for the network and the image codec. Besides
      the result it yields every request it sent: the caption requests, the
      storyboard payload and, unless the storyboard reply ended the call, the
      generation request. */
  method GenerateImage(
    prompt: string, subject: Option<Reference>, scene: Option<Reference>, style: Option<Reference>,
    numImages: nat, seed: int, sessionId: string,
    captions: CaptionService, storyboard: StoryboardService, generation: GenerationService, decode: Decoder)
    returns (outcome: Completion<WhiskOutput>, captionCalls: seq<CaptionRequest>, payload: Payload, request: Option<GenerationRequest>)
    requires IsSessionId(sessionId)
    ensures captionCalls == CaptionCalls(subject, scene, style, sessionId)
    ensures payload == StoryboardPayload(subject, scene, style, prompt, sessionId, numImages, captions)
    ensures forall i :: 0 <= i < |captionCalls| ==> captionCalls[i].sessionId == sessionId
    ensures payload.json.sessionId == sessionId
    ensures request.None? <==> StoryboardOutcome(storyboard(payload)).Escaped?
    ensures request.None? ==> outcome == Escaped(KeyError)
    ensures request.Some? ==>
      && request.value == WhiskRequest(StoryboardOutcome(storyboard(payload)).value, seed, numImages, sessionId)
      && IsSessionId(request.value.clientContext.sessionId)
      && match Assembly(generation(request.value), numImages, decode)
         case Escaped(e) => outcome == Escaped(e)
         case Returned(batch) => outcome.Returned? && outcome.value.images == batch.images && outcome.value.prompts == batch.prompts
    ensures outcome.Returned? ==>
      && outcome.value.subjectPrompt == (if subject.Some? then Entry(subject.value, 0, sessionId, captions).prompt else "")
      && outcome.value.scenePrompt == (if scene.Some? then Entry(scene.value, 1, sessionId, captions).prompt else "")
      && outcome.value.stylePrompt == (if style.Some? then Entry(style.value, 2, sessionId, captions).prompt else "")
  {
    payload, captionCalls := GeneratePayload(subject, scene, style, prompt, sessionId, numImages, captions);
    CaptionCallsPerImage(subject, scene, style, sessionId);
    var storyboardPrompt := StoryboardOutcome(storyboard(payload));
    if storyboardPrompt.Escaped? {
      return Escaped(KeyError), captionCalls, payload, None;
    }
    var q := WhiskRequest(storyboardPrompt.value, seed, numImages, sessionId);
    request := Some(q);
    var batch := AssembleBatch(generation(q), numImages, decode);
    if batch.Escaped? {
      return Escaped(batch.error), captionCalls, payload, request;
    }
    var characters := payload.json.characters;
    outcome := Returned(WhiskOutput(
      batch.value.images,
      if |characters| > 0 then characters[0].prompt else "",
      PromptOf(payload.json.location),
      PromptOf(payload.json.style),
      batch.value.prompts));
  }
}
