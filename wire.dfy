/** The image-generation endpoint (`v1:runImageFx`) as both nodes use it: its
    request body, its response shape, and the constants they send. */
module Wire {
  import opened Common

  const ModelNameType := "IMAGEN_3_1"
  const LandscapeRatio := "IMAGE_ASPECT_RATIO_LANDSCAPE"

  datatype UserInput = UserInput(candidatesCount: int, prompts: seq<string>, isExpandedPrompt: bool, seed: int)
  datatype ClientContext = ClientContext(sessionId: string, tool: string)

  /** `seed % modulus` as both nodes send it, each with its own modulus (for a
      positive modulus Python's floor remainder and Dafny's Euclidean one agree):
      the sent seed lies within [0, modulus) and equals the input when that
      already lies in the range. */
  function ReduceSeed(seed: int, modulus: int): (r: int)
    requires modulus > 0
    ensures 0 <= r < modulus
    ensures 0 <= seed < modulus ==> r == seed
  {
    seed % modulus
  }

  /** `{userInput, clientContext, aspectRatio, modelInput: {modelNameType}}`. */
  datatype GenerationRequest = GenerationRequest(
    userInput: UserInput,
    clientContext: ClientContext,
    aspectRatio: string,
    modelNameType: string)

  /** One entry of `generatedImages`; a field is None when its key is absent. */
  datatype GeneratedImage = GeneratedImage(encodedImage: Option<string>, seed: Option<int>)

  /** One entry of `imagePanels`. */
  datatype ImagePanel = ImagePanel(generatedImages: Option<seq<GeneratedImage>>, prompt: Option<string>)

  /** The parsed response body; `imagePanels` is None when the key is absent. */
  datatype GenerationResponse = GenerationResponse(imagePanels: Option<seq<ImagePanel>>)

  /** Does the reply carry a non-empty `imagePanels` list? */
  predicate HasPanel(reply: Reply<GenerationResponse>)
  {
    reply.Success? && reply.body.imagePanels.Some? && |reply.body.imagePanels.value| > 0
  }

  /** `imagePanels[0]`, the only panel either node reads. */
  function FirstPanel(reply: Reply<GenerationResponse>): ImagePanel
    requires HasPanel(reply)
  {
    reply.body.imagePanels.value[0]
  }

  /** The session id: ';' followed by the clock in milliseconds. The clock is not
      modelled; any text after the ';' is allowed. */
  predicate IsSessionId(s: string)
  {
    |s| > 0 && s[0] == ';'
  }

  /** The remote generation endpoint, seen through one POST. */
  type GenerationService = GenerationRequest -> Reply<GenerationResponse>
}
