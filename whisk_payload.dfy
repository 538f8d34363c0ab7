/** The storyboard request of the Whisk node: the upload record of each reference
    image, one caption request per supplied image, and the storyboard payload whose
    populated fields and "missing" metadata depend on which of the subject, scene
    and style images were supplied. */
module WhiskPayload {
  import opened Common
  import opened Codec

  /** The role a reference image plays, as the remote service names it. */
  datatype Category = Character | Location | Style

  /** Wire name of a category, as sent in `category` fields. */
  function CategoryName(c: Category): string
  {
    match c
    case Character => "CHARACTER"
    case Location => "LOCATION"
    case Style => "STYLE"
  }

  /** `["CHARACTER", "LOCATION", "STYLE"][index]`. */
  function CategoryAt(index: nat): Category
    requires index < 3
  {
    [Character, Location, Style][index]
  }

  /** Position of a category in that list: subject 0, scene 1, style 2. */
  function CategoryIndex(c: Category): (i: nat)
    ensures i < 3 && CategoryAt(i) == c
    ensures ["CHARACTER", "LOCATION", "STYLE"][i] == CategoryName(c)
  {
    match c
    case Character => 0
    case Location => 1
    case Style => 2
  }

  /** A supplied reference image as it leaves the host: the fresh `uuid4()` text
      and the base64 JPEG of the first image of its batch. Both are produced
      outside this model. */
  datatype Reference = Reference(uuid: string, jpegBase64: string)

  /** The per-image record sent as a character, location or style entry. */
  datatype ImageData = ImageData(
    imageId: string,
    category: Category,
    isPlaceholder: bool,
    base64Image: string,
    index: nat,
    isUploading: bool,
    isLoading: bool,
    isSelected: bool,
    prompt: string)

  const JpegDataUriScheme := "data:image/jpeg;base64"

  /** The data URI under which an upload is sent. */
  function JpegDataUri(jpegBase64: string): string
  {
    JpegDataUriScheme + "," + jpegBase64
  }

  /** `_extract_image_data`: the upload record of image number `index`, with an
      empty prompt still to be filled by captioning. */
  function ExtractImageData(r: Reference, index: nat): (d: ImageData)
    requires index < 3
    ensures d.index == index && d.category == CategoryAt(index)
    ensures d.imageId == "image-" + r.uuid
    ensures d.base64Image == JpegDataUri(r.jpegBase64)
    ensures d.prompt == "" && d.isSelected && !d.isPlaceholder && !d.isUploading && !d.isLoading
  {
    ImageData("image-" + r.uuid, CategoryAt(index), false, JpegDataUri(r.jpegBase64), index, false, false, true, "")
  }

  /** Stripping the data URI of an upload, as the decoders do with generated
      images, gives back exactly the uploaded base64 text. */
  lemma UploadStripsBack(r: Reference, index: nat)
    requires index < 3
    ensures StripDataUri(ExtractImageData(r, index).base64Image) == r.jpegBase64
  {
    StripAfterPrefix(JpegDataUriScheme, r.jpegBase64);
  }

  /** Body of a `backbone.generateCaption` call: `{json: {category, imageBase64, sessionId}}`. */
  datatype CaptionRequest = CaptionRequest(category: Category, imageBase64: string, sessionId: string)

  /** The captioning endpoint: Failure for a transport or status error; on success,
      Some(caption) when `result.data.json` is present and None otherwise. */
  type CaptionService = CaptionRequest -> Reply<Option<string>>

  function CaptionRequestFor(d: ImageData, category: Category, sessionId: string): CaptionRequest
  {
    CaptionRequest(category, d.base64Image, sessionId)
  }

  /** `_generate_caption`: the caption the service returns, or "" when the call
      fails or the response lacks `result.data.json`. It never raises. */
  function GenerateCaption(d: ImageData, category: Category, sessionId: string, service: CaptionService): (caption: string)
    ensures var reply := service(CaptionRequestFor(d, category, sessionId));
      && (reply.Success? && reply.body.Some? ==> caption == reply.body.value)
      && (reply.Failure? || reply.body.None? ==> caption == "")
  {
    match service(CaptionRequestFor(d, category, sessionId))
    case Success(Some(c)) => c
    case _ => ""
  }

  /** The captioned entry of a supplied image: its upload record with `prompt` set
      to the caption requested under the category of its own index. */
  function Entry(r: Reference, index: nat, sessionId: string, service: CaptionService): (d: ImageData)
    requires index < 3
    ensures d.index == index && d.category == CategoryAt(index)
    ensures d.base64Image == JpegDataUri(r.jpegBase64) && d.imageId == "image-" + r.uuid
    ensures d.prompt == GenerateCaption(ExtractImageData(r, index), d.category, sessionId, service)
    ensures d == ExtractImageData(r, index).(prompt := d.prompt)
    ensures d.isSelected && !d.isPlaceholder && !d.isUploading && !d.isLoading
  {
    var data := ExtractImageData(r, index);
    data.(prompt := GenerateCaption(data, CategoryAt(index), sessionId, service))
  }

  /** Body of a `backbone.generateStoryBoardPrompt` call: the `json` part. */
  datatype StoryboardJson = StoryboardJson(
    characters: seq<ImageData>,
    location: Option<ImageData>,
    style: Option<ImageData>,
    pose: Option<ImageData>,
    additionalInput: string,
    sessionId: string,
    numImages: int)

  /** The whole body; `metaValues` is None when `meta` is the empty object and
      Some(values) when it is `{values: values}`. */
  datatype Payload = Payload(json: StoryboardJson, metaValues: Option<map<string, seq<string>>>)

  const Undefined: seq<string> := ["undefined"]

  /** Keys listed as missing: pose always, location and style when not supplied. */
  function MissingKeys(hasScene: bool, hasStyle: bool): set<string>
  {
    {"pose"} + (if hasScene then {} else {"location"}) + (if hasStyle then {} else {"style"})
  }

  /** The `meta.values` rule, stated once for all eight combinations. */
  function MetaValues(hasSubject: bool, hasScene: bool, hasStyle: bool): (values: Option<map<string, seq<string>>>)
    ensures values.None? <==> !hasSubject && !hasScene && !hasStyle
    ensures values.Some? ==>
      && "pose" in values.value
      && "characters" !in values.value
      && ("location" in values.value <==> !hasScene)
      && ("style" in values.value <==> !hasStyle)
      && values.value.Keys <= {"pose", "location", "style"}
      && forall k :: k in values.value ==> values.value[k] == Undefined
  {
    if !hasSubject && !hasScene && !hasStyle then None
    else Some(map k | k in MissingKeys(hasScene, hasStyle) :: Undefined)
  }

  /** The storyboard payload for a presence combination: the policy table. */
  function StoryboardPayload(
    subject: Option<Reference>, scene: Option<Reference>, style: Option<Reference>,
    prompt: string, sessionId: string, numImages: int, service: CaptionService): (p: Payload)
    ensures |p.json.characters| == (if subject.Some? then 1 else 0)
    ensures p.json.location.Some? <==> scene.Some?
    ensures p.json.style.Some? <==> style.Some?
    ensures p.json.pose.None?
    ensures p.json.additionalInput == prompt && p.json.sessionId == sessionId && p.json.numImages == numImages
    ensures p.metaValues == MetaValues(subject.Some?, scene.Some?, style.Some?)
    ensures subject.Some? ==> p.json.characters[0] == Entry(subject.value, 0, sessionId, service)
    ensures scene.Some? ==> p.json.location.value == Entry(scene.value, 1, sessionId, service)
    ensures style.Some? ==> p.json.style.value == Entry(style.value, 2, sessionId, service)
  {
    Payload(
      StoryboardJson(
        if subject.Some? then [Entry(subject.value, 0, sessionId, service)] else [],
        if scene.Some? then Some(Entry(scene.value, 1, sessionId, service)) else None,
        if style.Some? then Some(Entry(style.value, 2, sessionId, service)) else None,
        None, prompt, sessionId, numImages),
      MetaValues(subject.Some?, scene.Some?, style.Some?))
  }

  /** The reference supplied for a role. */
  function ReferenceFor(c: Category, subject: Option<Reference>, scene: Option<Reference>, style: Option<Reference>): Option<Reference>
  {
    match c
    case Character => subject
    case Location => scene
    case Style => style
  }

  function Present(r: Option<Reference>): nat
  {
    if r.Some? then 1 else 0
  }

  /** The caption requests `_generate_payload` issues, in issue order. */
  function CaptionCalls(subject: Option<Reference>, scene: Option<Reference>, style: Option<Reference>, sessionId: string): seq<CaptionRequest>
  {
    CallFor(subject, 0, sessionId) + CallFor(scene, 1, sessionId) + CallFor(style, 2, sessionId)
  }

  /** Exactly one caption request per supplied image and none for an absent one,
      in the order subject, scene, style; each carries the category of its role,
      that image's data URI and the session id. */
  lemma CaptionCallsPerImage(subject: Option<Reference>, scene: Option<Reference>, style: Option<Reference>, sessionId: string)
    ensures var calls := CaptionCalls(subject, scene, style, sessionId);
      && |calls| == Present(subject) + Present(scene) + Present(style)
      && (forall i, j :: 0 <= i < j < |calls| ==> CategoryIndex(calls[i].category) < CategoryIndex(calls[j].category))
      && (forall i :: 0 <= i < |calls| ==>
           && calls[i].sessionId == sessionId
           && ReferenceFor(calls[i].category, subject, scene, style).Some?
           && calls[i].imageBase64 == JpegDataUri(ReferenceFor(calls[i].category, subject, scene, style).value.jpegBase64))
  {
  }

  /** The caption request for image number `index`, when it is supplied. */
  function CallFor(r: Option<Reference>, index: nat, sessionId: string): (calls: seq<CaptionRequest>)
    requires index < 3
    ensures |calls| == Present(r)
    ensures forall i :: 0 <= i < |calls| ==>
      calls[i] == CaptionRequest(CategoryAt(index), JpegDataUri(r.value.jpegBase64), sessionId)
  {
    if r.Some? then [CaptionRequestFor(ExtractImageData(r.value, index), CategoryAt(index), sessionId)] else []
  }

  /** The seven non-empty rows of the `meta.values` table, as the source spells them out. */
  lemma MetaValuesRows()
    ensures MetaValues(true, true, true) == Some(map["pose" := Undefined])
    ensures MetaValues(true, true, false) == Some(map["style" := Undefined, "pose" := Undefined])
    ensures MetaValues(true, false, true) == Some(map["location" := Undefined, "pose" := Undefined])
    ensures MetaValues(false, true, true) == Some(map["pose" := Undefined])
    ensures MetaValues(true, false, false) == Some(map["location" := Undefined, "style" := Undefined, "pose" := Undefined])
    ensures MetaValues(false, true, false) == Some(map["style" := Undefined, "pose" := Undefined])
    ensures MetaValues(false, false, true) == Some(map["location" := Undefined, "pose" := Undefined])
  {
    MetaValuesRow(true, true, true, map["pose" := Undefined]);
    MetaValuesRow(true, true, false, map["style" := Undefined, "pose" := Undefined]);
    MetaValuesRow(true, false, true, map["location" := Undefined, "pose" := Undefined]);
    MetaValuesRow(false, true, true, map["pose" := Undefined]);
    MetaValuesRow(true, false, false, map["location" := Undefined, "style" := Undefined, "pose" := Undefined]);
    MetaValuesRow(false, true, false, map["style" := Undefined, "pose" := Undefined]);
    MetaValuesRow(false, false, true, map["location" := Undefined, "pose" := Undefined]);
  }

  /** A map literal that lists exactly the missing keys, each as undefined, is the rule's map. */
  lemma MetaValuesRow(hasSubject: bool, hasScene: bool, hasStyle: bool, row: map<string, seq<string>>)
    requires hasSubject || hasScene || hasStyle
    requires row.Keys == MissingKeys(hasScene, hasStyle)
    requires forall k :: k in row ==> row[k] == Undefined
    ensures MetaValues(hasSubject, hasScene, hasStyle) == Some(row)
  {
    var values := MetaValues(hasSubject, hasScene, hasStyle).value;
    assert values.Keys == row.Keys;
    assert forall k :: k in values ==> values[k] == row[k];
    assert values == row;
  }

  /** Extracts image number `index`, captions it under `category` and stores the
      caption in the record, as each branch of `_generate_payload` does. */
  method CaptionImage(r: Reference, index: nat, category: Category, sessionId: string, service: CaptionService)
    returns (data: ImageData, request: CaptionRequest)
    requires index < 3 && category == CategoryAt(index)
    ensures data == Entry(r, index, sessionId, service)
    ensures request == CaptionRequestFor(ExtractImageData(r, index), category, sessionId)
    ensures request.category == data.category
  {
    data := ExtractImageData(r, index);
    request := CaptionRequestFor(data, category, sessionId);
    var caption := GenerateCaption(data, category, sessionId, service);
    data := data.(prompt := caption);
  }

  /** `_generate_payload`: starts from the empty payload and fills it in by the
      source's explicit eight-way case split. Proved equal to the policy table and
      to the caption-call sequence above. */
  method GeneratePayload(
    subject: Option<Reference>, scene: Option<Reference>, style: Option<Reference>,
    prompt: string, sessionId: string, numImages: int, service: CaptionService)
    returns (payload: Payload, calls: seq<CaptionRequest>)
    ensures payload == StoryboardPayload(subject, scene, style, prompt, sessionId, numImages, service)
    ensures calls == CaptionCalls(subject, scene, style, sessionId)
  {
    var characters: seq<ImageData> := [];
    var location: Option<ImageData> := None;
    var styleEntry: Option<ImageData> := None;
    var values: Option<map<string, seq<string>>> := None;
    calls := [];
    MetaValuesRows();
    var data, request;
    if subject.Some? && scene.Some? && style.Some? {
      data, request := CaptionImage(subject.value, 0, Character, sessionId, service);
      calls := calls + [request];
      characters := characters + [data];
      data, request := CaptionImage(scene.value, 1, Location, sessionId, service);
      calls := calls + [request];
      location := Some(data);
      data, request := CaptionImage(style.value, 2, Style, sessionId, service);
      calls := calls + [request];
      styleEntry := Some(data);
      values := Some(map["pose" := Undefined]);
    } else if subject.Some? && scene.Some? {
      data, request := CaptionImage(subject.value, 0, Character, sessionId, service);
      calls := calls + [request];
      characters := characters + [data];
      data, request := CaptionImage(scene.value, 1, Location, sessionId, service);
      calls := calls + [request];
      location := Some(data);
      values := Some(map["style" := Undefined, "pose" := Undefined]);
    } else if subject.Some? && style.Some? {
      data, request := CaptionImage(subject.value, 0, Character, sessionId, service);
      calls := calls + [request];
      characters := characters + [data];
      data, request := CaptionImage(style.value, 2, Style, sessionId, service);
      calls := calls + [request];
      styleEntry := Some(data);
      values := Some(map["location" := Undefined, "pose" := Undefined]);
    } else if scene.Some? && style.Some? {
      data, request := CaptionImage(scene.value, 1, Location, sessionId, service);
      calls := calls + [request];
      location := Some(data);
      data, request := CaptionImage(style.value, 2, Style, sessionId, service);
      calls := calls + [request];
      styleEntry := Some(data);
      values := Some(map["pose" := Undefined]);
    } else if subject.Some? {
      data, request := CaptionImage(subject.value, 0, Character, sessionId, service);
      calls := calls + [request];
      characters := characters + [data];
      values := Some(map["location" := Undefined, "style" := Undefined, "pose" := Undefined]);
    } else if scene.Some? {
      data, request := CaptionImage(scene.value, 1, Location, sessionId, service);
      calls := calls + [request];
      location := Some(data);
      values := Some(map["style" := Undefined, "pose" := Undefined]);
    } else if style.Some? {
      data, request := CaptionImage(style.value, 2, Style, sessionId, service);
      calls := calls + [request];
      styleEntry := Some(data);
      values := Some(map["location" := Undefined, "pose" := Undefined]);
    }
    payload := Payload(StoryboardJson(characters, location, styleEntry, None, prompt, sessionId, numImages), values);
  }
}
