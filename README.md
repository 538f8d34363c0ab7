# Whisk and ImageFx request/response logic, in Dafny

This project models the decision logic of two plugin nodes of an image-generation
host application that call a remote image service:

- the **Whisk node** (`comfyui_whisk.py`) takes an optional subject, scene and
  style reference image and a prompt. It captions each supplied image. It builds a
  storyboard payload whose fields and "missing" metadata follow an eight-way case
  split on which images are present. It then requests `num_images` images with a
  reduced seed and assembles the decoded batch with per-image prompts, or falls
  back to zero placeholder images;
- the **prompt splitter** (`WhiskPromptsNode`) turns the Whisk prompt list into
  exactly four strings;
- the **ImageFx node** (`comfyui_imagefx.py`) maps an aspect-ratio label to the
  API constant, reduces the seed, cleans the headers and sends one generation
  request. It decodes the candidates, skipping those that fail, and echoes the
  first candidate's seed. On any failure it returns a placeholder batch with the
  input seed.

Images are opaque tokens (`Codec.Image`, with `Zero` for the all-zero 512x512x3
placeholder). Decoding a base64 image is a partial function handed in by the
caller. Every HTTP call is an oracle function returning `Success(body)` or
`Failure`. The clock-derived session id is a parameter that must start with `;`.

Modules: `Common` (Option, Reply), `Codec` (images, placeholder batch, data-URI
stripping, `str` of an int), `Wire` (the generation request and response, the seed reduction),
`WhiskPayload` (upload records, captions, the storyboard payload), `Whisk`
(the node's `generate_image`), `WhiskPrompts` (`process_prompts`), `ImageFx`.

Imperative source code is modelled as methods: `_generate_payload`'s in-place
dictionary updates, the two decode loops and `process_prompts`'s `+=`. The payload
builder and the two decode loops are proved equal to specification functions, and
their properties are proved about those functions; `process_prompts` has a
closed-form postcondition instead. The Whisk node lets several response shapes end the call with an
uncaught exception. These are modelled as `Whisk.Escaped`, not as a fallback:
- an empty `imagePanels` list;
- a missing `generatedImages` or `encodedImage`;
- an image that does not decode;
- a storyboard `data` without `json`.

## Model

| member | source | states |
|---|---|---|
| `Codec.StripDataUri` | comfyui_imagefx.py:145-146 | with no comma the text is unchanged; otherwise the result is the suffix after the first comma |
| `Codec.StripAfterPrefix` | comfyui_imagefx.py:145-146 | for a comma-free prefix, stripping `prefix + "," + s` gives back `s`, even when `s` contains commas |
| `Codec.DecimalRoundTrip` | comfyui_imagefx.py:163-176 | the echoed `str(seed)` reads back as the seed, so distinct seeds give distinct strings |
| `WhiskPayload.CategoryIndex` | comfyui_whisk.py:122 | a role's position in the category list maps back to that role, and the list entry at that position is the role's wire name: CHARACTER 0, LOCATION 1, STYLE 2 |
| `WhiskPayload.ExtractImageData` | comfyui_whisk.py:114-130 | the upload record has the category of its index, id `image-<uuid>` and the JPEG data URI; its prompt is empty and it is selected, not a placeholder, not uploading and not loading |
| `WhiskPayload.UploadStripsBack` | comfyui_whisk.py:124 | stripping the upload's data URI gives back exactly the uploaded base64 text |
| `WhiskPayload.GenerateCaption` | comfyui_whisk.py:82-112 | the caption is the service's `result.data.json` on success; it is "" on a failed call or a response without that field |
| `WhiskPayload.Entry` | comfyui_whisk.py:153-157 | a captioned entry is its upload record with only `prompt` changed: same id, image, index and category, still selected, not a placeholder, not uploading and not loading; its prompt is the caption requested under that same category |
| `WhiskPayload.MetaValues` | comfyui_whisk.py:150-232 | no `values` only when no image is supplied. Otherwise `pose` is always listed, `location` iff the scene is absent and `style` iff the style is absent. Nothing else is listed, never `characters`, each value is `["undefined"]` |
| `WhiskPayload.MetaValuesRows` | comfyui_whisk.py:169-232 | the seven map literals the source writes out are exactly the rule's maps |
| `WhiskPayload.StoryboardPayload` | comfyui_whisk.py:140-232 | for all 8 combinations: one character entry iff a subject is given, `location` iff a scene, `style` iff a style image, `pose` always null. Each entry is the captioned image with its own role's index. Prompt, session id and image count are copied unchanged |
| `WhiskPayload.CaptionCallsPerImage` | comfyui_whisk.py:153-232 | exactly one caption request per supplied image and none for an absent one, in order subject, scene, style; each carries its role's category, that image's data URI and the session id |
| `WhiskPayload.CaptionImage` | comfyui_whisk.py:154-157 | extract, caption and store the caption give the captioned entry; the request's category equals the entry's |
| `WhiskPayload.GeneratePayload` | comfyui_whisk.py:138-234 | the eight-branch in-place construction yields exactly the policy-table payload and the caption-request sequence above |
| `Wire.ReduceSeed` | comfyui_whisk.py:271 | the seed reduction both nodes use, each with its own modulus: the sent seed lies in [0, modulus) and equals the input when that is already in range; Whisk sends `seed % 2147483647` |
| `Whisk.ReduceSeedOnInputRange` | comfyui_whisk.py:50 | on the declared range 0..2147483647 only 0 and the maximum 2147483647 are sent as 0 |
| `Whisk.StoryboardOutcome` | comfyui_whisk.py:244-262 | a reply carrying `result.data.json` yields that text; a failed call or a reply without `result.data` yields ""; the call raises iff the reply has `data` without `json` |
| `Whisk.WhiskRequest` | comfyui_whisk.py:266-281 | candidatesCount is `num_images`, prompts is `[storyboard prompt]`, not expanded, reduced seed, tool BACKBONE, landscape, IMAGEN_3_1, and the given session id |
| `Whisk.StrictDecodeAll` | comfyui_whisk.py:300-308 | the unguarded loop returns iff every candidate has decodable `encodedImage`, and then yields one image per candidate in order |
| `Whisk.StrictDecodeStops` | comfyui_whisk.py:300-308 | once a candidate raises, the loop raises that exception and later candidates are never looked at |
| `Whisk.StrictDecodeFirstFailure` | comfyui_whisk.py:300-308 | the loop raises the exception of the first candidate that does not decode: KeyError without `encodedImage`, the decoder's error otherwise |
| `Whisk.AssemblyCases` | comfyui_whisk.py:283-321 | a failed call or no `imagePanels` gives `num_images` zeros and prompts `[]`. An empty panel list raises IndexError and a panel without `generatedImages` raises KeyError. No candidates gives the fallback. If every candidate decodes, the batch is each candidate's image in order with the panel's prompt (default "") per image. Otherwise the first failing candidate's exception escapes. A request for at least one image never returns an empty batch |
| `Whisk.AssembleBatch` | comfyui_whisk.py:283-321 | the decode loop with its appends computes exactly `Assembly`, exceptions included |
| `Whisk.GenerateImage` | comfyui_whisk.py:236-328 | caption, storyboard and generation requests all carry the one session id. The generation request is sent unless the storyboard reply raised. Images and prompts come from the assembly. Each of subject/scene/style output is "" when that image is absent and its caption otherwise |
| `WhiskPrompts.ProcessPrompts` | comfyui_whisk.py:345-348 | output k is the k-th prompt when there is one and "" otherwise; prompts beyond four are dropped |
| `ImageFx.ApiAspectRatio` | comfyui_imagefx.py:73-75 | a listed label maps to its table entry and any other label to IMAGE_ASPECT_RATIO_LANDSCAPE; the result is always one of the five constants |
| `ImageFx.AspectRatioTable` | comfyui_imagefx.py:18-24 | each of the five labels maps to its listed constant |
| `ImageFx.OfferedLabelsAreTableKeys` | comfyui_imagefx.py:52-58 | the labels the node offers are exactly the table's keys, so the landscape default serves only labels it does not offer |
| `ImageFx.ReduceSeedOnInputRange` | comfyui_imagefx.py:104 | `seed % 1000000` leaves the seed unchanged exactly when it lies in the declared range 0..999999 |
| `ImageFx.ImageFxRequest` | comfyui_imagefx.py:99-114 | candidatesCount is `num_images`, prompts is `[prompt]`, not expanded, reduced seed, tool IMAGE_FX, the mapped aspect ratio, IMAGEN_3_1, and the given session id |
| `ImageFx.CleanHeaders` | comfyui_imagefx.py:119 | exactly the keys starting with `:` are removed; every other key keeps its value |
| `ImageFx.CleanHeadersIdempotent` | comfyui_imagefx.py:119 | cleaning twice equals cleaning once, and headers without `:` keys pass through unchanged |
| `ImageFx.DecodedAppend` | comfyui_imagefx.py:138-157 | decoding a concatenation of candidate lists concatenates their decoded images, so response order is kept |
| `ImageFx.DecodedSkipsFailure` | comfyui_imagefx.py:138-157 | a candidate that lacks `encodedImage` or fails to decode is skipped and the rest still decode |
| `ImageFx.DecodedFromCandidates` | comfyui_imagefx.py:138-157 | every image is some candidate's decode; there are at most as many images as candidates; if all decode the batch matches them one for one, and if none decode it is empty |
| `ImageFx.FirstSeedIsFirst` | comfyui_imagefx.py:136-142 | the recorded seed is that of the first candidate with `encodedImage` (its `seed`, else the input seed), whether or not that candidate later decodes; it is absent iff no candidate has `encodedImage` |
| `ImageFx.SeedRecordedWhenDecoded` | comfyui_imagefx.py:141-163 | whenever an image was decoded a seed was recorded, so the echoed seed is never None |
| `ImageFx.AssemblyCases` | comfyui_imagefx.py:133-176 | a failed call, no `imagePanels`, an empty panel list, a panel without `generatedImages`, or no candidate decoding give `num_images` zero placeholders with `str` of the unreduced input seed. Otherwise the output is exactly the decoded images in response order with `str` of the seed of the first candidate that has `encodedImage`. A request for at least one image never yields an empty batch |
| `ImageFx.AssembleResult` | comfyui_imagefx.py:133-176 | the guarded decode loop, which records the seed once and appends each success, computes exactly `Assembly` |
| `ImageFx.GenerateImage` | comfyui_imagefx.py:77-176 | the request sent is the body above with the session id, the headers sent are the cleaned headers, and the output is the assembly of the service's reply |

## Left out

- Credential loading (`_initialize_auth`): file reading, encoding detection and JSON parsing. It is I/O; tokens and cookies appear in no modelled decision.
- The static header dictionaries and `_get_headers`: constant data. `ImageFx.CleanHeaders` takes any header map.
- HTTP transport: each POST is an oracle that returns `Success(parsed body)` or `Failure`. `Failure` covers the `RequestException` cases: connection errors, `raise_for_status`, and a body that is not JSON. The last assumes requests 2.27 or later, where the JSON decode error is a `RequestException`; with older versions it escapes the Whisk node's caption, storyboard and generation calls.
- Tensors, `tensor2pil`/`pil2tensor`, JPEG encoding, PIL decoding and base64 (RFC 4648 section 4): images are opaque tokens. A supplied reference image arrives as its base64 JPEG text (`WhiskPayload.Reference`), and decoding is the caller's partial function.
- `torch.cat` of images of unequal sizes: it raises in the source (a fallback in ImageFx, an uncaught error in Whisk). The model assumes decoded images can always be concatenated.
- `uuid.uuid4()` and `time.time()`: the image id suffix and the session id are parameters. The session id is only required to start with `;`.
- Progress-bar updates: advisory output only.
- JSON text: `json.dumps(prompts)` in the Whisk node and `json.loads` in `process_prompts` are not modelled. The prompt list is passed as a sequence of strings, and input that is not a list of strings is out of scope.
- JSON key order: `meta.values` and the header dictionary are maps, so the key order the source writes is not kept.
- Response value types: a JSON `null` value of any response field is read as an absent key, and `seed` is taken to be an integer. So `{"imagePanels": null}` gives the Whisk fallback in the model, while the source raises an uncaught `TypeError` on `None[0]`. A storyboard reply `{"result": {"data": {"json": null}}}` makes `Whisk.StoryboardOutcome` escape with KeyError in the model, while the source reads `None` as the storyboard prompt and sends `prompts: [None]`. An ImageFx candidate with `"encodedImage": null` is skipped by the model without recording its seed, while the source records its seed before the `TypeError` that skips it. A `null` seed, which would leave the ImageFx seed unrecorded for that candidate, is not modelled either.
- `__init__.py`: it only merges the node registration maps for the host.
- Console logging (`print`) on every error path.
- `Whisk.GenerateImage`: the subject/scene/style outputs are not "" exactly when the image is absent. The code also returns "" for a supplied image whose caption call failed, so the contract states "absent gives "" and present gives the caption".
- Whisk batch size: nothing bounds the number of returned images by `num_images`, and the model does not claim such a bound.
