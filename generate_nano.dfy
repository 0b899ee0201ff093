/** The nano-banana adapter: data URLs are taken apart into inline image
    parts for the provider's SDK, the prompt goes first, and the inline
    images of the answer are put back together as data URLs. The SDK call
    is a parameter. */
module GenerateNano {
  import opened Wrappers
  import opened Strings
  import opened Values
  import opened HistoryTypes

  const DEFAULT_MIME: string := "image/png"
  const DEFAULT_NANO_MODEL: string := "gemini-2.5-flash-image-preview"
  const NOT_CONFIGURED: string := "The app is not configured correctly. NANO_API_KEY is missing."
  const METHOD_NOT_ALLOWED: string := "Method Not Allowed"
  const PROMPT_REQUIRED: string := "Prompt is required."
  const GENERATION_FAILED: string := "Image generation failed."
  const NO_INLINE_IMAGE: string := "No inline image data was returned by the model."
  const REQUEST_FAILED: string := "Request failed"
  const UNKNOWN_SIZE: string := "unknown"

  /** A data URL taken apart: its MIME type and its base64 payload. */
  datatype DataUrlInfo = DataUrlInfo(mimeType: string, base64: string)

  /** `url.split(",", 2)`: the text before the first comma (all of it when
      there is none), and the text between the first and the second comma
      (absent when there is no comma). */
  function SplitTwo(url: string): (r: (string, Option<string>))
    ensures ',' !in r.0
    ensures ',' !in url ==> r == (url, None)
    ensures ',' in url ==>
      && r.1.Some? && ',' !in r.1.value
      && |r.0| + 1 + |r.1.value| <= |url|
      && url[..|r.0|] == r.0 && url[|r.0|] == ','
      && url[|r.0| + 1..|r.0| + 1 + |r.1.value|] == r.1.value
      && (|r.0| + 1 + |r.1.value| == |url| || url[|r.0| + 1 + |r.1.value|] == ',')
  {
    var k := IndexOf(url, ',');
    if k == -1 then (url, None)
    else
      var tail := url[k + 1..];
      var j := IndexOf(tail, ',');
      var second := if j == -1 then tail else tail[..j];
      assert url[k + 1..k + 1 + |second|] == second;
      (url[..k], Some(second))
  }

  const BASE64_SUFFIX: string := ";base64"

  /** `/^data:([^;]+);base64$/i` on the header: the captured MIME type, or
      `image/png` when the header does not match. The header already starts
      with the exact `data:`; `;base64` matches in any case. */
  function MimeOfHeader(head: string): (mime: string)
    requires "data:" <= head
    ensures mime == DEFAULT_MIME || Captures(head, mime)
    ensures forall m :: Captures(head, m) ==> mime == m
  {
    if |head| >= 13 && ToLower(head[|head| - 7..]) == BASE64_SUFFIX && ';' !in head[5..|head| - 7] then
      head[5..|head| - 7]
    else DEFAULT_MIME
  }

  /** The header is `data:`, then `mime` (non-empty, without `;`), then
      `;base64` in any case: the regular expression captures `mime`. */
  predicate Captures(head: string, mime: string) {
    && mime != "" && ';' !in mime
    && |head| == 5 + |mime| + 7
    && head[..5] == "data:" && head[5..5 + |mime|] == mime
    && ToLower(head[5 + |mime|..]) == BASE64_SUFFIX
  }

  /** `parseDataUrl`: nothing unless the URL starts with `data:` and has a
      non-empty header and a non-empty payload after its first comma. */
  function ParseDataUrl(url: string): (r: Option<DataUrlInfo>)
    ensures !("data:" <= url) ==> r.None?
    ensures ',' !in url ==> r.None?
    ensures r.Some? <==> "data:" <= url && SplitTwo(url).1.Some? && SplitTwo(url).1.value != ""
    ensures r.Some? ==> r.value.base64 != "" && ',' !in r.value.base64 && SplitTwo(url).1 == Some(r.value.base64)
    ensures r.Some? ==> r.value.mimeType == MimeOfHeader(SplitTwo(url).0)
  {
    if !("data:" <= url) then None
    else
      var parts := SplitTwo(url);
      var head, base64 := parts.0, parts.1;
      if head == "" || base64.None? || base64.value == "" then None
      else
        HeaderKeepsScheme(url, head);
        Some(DataUrlInfo(MimeOfHeader(head), base64.value))
  }

  /** The text before a data URL's first comma still starts with `data:`,
      since `data:` itself has no comma. */
  lemma HeaderKeepsScheme(url: string, head: string)
    requires "data:" <= url && |head| < |url|
    requires url[..|head|] == head && url[|head|] == ','
    ensures "data:" <= head
  {
    assert |head| >= 5;
    assert head[..5] == url[..|head|][..5];
  }

  /** The data URL the response mapping builds. */
  function InlineDataUrl(mime: string, base64: string): string {
    "data:" + mime + BASE64_SUFFIX + "," + base64
  }

  /** A MIME type the round trip keeps: non-empty, no `;` and no `,`. */
  predicate PlainMime(mime: string) {
    mime != "" && ';' !in mime && ',' !in mime
  }

  /** Building a data URL and parsing it again gives back the MIME type and
      the payload, for a plain MIME type and a non-empty comma-free payload. */
  lemma InlineDataUrlRoundTrip(mime: string, base64: string)
    requires PlainMime(mime) && base64 != "" && ',' !in base64
    ensures ParseDataUrl(InlineDataUrl(mime, base64)) == Some(DataUrlInfo(mime, base64))
  {
    var head := "data:" + mime + BASE64_SUFFIX;
    var url := InlineDataUrl(mime, base64);
    assert url == head + [','] + base64;
    assert ',' !in head;
    assert url[..5] == "data:";
    SplitTwoOfPair(head, base64);
    assert SplitTwo(url) == (head, Some(base64));
    assert head[|head| - 7..] == BASE64_SUFFIX;
    assert ToLower(BASE64_SUFFIX) == BASE64_SUFFIX;
    assert head[5..|head| - 7] == mime;
    assert Captures(head, mime);
  }

  /** `split(",", 2)` of `a,b` for comma-free `a` and `b`. */
  lemma SplitTwoOfPair(a: string, b: string)
    requires ',' !in a && ',' !in b
    ensures SplitTwo(a + [','] + b) == (a, Some(b))
  {
    var url := a + [','] + b;
    assert url[|a|] == ',';
    assert url[..|a|] == a;
    assert IndexOf(url, ',') == |a|;
    assert url[|a| + 1..] == b;
  }

  /** The `image` field as a list: a list as it is, a non-empty string as a
      one-element list, anything else as the empty list. */
  function AsList(image: ImageInput): (list: seq<string>)
    ensures image.ImageList? ==> list == image.urls
    ensures image.OneImage? && image.url != "" ==> list == [image.url]
    ensures image.NoImage? || image == OneImage("") ==> list == []
  {
    match image
    case ImageList(urls) => urls
    case OneImage(url) => if url != "" then [url] else []
    case NoImage => []
  }

  /** `map(parseDataUrl).filter(isNotNull)`: the data URLs that parse, in
      their order. */
  function ParsedImages(list: seq<string>): (parts: seq<DataUrlInfo>)
    ensures |parts| <= |list|
    ensures (forall x :: x in list ==> ParseDataUrl(x).Some?) ==> |parts| == |list|
    ensures forall p :: p in parts ==> exists x :: x in list && ParseDataUrl(x) == Some(p)
  {
    if list == [] then []
    else
      var rest := ParsedImages(list[1..]);
      assert forall x :: x in list[1..] ==> x in list;
      match ParseDataUrl(list[0])
      case Some(p) => [p] + rest
      case None => rest
  }

  /** Parsing distributes over concatenation, so the order of the images is
      kept. */
  lemma {:induction false} ParsedImagesConcat(a: seq<string>, b: seq<string>)
    ensures ParsedImages(a + b) == ParsedImages(a) + ParsedImages(b)
  {
    if a != [] {
      var head := match ParseDataUrl(a[0]) case Some(p) => [p] case None => [];
      assert (a + b)[0] == a[0];
      assert (a + b)[1..] == a[1..] + b;
      assert ParsedImages(a + b) == head + ParsedImages(a[1..] + b);
      assert ParsedImages(a) == head + ParsedImages(a[1..]);
      ParsedImagesConcat(a[1..], b);
    } else {
      assert a + b == b;
    }
  }

  /** `imagesToInlineParts`. */
  function ImagesToInlineParts(image: ImageInput): (parts: seq<DataUrlInfo>)
    ensures image.NoImage? || image == OneImage("") ==> parts == []
    ensures image.OneImage? ==> |parts| <= 1
    ensures image.ImageList? ==> parts == ParsedImages(image.urls)
  {
    ParsedImages(AsList(image))
  }

  /** A single string is treated as a one-element list. */
  lemma SingleImageIsList(url: string)
    requires url != ""
    ensures ImagesToInlineParts(OneImage(url)) == ImagesToInlineParts(ImageList([url]))
  {
  }

  /** A URL that is not a data URL contributes nothing. */
  lemma NonDataUrlDropped(urls: seq<string>, x: string)
    requires !("data:" <= x)
    ensures ParsedImages(urls + [x]) == ParsedImages(urls)
  {
    ParsedImagesConcat(urls, [x]);
    assert ParsedImages([x]) == [];
  }

  /** One entry of the SDK's `contents`. */
  datatype NanoContent = TextContent(text: string) | InlineContent(info: DataUrlInfo)

  /** The image parts as SDK contents, in order. */
  function InlineContents(parts: seq<DataUrlInfo>): (contents: seq<NanoContent>)
    ensures |contents| == |parts| && forall i :: 0 <= i < |parts| ==> contents[i] == InlineContent(parts[i])
  {
    seq(|parts|, i requires 0 <= i < |parts| => InlineContent(parts[i]))
  }

  /** `[prompt, ...imageParts]`: the untrimmed prompt first, then the
      image parts in order. */
  function Contents(prompt: string, image: ImageInput): (contents: seq<NanoContent>)
    ensures contents != [] && contents[0] == TextContent(prompt)
    ensures contents[1..] == InlineContents(ImagesToInlineParts(image))
  {
    var rest := InlineContents(ImagesToInlineParts(image));
    assert ([TextContent(prompt)] + rest)[1..] == rest;
    [TextContent(prompt)] + rest
  }

  /** The `inlineData` of a response part: an optional MIME type and a
      `data` field of any JSON type. */
  datatype InlineData = InlineData(mimeType: Option<string>, data: Value)

  /** A response part: an object, with or without `inlineData`, or
      something that is not an object at all. */
  datatype ResponsePart = PartObject(inlineData: Option<InlineData>) | NotAnObject

  /** `hasInlineData`: an object whose `inlineData.data` is a string. */
  predicate HasInlineData(part: ResponsePart) {
    part.PartObject? && part.inlineData.Some? && part.inlineData.value.data.Str?
  }

  /** The image a part with inline data becomes. */
  function PartToImage(part: ResponsePart): GeneratedImage
    requires HasInlineData(part)
  {
    var d := part.inlineData.value;
    GeneratedImage(InlineDataUrl(d.mimeType.GetOr(DEFAULT_MIME), d.data.s), UNKNOWN_SIZE)
  }

  /** `parts.filter(hasInlineData).map(...)`: one image per part with
      inline data, in order. */
  function ResponseImages(parts: seq<ResponsePart>): (images: seq<GeneratedImage>)
    ensures |images| <= |parts|
    ensures images == [] <==> forall p :: p in parts ==> !HasInlineData(p)
    ensures forall img :: img in images ==> exists p :: p in parts && HasInlineData(p) && img == PartToImage(p)
  {
    if parts == [] then []
    else
      var rest := ResponseImages(parts[1..]);
      assert forall p :: p in parts[1..] ==> p in parts;
      assert forall p :: p in parts ==> p == parts[0] || p in parts[1..];
      if HasInlineData(parts[0]) then [PartToImage(parts[0])] + rest else rest
  }

  /** The mapping takes the parts one at a time: the images of two runs of
      parts are those of the first run followed by those of the second. */
  lemma {:induction false} ResponseImagesConcat(a: seq<ResponsePart>, b: seq<ResponsePart>)
    ensures ResponseImages(a + b) == ResponseImages(a) + ResponseImages(b)
  {
    if a != [] {
      assert (a + b)[1..] == a[1..] + b;
      ResponseImagesConcat(a[1..], b);
    } else {
      assert a + b == b;
    }
  }

  /** One part gives one image exactly when it carries inline data, and
      that image is the part's data URL with size `unknown`. */
  lemma ResponseImagesOne(p: ResponsePart)
    ensures HasInlineData(p) ==> ResponseImages([p]) == [PartToImage(p)]
    ensures !HasInlineData(p) ==> ResponseImages([p]) == []
  {
    assert [p][1..] == [];
  }

  /** Every image URL the adapter returns parses back to the part's MIME
      type (or `image/png`) and payload, when both are plain. */
  lemma ResponseImagesParse(parts: seq<ResponsePart>)
    requires forall p :: p in parts && HasInlineData(p) ==>
      PlainMime(p.inlineData.value.mimeType.GetOr(DEFAULT_MIME))
      && p.inlineData.value.data.s != "" && ',' !in p.inlineData.value.data.s
    ensures forall img :: img in ResponseImages(parts) ==> ParseDataUrl(img.url).Some?
  {
    forall img | img in ResponseImages(parts) ensures ParseDataUrl(img.url).Some? {
      var p :| p in parts && HasInlineData(p) && img == PartToImage(p);
      var d := p.inlineData.value;
      InlineDataUrlRoundTrip(d.mimeType.GetOr(DEFAULT_MIME), d.data.s);
    }
  }

  /** What the SDK answers: the parts of the first candidate and the
      block reason of the prompt feedback, or a thrown error's message. */
  datatype NanoResponse = NanoResponse(parts: seq<ResponsePart>, blockReason: Option<string>)

  /** The handler's reply. */
  datatype NanoReply =
    | Failure(status: nat, error: string, detail: Option<string>)
    | Success(model: string, created: int, data: seq<GeneratedImage>)

  /** The handler: a missing key is a 500 before anything else, then 405
      for anything but POST, 400 for a missing or blank prompt; otherwise
      the SDK gets `[prompt, ...images]`, and its inline images come back,
      or a 500 naming the block reason when there are none. */
  function HandleNano(apiKey: Option<string>, modelEnv: Option<string>, httpMethod: string,
                      prompt: Option<string>, image: ImageInput,
                      generate: seq<NanoContent> -> Result<NanoResponse, string>, now: int): (reply: NanoReply)
    ensures (apiKey.None? || apiKey.value == "") ==> reply == Failure(500, NOT_CONFIGURED, None)
    ensures apiKey.Some? && apiKey.value != "" && httpMethod != "POST" ==> reply == Failure(405, METHOD_NOT_ALLOWED, None)
    ensures reply.Success? ==> prompt.Some? && Trim(prompt.value) != "" && reply.data != []
    ensures reply.Success? ==>
      reply.model == "nano-banana (" + (if modelEnv.Some? && modelEnv.value != "" then modelEnv.value else DEFAULT_NANO_MODEL) + ")"
    ensures reply.Success? ==>
      && generate(Contents(prompt.value, image)).Ok?
      && reply.data == ResponseImages(generate(Contents(prompt.value, image)).value.parts)
    ensures apiKey.Some? && apiKey.value != "" && httpMethod == "POST" && prompt.Some? && !IsBlank(prompt.value) ==>
      match generate(Contents(prompt.value, image))
      case Err(message) => reply == Failure(500, REQUEST_FAILED, Some(message))
      case Ok(response) =>
        ResponseImages(response.parts) != [] ==>
          reply.Success? && reply.data == ResponseImages(response.parts) && reply.created == now
    ensures apiKey.Some? && apiKey.value != "" && httpMethod == "POST" && (prompt.None? || IsBlank(prompt.value)) ==>
      reply == Failure(400, PROMPT_REQUIRED, None)
    ensures reply.Failure? && reply.status == 400 ==> reply.error == PROMPT_REQUIRED && (prompt.None? || IsBlank(prompt.value))
  {
    if apiKey.None? || apiKey.value == "" then Failure(500, NOT_CONFIGURED, None)
    else if httpMethod != "POST" then Failure(405, METHOD_NOT_ALLOWED, None)
    else if prompt.None? || Trim(prompt.value) == "" then Failure(400, PROMPT_REQUIRED, None)
    else
      match generate(Contents(prompt.value, image))
      case Err(message) => Failure(500, REQUEST_FAILED, Some(message))
      case Ok(response) =>
        var images := ResponseImages(response.parts);
        if images == [] then
          Failure(500, GENERATION_FAILED, Some(response.blockReason.GetOr(NO_INLINE_IMAGE)))
        else
          var modelName := if modelEnv.Some? && modelEnv.value != "" then modelEnv.value else DEFAULT_NANO_MODEL;
          Success("nano-banana (" + modelName + ")", now, images)
  }

  /** A blank prompt is refused before the SDK is called. */
  lemma BlankPromptRefused(apiKey: string, modelEnv: Option<string>, prompt: string, image: ImageInput,
                           generate: seq<NanoContent> -> Result<NanoResponse, string>, now: int)
    requires apiKey != "" && IsBlank(prompt)
    ensures HandleNano(Some(apiKey), modelEnv, "POST", Some(prompt), image, generate, now) == Failure(400, PROMPT_REQUIRED, None)
  {
  }

  /** An answer without inline images is a 500 whose detail is the block
      reason, or the default message. */
  lemma NoImagesIsFailure(apiKey: string, modelEnv: Option<string>, prompt: string, image: ImageInput,
                          generate: seq<NanoContent> -> Result<NanoResponse, string>, now: int)
    requires apiKey != "" && !IsBlank(prompt)
    requires generate(Contents(prompt, image)).Ok?
    requires forall p :: p in generate(Contents(prompt, image)).value.parts ==> !HasInlineData(p)
    ensures HandleNano(Some(apiKey), modelEnv, "POST", Some(prompt), image, generate, now)
         == Failure(500, GENERATION_FAILED, Some(generate(Contents(prompt, image)).value.blockReason.GetOr(NO_INLINE_IMAGE)))
  {
  }
}
