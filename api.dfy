/** The client side of the Seedream call: data-URL normalisation, the
    merge of `image` and `references` into one `image` list, the request
    body and the endpoint, and the reading of an error response. */
module Api {
  import opened Wrappers
  import opened Strings
  import opened Seqs
  import opened Values
  import opened HistoryTypes

  const DEFAULT_MODEL: string := "seedream-4-0-250828"
  const DEFAULT_RESPONSE_FORMAT: string := "url"
  const DATA_IMAGE_PREFIX: string := "data:image/"
  const MAX_IMAGES: nat := 10
  const GENERATIONS_PATH: string := "/api/v3/images/generations"
  const NOT_CONFIGURED: string := "Ark API is not configured."

  /** `normalizeDataUrl`: a URL that starts with the exact (case-sensitive)
      `data:image/` and holds a comma gets the header before its first comma
      lower-cased; everything from that comma on is kept as it was. Any
      other URL comes back unchanged. */
  function NormalizeDataUrl(url: string): (r: string)
    ensures |r| == |url|
    ensures !(DATA_IMAGE_PREFIX <= url) || ',' !in url ==> r == url
    ensures DATA_IMAGE_PREFIX <= url && ',' in url ==>
      var k := IndexOf(url, ',');
      && r[k..] == url[k..]
      && forall i :: 0 <= i < k ==> r[i] == ToLowerChar(url[i])
  {
    if !(DATA_IMAGE_PREFIX <= url) then url
    else
      var k := IndexOf(url, ',');
      if k < 0 then url else ToLower(url[..k]) + url[k..]
  }

  lemma ToLowerCharIdempotent(c: char)
    ensures ToLowerChar(ToLowerChar(c)) == ToLowerChar(c)
  {
  }

  /** Lower-casing the header of a data URL keeps its `data:image/` start. */
  lemma NormalizedKeepsPrefix(url: string)
    requires DATA_IMAGE_PREFIX <= url && ',' in url
    ensures DATA_IMAGE_PREFIX <= NormalizeDataUrl(url)
  {
    var r := NormalizeDataUrl(url);
    var k := IndexOf(url, ',');
    assert k >= |DATA_IMAGE_PREFIX| by {
      assert forall i :: 0 <= i < |DATA_IMAGE_PREFIX| ==> url[i] == DATA_IMAGE_PREFIX[i];
    }
    forall i | 0 <= i < |DATA_IMAGE_PREFIX|
      ensures r[i] == DATA_IMAGE_PREFIX[i]
    {
      assert url[i] == DATA_IMAGE_PREFIX[i];
    }
    assert r[..|DATA_IMAGE_PREFIX|] == DATA_IMAGE_PREFIX;
  }

  /** Lower-casing the header of a data URL keeps its first comma where it was. */
  lemma NormalizedKeepsComma(url: string)
    requires DATA_IMAGE_PREFIX <= url && ',' in url
    ensures IndexOf(NormalizeDataUrl(url), ',') == IndexOf(url, ',')
  {
    var r := NormalizeDataUrl(url);
    var k := IndexOf(url, ',');
    assert r[k] == ',';
    forall i | 0 <= i < k
      ensures r[i] != ','
    {
      assert url[i] != ',' by { assert url[..k][i] == url[i]; }
    }
    assert ',' !in r[..k];
    IndexOfFirst(r, ',', k);
  }

  /** Normalising twice is normalising once: the lower-cased header still
      starts with `data:image/` and its first comma has not moved. */
  lemma NormalizeIdempotent(url: string)
    ensures NormalizeDataUrl(NormalizeDataUrl(url)) == NormalizeDataUrl(url)
  {
    var r := NormalizeDataUrl(url);
    if DATA_IMAGE_PREFIX <= url && ',' in url {
      var k := IndexOf(url, ',');
      NormalizedKeepsPrefix(url);
      NormalizedKeepsComma(url);
      var rr := NormalizeDataUrl(r);
      forall i | 0 <= i < |r| ensures rr[i] == r[i] {
        if i < k {
          ToLowerCharIdempotent(url[i]);
        } else {
          assert rr[k..][i - k] == r[k..][i - k];
        }
      }
    }
  }

  /** A position holding `c` with no `c` before it is what `IndexOf` finds. */
  lemma IndexOfFirst(s: string, c: char, k: nat)
    requires k < |s| && s[k] == c && c !in s[..k]
    ensures IndexOf(s, c) == k
  {
  }

  /** The truthy (non-empty) strings of a list. */
  function NonEmpty(xs: seq<string>): (r: seq<string>)
    ensures forall x :: x in r <==> x in xs && x != ""
  {
    Filter(xs, (x: string) => x != "")
  }

  /** `map(normalizeDataUrl)`. */
  function NormalizeAll(xs: seq<string>): (r: seq<string>)
    ensures |r| == |xs| && forall i :: 0 <= i < |xs| ==> r[i] == NormalizeDataUrl(xs[i])
  {
    seq(|xs|, i requires 0 <= i < |xs| => NormalizeDataUrl(xs[i]))
  }

  /** `references` after `filter(Boolean).map(normalizeDataUrl)`, with an
      absent list read as empty. */
  function NormalizedRefs(references: Option<seq<string>>): seq<string> {
    NormalizeAll(NonEmpty(references.GetOr([])))
  }

  /** `buildImageField`. A list `image` wins and `references` is ignored; a
      non-empty single `image` leads its references; otherwise the
      references alone, and nothing when none are left. */
  function BuildImageField(image: ImageInput, references: Option<seq<string>>): (r: Option<seq<string>>)
    ensures r.Some? ==> |r.value| <= MAX_IMAGES
    ensures r.None? <==> !image.ImageList? && !(image.OneImage? && image.url != "") && NormalizedRefs(references) == []
  {
    if image.NoImage? && (references.None? || |references.value| == 0) then None
    else if image.ImageList? then
      Some(Take(NormalizeAll(NonEmpty(image.urls)), MAX_IMAGES))
    else
      var refs := NormalizedRefs(references);
      if image.OneImage? && image.url != "" then
        Some(Take([NormalizeDataUrl(image.url)] + refs, MAX_IMAGES))
      else if |refs| > 0 then Some(Take(refs, MAX_IMAGES))
      else None
  }

  /** A list `image`: its truthy entries, normalised, in order, the first
      ten; `references` plays no role. */
  lemma ImageListField(urls: seq<string>, references: Option<seq<string>>)
    ensures var r := BuildImageField(ImageList(urls), references);
      var kept := NormalizeAll(NonEmpty(urls));
      && r.Some? && |r.value| == MinNat(|kept|, MAX_IMAGES)
      && forall i :: 0 <= i < |r.value| ==> r.value[i] == kept[i]
  {
  }

  /** A non-empty single `image`: it comes first, normalised, followed by
      the truthy references, normalised, in order; ten at most. */
  lemma SingleImageField(url: string, references: Option<seq<string>>)
    requires url != ""
    ensures var r := BuildImageField(OneImage(url), references);
      var refs := NormalizedRefs(references);
      && r.Some? && |r.value| == MinNat(1 + |refs|, MAX_IMAGES)
      && r.value[0] == NormalizeDataUrl(url)
      && forall i :: 1 <= i < |r.value| ==> r.value[i] == refs[i - 1]
  {
    var refs := NormalizedRefs(references);
    var l := [NormalizeDataUrl(url)] + refs;
    var t := Take(l, MAX_IMAGES);
    assert BuildImageField(OneImage(url), references) == Some(t);
    assert t == l[..|t|] && |t| == MinNat(|l|, MAX_IMAGES);
    forall i | 1 <= i < |t| ensures t[i] == refs[i - 1] {
      assert t[i] == l[i] == refs[i - 1];
    }
  }

  /** No usable `image` (absent or the empty string): the truthy references,
      normalised and capped, or nothing when none are left. */
  lemma ReferencesOnlyField(image: ImageInput, references: Option<seq<string>>)
    requires image.NoImage? || image == OneImage("")
    ensures var r := BuildImageField(image, references);
      var refs := NormalizedRefs(references);
      && (r.None? <==> refs == [])
      && (r.Some? ==> |r.value| == MinNat(|refs|, MAX_IMAGES)
                      && forall i :: 0 <= i < |r.value| ==> r.value[i] == refs[i])
  {
  }

  function MinNat(a: nat, b: nat): nat { if a <= b then a else b }

  /** What a normalised non-empty URL looks like: non-empty and left as it
      is by a second normalisation. */
  predicate Prepared(x: string) {
    x != "" && NormalizeDataUrl(x) == x
  }

  lemma NormalizeAllPrepared(xs: seq<string>)
    requires forall x :: x in xs ==> x != ""
    ensures forall y :: y in NormalizeAll(xs) ==> Prepared(y)
  {
    forall y | y in NormalizeAll(xs) ensures Prepared(y) {
      var i :| 0 <= i < |xs| && NormalizeAll(xs)[i] == y;
      assert xs[i] in xs;
      NormalizeIdempotent(xs[i]);
    }
  }

  /** Every entry of the `image` field is a non-empty, already normalised
      URL, and there are never more than ten. */
  lemma ImageFieldPrepared(image: ImageInput, references: Option<seq<string>>)
    ensures var r := BuildImageField(image, references);
      r.Some? ==> |r.value| <= MAX_IMAGES && forall x :: x in r.value ==> Prepared(x)
  {
    var r := BuildImageField(image, references);
    if r.Some? {
      NormalizeAllPrepared(NonEmpty(references.GetOr([])));
      if image.ImageList? {
        NormalizeAllPrepared(NonEmpty(image.urls));
        assert forall x :: x in r.value ==> x in NormalizeAll(NonEmpty(image.urls));
      } else if image.OneImage? && image.url != "" {
        NormalizeIdempotent(image.url);
        assert forall x :: x in r.value ==> x == NormalizeDataUrl(image.url) || x in NormalizedRefs(references) by {
          forall x | x in r.value
            ensures x == NormalizeDataUrl(image.url) || x in NormalizedRefs(references)
          {
            var i :| 0 <= i < |r.value| && r.value[i] == x;
            if i > 0 {
              assert NormalizedRefs(references)[i - 1] == x;
            }
          }
        }
      } else {
        assert forall x :: x in r.value ==> x in NormalizedRefs(references);
      }
    }
  }

  /** With no `image` and no references there is no `image` field. */
  lemma NoImageNoField(references: Option<seq<string>>)
    requires references.None? || references.value == []
    ensures BuildImageField(NoImage, references).None?
  {
  }

  /** A request as the panels hand it over. An absent optional field is
      `undefined`; `image` is only set for image-to-image. */
  datatype SeedreamRequest = SeedreamRequest(
    model: Option<string>,
    prompt: string,
    responseFormat: Option<string>,
    stream: Option<bool>,
    watermark: Option<bool>,
    sequentialImageGeneration: Option<string>,
    sequentialImageGenerationOptions: Option<Value>,
    seed: Option<int>,
    steps: Option<int>,
    guidanceScale: Option<int>,
    aspectRatio: Option<AspectRatio>,
    size: Option<string>,
    width: Option<int>,
    height: Option<int>,
    image: ImageInput,
    references: Option<seq<string>>)

  /** A number field that is present and not 0. */
  predicate TruthyNum(x: Option<int>) {
    x.Some? && x.value != 0
  }

  /** A string field that is present and not empty. */
  predicate TruthyStr(x: Option<string>) {
    x.Some? && x.value != ""
  }

  /** The JSON body sent to the provider. A `None` field is a key that
      serialisation leaves out because its value is `undefined`. The body
      has no seed and no guidance-scale key at all: they are never sent. */
  datatype RequestBody = RequestBody(
    model: string,
    prompt: string,
    responseFormat: string,
    aspectRatio: Option<AspectRatio>,
    stream: bool,
    watermark: bool,
    sequentialImageGeneration: string,
    sequentialImageGenerationOptions: Option<Value>,
    steps: Option<int>,
    width: Option<int>,
    height: Option<int>,
    size: Option<string>,
    image: Option<seq<string>>)

  /** The body `requestSeedreamImages` sends. The literal fills in the
      defaults (the model, `url`, no streaming, a watermark, `disabled`);
      then width and height go in together when both are truthy, or else a
      truthy size, never both; then the `image` field when there is one. */
  method BuildRequestBody(p: SeedreamRequest) returns (body: RequestBody)
    ensures body.model == p.model.GetOr(DEFAULT_MODEL) && body.prompt == p.prompt
    ensures body.responseFormat == p.responseFormat.GetOr(DEFAULT_RESPONSE_FORMAT)
    ensures body.stream == p.stream.GetOr(false) && body.watermark == p.watermark.GetOr(true)
    ensures body.sequentialImageGeneration == p.sequentialImageGeneration.GetOr("disabled")
    ensures body.aspectRatio == p.aspectRatio && body.steps == p.steps
    ensures body.sequentialImageGenerationOptions == p.sequentialImageGenerationOptions
    ensures body.width.Some? <==> TruthyNum(p.width) && TruthyNum(p.height)
    ensures body.height.Some? <==> body.width.Some?
    ensures body.width.Some? ==> body.width == p.width && body.height == p.height
    ensures body.size.Some? <==> body.width.None? && TruthyStr(p.size)
    ensures body.size.Some? ==> body.size == p.size
    ensures body.image == BuildImageField(p.image, p.references)
  {
    body := RequestBody(
      p.model.GetOr(DEFAULT_MODEL),
      p.prompt,
      p.responseFormat.GetOr(DEFAULT_RESPONSE_FORMAT),
      p.aspectRatio,
      p.stream.GetOr(false),
      p.watermark.GetOr(true),
      p.sequentialImageGeneration.GetOr("disabled"),
      p.sequentialImageGenerationOptions,
      p.steps,
      None, None, None, None);
    if TruthyNum(p.width) && TruthyNum(p.height) {
      body := body.(width := p.width, height := p.height);
    } else if TruthyStr(p.size) {
      body := body.(size := p.size);
    }
    var imageField := BuildImageField(p.image, p.references);
    if imageField.Some? {
      body := body.(image := imageField);
    }
  }

  /** `base.replace(/\/+$/, '')`: every trailing slash removed. */
  function StripTrailingSlashes(base: string): (r: string)
    ensures |r| <= |base| && r == base[..|r|]
    ensures forall i :: |r| <= i < |base| ==> base[i] == '/'
    ensures r == [] || r[|r| - 1] != '/'
  {
    if |base| > 0 && base[|base| - 1] == '/' then StripTrailingSlashes(base[..|base| - 1]) else base
  }

  /** The generations endpoint under a base URL. */
  function Endpoint(base: string): string {
    StripTrailingSlashes(base) + GENERATIONS_PATH
  }

  /** However many slashes end the base, the endpoint has exactly one
      before `api`. */
  lemma {:induction false} EndpointIgnoresTrailingSlashes(base: string, n: nat)
    requires base == [] || base[|base| - 1] != '/'
    ensures Endpoint(base + seq(n, _ => '/')) == Endpoint(base)
  {
    if n > 0 {
      var s := base + seq(n, _ => '/');
      assert s[..|s| - 1] == base + seq(n - 1, _ => '/');
      EndpointIgnoresTrailingSlashes(base, n - 1);
    } else {
      assert base + seq(0, _ => '/') == base;
    }
  }

  /** Everything `requestSeedreamImages` puts on the wire. */
  datatype HttpRequest = HttpRequest(url: string, authorization: string, body: RequestBody)

  /** The request `requestSeedreamImages` sends, or its configuration error
      when the base URL or the key is missing or empty. */
  method PlanSeedreamRequest(arkBase: Option<string>, arkApiKey: Option<string>, p: SeedreamRequest)
    returns (r: Result<HttpRequest, string>)
    ensures r.Err? <==> !TruthyStr(arkBase) || !TruthyStr(arkApiKey)
    ensures r.Err? ==> r.error == NOT_CONFIGURED
    ensures r.Ok? ==> r.value.url == Endpoint(arkBase.value)
    ensures r.Ok? ==> r.value.authorization == "Bearer " + arkApiKey.value
    ensures r.Ok? ==> !(r.value.body.size.Some? && r.value.body.width.Some?)
    ensures r.Ok? ==> r.value.body.image == BuildImageField(p.image, p.references)
    ensures r.Ok? ==> r.value.body.model == p.model.GetOr(DEFAULT_MODEL) && r.value.body.prompt == p.prompt
    ensures r.Ok? ==> r.value.body.responseFormat == p.responseFormat.GetOr(DEFAULT_RESPONSE_FORMAT)
    ensures r.Ok? ==> r.value.body.stream == p.stream.GetOr(false) && r.value.body.watermark == p.watermark.GetOr(true)
    ensures r.Ok? ==> r.value.body.sequentialImageGeneration == p.sequentialImageGeneration.GetOr("disabled")
    ensures r.Ok? ==> r.value.body.aspectRatio == p.aspectRatio && r.value.body.steps == p.steps
    ensures r.Ok? ==> (r.value.body.width.Some? <==> TruthyNum(p.width) && TruthyNum(p.height))
    ensures r.Ok? ==> (r.value.body.size.Some? <==> r.value.body.width.None? && TruthyStr(p.size))
    ensures r.Ok? && r.value.body.width.Some? ==> r.value.body.width == p.width && r.value.body.height == p.height
    ensures r.Ok? && r.value.body.size.Some? ==> r.value.body.size == p.size
    ensures r.Ok? ==> r.value.body.sequentialImageGenerationOptions == p.sequentialImageGenerationOptions
  {
    if !TruthyStr(arkBase) || !TruthyStr(arkApiKey) {
      return Err(NOT_CONFIGURED);
    }
    var body := BuildRequestBody(p);
    r := Ok(HttpRequest(Endpoint(arkBase.value), "Bearer " + arkApiKey.value, body));
  }

  /** The JSON of an error response, as far as `extractErrorMessage` looks:
      it failed to parse, or it has an `error` that is a string, an object
      with an optional `message`, or neither; `serialized` is what
      `JSON.stringify` gives for it. */
  datatype ErrorJson =
    | Unparseable
    | ErrorString(error: string)
    | ErrorObject(message: Option<string>, serialized: string)
    | NoError(serialized: string)

  /** `extractErrorMessage`: the `error` string, else a truthy
      `error.message`, else the JSON text, and when the body is not JSON at
      all the status code and its text. */
  function ExtractErrorMessage(status: nat, statusText: string, json: ErrorJson): (m: string)
    ensures json.Unparseable? ==> m == NatToString(status) + " " + statusText
    ensures json.ErrorString? ==> m == json.error
    ensures json.ErrorObject? && TruthyStr(json.message) ==> m == json.message.value
    ensures json.ErrorObject? && !TruthyStr(json.message) ==> m == json.serialized
    ensures json.NoError? ==> m == json.serialized
  {
    match json
    case Unparseable => NatToString(status) + " " + statusText
    case ErrorString(e) => e
    case ErrorObject(message, serialized) => if TruthyStr(message) then message.value else serialized
    case NoError(serialized) => serialized
  }

  /** The fallback message names the status code, which can be read back. */
  lemma FallbackNamesStatus(status: nat, statusText: string)
    ensures var m := ExtractErrorMessage(status, statusText, Unparseable);
      var k := |NatToString(status)|;
      && k < |m| && IsDigits(m[..k]) && ParseDecimal(m[..k]) == status && m[k] == ' '
  {
    var m := ExtractErrorMessage(status, statusText, Unparseable);
    assert m[..|NatToString(status)|] == NatToString(status);
    ParseNatToString(status);
  }

  /** An HTTP response: its status, status text and error JSON. */
  datatype HttpResponse = HttpResponse(status: nat, statusText: string, errorJson: ErrorJson)

  predicate IsOk(status: int) {
    200 <= status <= 299
  }

  /** After the fetch: a non-OK response becomes an error carrying the
      extracted message; an OK one is handed on. */
  function SeedreamResult(response: HttpResponse): (r: Result<nat, string>)
    ensures r.Ok? <==> IsOk(response.status)
    ensures r.Ok? ==> r.value == response.status
    ensures r.Err? ==> r.error == ExtractErrorMessage(response.status, response.statusText, response.errorJson)
  {
    if IsOk(response.status) then Ok(response.status)
    else Err(ExtractErrorMessage(response.status, response.statusText, response.errorJson))
  }
}
