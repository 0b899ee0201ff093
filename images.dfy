/** Upload checks for source and reference images: MIME type, byte size and
    aspect ratio, in that order, and the asset record built from a file that
    passes them. Reading the file and decoding its pixel size are browser
    work, so the file arrives with its data URL and dimensions already known. */
module Images {
  import opened Wrappers

  const SUPPORTED_FORMATS: seq<string> := ["image/jpeg", "image/png"]
  const MAX_FILE_SIZE: nat := 4 * 1024 * 1024

  const FORMAT_MESSAGE := "Only JPEG and PNG files are supported."
  const SIZE_MESSAGE := "Images must be smaller than 4MB."
  const RATIO_MESSAGE := "Image aspect ratio must stay within 1:3 and 3:1."

  datatype ValidationCode = FormatError | SizeError | RatioError | CountError

  datatype ValidationError = ValidationError(code: ValidationCode, message: string)

  /** A chosen file: its name, declared MIME type and byte size, plus what
      reading it yields (the data URL and the decoded width and height). */
  datatype ImageFile = ImageFile(
    name: string, mimeType: string, size: nat,
    dataUrl: string, width: nat, height: nat)

  datatype ImageAsset = ImageAsset(
    id: string, file: ImageFile, dataUrl: string, name: string,
    size: nat, width: nat, height: nat)

  /** `width / height < 1/3 || width / height > 3` read with JavaScript
      numbers: `w / 0` is Infinity for `w > 0` (too wide) and NaN for
      `w == 0`, which fails both comparisons. */
  predicate JsRatioOutOfRange(width: nat, height: nat) {
    if height == 0 then width > 0
    else (width as real) / (height as real) < 1.0 / 3.0 || (width as real) / (height as real) > 3.0
  }

  /** Scaling by a positive number keeps the order of two reals. */
  lemma ScaleKeepsOrder(x: real, y: real, h: real)
    requires h > 0.0
    ensures x < y <==> x * h < y * h
  {
    if x < y {
      assert (y - x) * h > 0.0;
    } else {
      assert (x - y) * h >= 0.0;
    }
  }

  /** Comparing a quotient with 1/3 or 3 is comparing cross products. */
  lemma QuotientBounds(w: real, h: real)
    requires h > 0.0
    ensures w / h < 1.0 / 3.0 <==> 3.0 * w < h
    ensures w / h > 3.0 <==> w > 3.0 * h
  {
    var q := w / h;
    assert q * h == w;
    ScaleKeepsOrder(q, 1.0 / 3.0, h);
    ScaleKeepsOrder(3.0, q, h);
  }

  /** The division-free test the model uses agrees with the JavaScript one. */
  lemma RatioCrossMultiplied(width: nat, height: nat)
    ensures JsRatioOutOfRange(width, height) <==> 3 * width < height || width > 3 * height
  {
    if height > 0 {
      QuotientBounds(width as real, height as real);
      assert (3 * width) as real == 3.0 * (width as real);
      assert (3 * height) as real == 3.0 * (height as real);
    }
  }

  /** The ratio test without division: a side more than three times the
      other. */
  predicate RatioOutOfRange(width: nat, height: nat) {
    3 * width < height || width > 3 * height
  }

  /** `validateImageFile`: the first failing check in the order format, size,
      ratio, or nothing when all pass. */
  function ValidateImageFile(f: ImageFile): (r: Option<ValidationError>)
    ensures r == None <==>
      f.mimeType in SUPPORTED_FORMATS && f.size <= MAX_FILE_SIZE && !RatioOutOfRange(f.width, f.height)
    ensures f.mimeType !in SUPPORTED_FORMATS ==> r == Some(ValidationError(FormatError, FORMAT_MESSAGE))
    ensures f.mimeType in SUPPORTED_FORMATS && f.size > MAX_FILE_SIZE ==>
      r == Some(ValidationError(SizeError, SIZE_MESSAGE))
    ensures f.mimeType in SUPPORTED_FORMATS && f.size <= MAX_FILE_SIZE && RatioOutOfRange(f.width, f.height) ==>
      r == Some(ValidationError(RatioError, RATIO_MESSAGE))
  {
    if f.mimeType !in SUPPORTED_FORMATS then Some(ValidationError(FormatError, FORMAT_MESSAGE))
    else if f.size > MAX_FILE_SIZE then Some(ValidationError(SizeError, SIZE_MESSAGE))
    else if RatioOutOfRange(f.width, f.height) then Some(ValidationError(RatioError, RATIO_MESSAGE))
    else None
  }

  /** Read with JavaScript's division, as the source writes it: a file passes
      exactly when its type is supported, it is at most 4 MiB and its ratio
      lies within 1:3 and 3:1; the ratio error comes only after the other
      two checks pass. */
  lemma ValidateAgreesWithJs(f: ImageFile)
    ensures ValidateImageFile(f) == None <==>
      f.mimeType in SUPPORTED_FORMATS && f.size <= MAX_FILE_SIZE && !JsRatioOutOfRange(f.width, f.height)
    ensures f.mimeType in SUPPORTED_FORMATS && f.size <= MAX_FILE_SIZE && JsRatioOutOfRange(f.width, f.height) ==>
      ValidateImageFile(f) == Some(ValidationError(RatioError, RATIO_MESSAGE))
  {
    RatioCrossMultiplied(f.width, f.height);
  }

  /** The limits themselves pass: exactly 4 MiB, and the ratios 1:3 and 3:1. */
  lemma BoundariesAccepted(f: ImageFile)
    requires f.mimeType in SUPPORTED_FORMATS && f.size == MAX_FILE_SIZE
    requires f.width > 0 && (f.height == 3 * f.width || 3 * f.height == f.width)
    ensures !JsRatioOutOfRange(f.width, f.height)
    ensures ValidateImageFile(f) == None
  {
    RatioCrossMultiplied(f.width, f.height);
  }

  /** One byte over the limit, or one pixel past either ratio bound, fails. */
  lemma JustPastBoundariesRejected(f: ImageFile)
    requires f.mimeType in SUPPORTED_FORMATS && f.width > 0
    ensures f.size == MAX_FILE_SIZE + 1 ==> ValidateImageFile(f).value.code == SizeError
    ensures f.size <= MAX_FILE_SIZE && f.height == 3 * f.width + 1 ==>
      ValidateImageFile(f).value.code == RatioError
    ensures f.size <= MAX_FILE_SIZE && f.width == 3 * f.height + 1 ==>
      ValidateImageFile(f).value.code == RatioError
    ensures f.height == 3 * f.width + 1 || f.width == 3 * f.height + 1 ==> JsRatioOutOfRange(f.width, f.height)
  {
    RatioCrossMultiplied(f.width, f.height);
  }

  /** `prepareImageAsset`: the validation error is thrown as it is; a valid
      file becomes an asset that copies its name, size, data URL and
      dimensions under the given fresh id. */
  function PrepareImageAsset(f: ImageFile, id: string): (r: Result<ImageAsset, ValidationError>)
    ensures r.Err? <==> ValidateImageFile(f).Some?
    ensures r.Err? ==> r.error == ValidateImageFile(f).value && r.error.code != CountError
    ensures r.Ok? ==> r.value.id == id && r.value.file == f && r.value.name == f.name && r.value.size == f.size
    ensures r.Ok? ==> r.value.dataUrl == f.dataUrl && r.value.width == f.width && r.value.height == f.height
    ensures r.Ok? ==> r.value.size <= MAX_FILE_SIZE && r.value.file.mimeType in SUPPORTED_FORMATS
  {
    match ValidateImageFile(f)
    case Some(e) => Err(e)
    case None => Ok(ImageAsset(id, f, f.dataUrl, f.name, f.size, f.width, f.height))
  }
}
