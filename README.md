# Seedream-4.0 image studio — a Dafny model of its request and state logic

The app is a browser front end for two image models (Seedream through the
Ark API, and the Gemini-backed `nano-banana`), with two small serverless
proxies and a password gate. This project models the logic of that app that
can be stated precisely, one Dafny module per source file:

- `ImageSizing` — the dimension solver: aspect-ratio parsing, snapping a
  length to the 8-pixel grid within 256..1024, and the long/short side
  computation for the two resolution presets.
- `Api` and `FetchRetry` — the client's request shaping (data-URL
  normalisation, the merged `image` list capped at ten, the request body and
  endpoint, error-message extraction) and the retry loop with exponential
  backoff, written as a `while` loop proved against a recursive reference run.
- `GenerateImage` — the Seedream proxy: size-string normalisation, the Ark
  body rewrite, model routing and `Bearer` stripping.
- `GenerateNano` — the nano-banana proxy: data-URL parsing, inline image
  parts, the request contents and the mapping of the answer back to data URLs.
- `HistoryStore` — the persisted history as a class whose `items` each
  action replaces: upsert at the head with a cap of 100, remove, clear.
- `Images`, `ModelPrompts`, `ThemeColor`, `Login` — upload validation and
  asset construction, aspect-ratio injection into the Gemini prompt, hex
  colour to `"r g b"` channels and the theme tokens, and the login status code.
- `AppStore` — the app-wide UI state as a class with its setters, and the
  theme written to a storage map.
- `ImageToImagePanel` and `TextToImagePanel` — the two editors as classes
  whose fields are the React state, with reference reordering (an in-place
  splice on an array), the reference-upload loop, prompt validation, payload
  and history-entry construction, history restore and the single-flight
  abort of the previous request; `Generation` holds what the two share.
- `HistoryTypes`, `Values`, `Wrappers`, `Strings`, `Seqs` — the shared
  vocabulary, JSON-like values with JavaScript truthiness, and the string and
  array built-ins the code relies on.

Every awaited request is split into the part that runs before the `await`
and the part that runs when it settles; the settled outcome, fresh ids,
clock readings, storage and network answers are parameters.

## Model

| member | source | states |
|---|---|---|
| Login.LoginStatus | api/login.ts:3-16 | 405 for any method but POST; 500 when the configured password is blank after trimming; 400 when the body has no string `password`; 200 exactly for a POST whose password equals the trimmed configured one, and 401 for any other string password; nothing else is answered |
| Login.PaddedPasswordRejected | api/login.ts:6-15 | a submitted password with white space at either end is never accepted, since it is compared with a trimmed value |
| Login.ConfiguredPasswordTrimmed | api/login.ts:6 | white space around the configured password does not change which password is accepted |
| Login.LeadingSpaceRefused | api/login.ts:12-15 | the submitted password is compared untrimmed: `" pw"` is refused (401) when `pw` is configured |
| ModelPrompts.WithRatio | src/lib/modelPrompts.ts:27-32 | the appended form starts with the trimmed prompt, contains the ratio, and ends with the Korean word (Hangul prompt) or the ratio itself |
| ModelPrompts.InjectAspectRatio | src/lib/modelPrompts.ts:4-33 | other models get the prompt untouched; a blank prompt is returned as it is; otherwise the result starts with the trimmed prompt, is exactly that prompt when the ratio is blank or already named, and always names the trimmed ratio; for a non-blank prompt and ratio not yet named it is exactly the trimmed prompt followed by `, W:H` and the Korean word for ratio when the trimmed prompt has Hangul, and by ` with an aspect ratio of W:H` otherwise |
| ModelPrompts.WithRatioIsFixed | src/lib/modelPrompts.ts:27-32 | the appended form is non-blank and has no white space to trim at either end |
| ModelPrompts.InjectIdempotent | src/lib/modelPrompts.ts:4-33 | injecting into an injected prompt changes nothing |
| ModelPrompts.SelectableRatioMentioned | src/lib/modelPrompts.ts:18-32 | for a non-blank prompt every selectable ratio ends up named in the Gemini prompt |
| ModelPrompts.SelectableRatioTrimmed | src/types/history.ts:27-37 | every selectable ratio literal is non-blank and unchanged by trimming |
| ModelPrompts.EnglishForm | src/lib/modelPrompts.ts:32 | any non-blank prompt whose trimmed text has no Hangul and does not name the trimmed, non-blank ratio becomes `trimmed prompt with an aspect ratio of W:H` |
| ModelPrompts.KoreanForm | src/lib/modelPrompts.ts:27-30 | any non-blank prompt whose trimmed text has Hangul and does not name the trimmed, non-blank ratio becomes `trimmed prompt, W:H` followed by the Korean word for ratio |
| ModelPrompts.KoreanExample | src/lib/modelPrompts.ts:27-30 | a concrete Korean prompt gets `, 1:1` and the Korean word appended |
| HistoryStore.WithoutId | src/features/history/historyStore.ts:20-25 | the filter keeps exactly the entries with another id, in their order (a subsequence) |
| HistoryStore.Upserted | src/features/history/historyStore.ts:19-23 | the result has between 1 and 100 entries, starts with the new item, and no later entry has its id |
| HistoryStore.UpsertKeepsOthers | src/features/history/historyStore.ts:19-23 | the result has `min(100, 1 + entries with another id)` entries and after the new item come exactly the first of the entries with another id, in order; below the limit every entry with another id survives |
| HistoryStore.WithoutAbsentId | src/features/history/historyStore.ts:20 | filtering out an id nobody has is the identity |
| HistoryStore.UpsertFreshGrows | src/features/history/historyStore.ts:19-23 | a fresh id on a list below the limit is prepended to the unchanged list |
| HistoryStore.UpsertKeepsOrder | src/features/history/historyStore.ts:19-23 | the older entries that survive come from the old list in their old order |
| HistoryStore.WithoutIdUnique | src/features/history/historyStore.ts:20-25 | filtering keeps ids unique |
| HistoryStore.UpsertKeepsUniqueIds | src/features/history/historyStore.ts:19-23 | adding an item to a history whose ids are unique keeps them unique, whether or not its id was there already |
| HistoryStore.FreshAfterUpsert | src/features/history/historyStore.ts:19-23 | after a fresh item is added the remaining fresh items are still fresh |
| HistoryStore.ReverseStep | src/features/history/historyStore.ts:21 | cutting to 100 twice is cutting once, which lets additions be composed |
| HistoryStore.AddAllFresh | src/features/history/historyStore.ts:19-23 | adding distinct fresh items one by one puts them in front newest first and keeps the first 100 |
| HistoryStore.OldestEvicted | src/features/history/historyStore.ts:6-21 | after 101 distinct additions the 100 newest remain, newest first, and the oldest is gone |
| HistoryStore.Store.constructor | src/features/history/historyStore.ts:18 | the store starts empty |
| HistoryStore.Store.AddItem | src/features/history/historyStore.ts:19-23 | `items` becomes the upserted list; unique ids stay unique |
| HistoryStore.Store.RemoveItem | src/features/history/historyStore.ts:24-26 | `items` loses every entry with the id; unique ids stay unique |
| HistoryStore.Store.Clear | src/features/history/historyStore.ts:27 | `items` becomes empty |
| AppStore.Flip | src/store/appStore.ts:67 | the other theme is never the same theme |
| AppStore.ResolveInitialTheme | src/store/appStore.ts:10-25 | light without a window; a stored `light`/`dark` wins; otherwise dark exactly when `matchMedia` exists and prefers dark |
| AppStore.Persisted | src/store/appStore.ts:27-37 | with usable storage the theme key holds the theme's text; no other key changes; unusable storage is left as it is |
| AppStore.PersistedThemeRestored | src/store/appStore.ts:10-37 | a persisted theme is the one the next load resolves, whatever the system preference |
| AppStore.AppState.constructor | src/store/appStore.ts:52-56 | text-to-image tab, drawer closed, nothing pending, resolved theme |
| AppStore.AppState.SetActiveTab | src/store/appStore.ts:57 | only the tab changes |
| AppStore.AppState.ToggleHistory | src/store/appStore.ts:58 | only the drawer flag changes, to its negation |
| AppStore.AppState.SetHistoryOpen | src/store/appStore.ts:59 | only the drawer flag changes |
| AppStore.AppState.SetPendingHistory | src/store/appStore.ts:60 | only the pending item changes |
| AppStore.AppState.SetTheme | src/store/appStore.ts:61-64 | the theme changes and is persisted; tab, drawer and pending item stay |
| AppStore.AppState.ToggleTheme | src/store/appStore.ts:65-70 | the theme flips and the new theme is persisted; nothing else changes |
| AppStore.ToggleTwice | src/store/appStore.ts:65-70 | toggling twice restores the theme and leaves it stored |
| ImageSizing.SnapDimension | src/lib/imageSizing.ts:12-21 | every result is on the grid (a multiple of 8 within 256..1024); a non-positive length gives 256 |
| ImageSizing.FloorMonotone | src/lib/imageSizing.ts:19 | flooring keeps the order of two lengths |
| ImageSizing.SnapMonotone | src/lib/imageSizing.ts:12-21 | snapping never decreases when its input grows |
| ImageSizing.SnapOnGrid | src/lib/imageSizing.ts:12-21 | a length already on the grid snaps to itself |
| ImageSizing.SnapIdempotent | src/lib/imageSizing.ts:12-21 | snapping twice is snapping once |
| ImageSizing.FloorOfQuotient | src/lib/imageSizing.ts:19 | the floor of a quotient of naturals is integer division |
| ImageSizing.SnapQuotient | src/lib/imageSizing.ts:12-21 | snapping `num / den` equals `num / (8 * den) * 8` clamped to 256..1024, in integers |
| ImageSizing.ParseAspectRatio | src/lib/imageSizing.ts:23-29 | succeeds exactly when the first two `:`-parts read as non-zero numbers, returning those numbers; otherwise the error `Invalid aspect ratio: …` |
| ImageSizing.LongSideValues | src/lib/imageSizing.ts:3-46 | the long side is 848 at 480p (854 floored to the grid) and 1024 at 720p (capped) |
| ImageSizing.DimensionsForRatio | src/lib/imageSizing.ts:36-49 | both sides of a solved ratio are on the grid |
| ImageSizing.ComputeDimensions | src/lib/imageSizing.ts:31-50 | succeeds exactly when the ratio parses, with both sides on the grid, and otherwise fails with the parser's message |
| ImageSizing.ScaledQuotient | src/lib/imageSizing.ts:41-47 | scaling a length by `small / big` never makes it longer, and a factor of one keeps it |
| ImageSizing.LongSideFollowsOrientation | src/lib/imageSizing.ts:37-49 | the larger ratio term's side is the preset's long side and the other side is no longer; a square ratio gives a square |
| ImageSizing.TransposedRatio | src/lib/imageSizing.ts:37-49 | swapping the ratio's terms swaps width and height |
| ImageSizing.ShortSideInIntegers | src/lib/imageSizing.ts:39-49 | the short side is `long * small / (8 * large) * 8` clamped to 256..1024 |
| ImageSizing.TransposedText | src/lib/imageSizing.ts:23-50 | `a:b` and `b:a` both fail or both succeed, with width and height swapped |
| ImageSizing.SplitAtColon | src/lib/imageSizing.ts:24 | `a:b` splits into `a` and `b` |
| ImageSizing.ExtraPartsIgnored | src/lib/imageSizing.ts:24 | parts after the second `:` do not change the parse |
| ImageSizing.JsNumberOfDigits | src/lib/imageSizing.ts:24 | `Number` of a digit string is its decimal value |
| ImageSizing.ParsesDigits | src/lib/imageSizing.ts:23-29 | `w:h` of two non-zero digit strings parses to their values |
| ImageSizing.RatioTextIsTerms | src/types/history.ts:27-37 | each selectable ratio's literal is its two terms in decimal around a colon |
| ImageSizing.PrintedRatioParses | src/lib/imageSizing.ts:23-29 | printing two positive numbers as `w:h` and parsing gives them back |
| ImageSizing.SelectableRatiosParse | src/lib/imageSizing.ts:23-29 | every selectable ratio parses, so the solver never throws on one |
| ImageSizing.SelectableDimensions | src/lib/imageSizing.ts:31-50 | a selectable ratio's dimensions are those of its two terms |
| ImageSizing.Landscape16x9 | src/lib/imageSizing.ts:36-43 | 16:9 gives 1024x576 at 720p and 848x472 at 480p |
| ImageSizing.Example16x9At720p | src/lib/imageSizing.ts:31-50 | `computeDimensions('16:9', '720p')` is 1024x576 |
| ImageSizing.Example9x16At720p | src/lib/imageSizing.ts:31-50 | `computeDimensions('9:16', '720p')` is 576x1024 |
| ImageSizing.Example16x9At480p | src/lib/imageSizing.ts:31-50 | `computeDimensions('16:9', '480p')` is 848x472 |
| ImageSizing.Example1x1At720p | src/lib/imageSizing.ts:31-50 | `computeDimensions('1:1', '720p')` is 1024x1024 |
| Images.ScaleKeepsOrder | src/lib/images.ts:36-37 | multiplying by a positive number keeps the order of two reals |
| Images.QuotientBounds | src/lib/images.ts:6-37 | `w / h < 1/3` is `3w < h` and `w / h > 3` is `w > 3h` for positive `h` |
| Images.RatioCrossMultiplied | src/lib/images.ts:36-37 | the JavaScript ratio test, with Infinity and NaN for a zero height, is the division-free test |
| Images.ValidateImageFile | src/lib/images.ts:27-44 | no error exactly when the type is JPEG or PNG, the size at most 4 MiB and the ratio within 1:3..3:1; otherwise the first failing check's code and message, in the order format, size, ratio |
| Images.ValidateAgreesWithJs | src/lib/images.ts:27-44 | the same acceptance stated with JavaScript's division, and the ratio error for a bad ratio after the other checks pass |
| Images.BoundariesAccepted | src/lib/images.ts:5-37 | exactly 4 MiB and ratios exactly 1:3 and 3:1 pass |
| Images.JustPastBoundariesRejected | src/lib/images.ts:5-37 | one byte over gives the size error; one pixel past either ratio bound gives the ratio error |
| Images.PrepareImageAsset | src/lib/images.ts:9-25 | the validation error is passed on unchanged; a valid file becomes an asset with the fresh id, the file, its name and size, its data URL and its width and height |
| ThemeColor.HexDigitValue | src/theme/color.ts:19 | a hexadecimal digit is worth less than 16 |
| ThemeColor.HexValue | src/theme/color.ts:19 | `n` hexadecimal digits denote a number below 16^n |
| ThemeColor.HexValueSnoc | src/theme/color.ts:19 | one more hexadecimal digit on the right multiplies the value by 16 and adds the digit |
| ThemeColor.HexValueConcat | src/theme/color.ts:19 | the digits of `a + b` are worth `a` shifted left by `len(b)` places plus `b` |
| ThemeColor.HexPrefixLength | src/theme/color.ts:19 | the run of leading hexadecimal digits is all digits and is followed by a non-digit or the end |
| ThemeColor.ParseIntHex | src/theme/color.ts:19 | `parseInt(s, 16)`, when it yields a number, yields one of at most `len(s)` digits in magnitude |
| ThemeColor.PowMonotone | src/theme/color.ts:19 | powers of 16 grow with the exponent |
| ThemeColor.ToInt32 | src/theme/color.ts:20-22 | the operand of `>>` and `&` is read as a signed 32-bit integer |
| ThemeColor.ShiftMask | src/theme/color.ts:20-22 | `(x >> s) & 255` is a byte |
| ThemeColor.RemoveFirstHash | src/theme/color.ts:12 | `replace('#', '')` leaves a hash-free string alone and otherwise removes exactly one character: the first `#`, with the text before and after it kept |
| ThemeColor.Expand | src/theme/color.ts:13-18 | a three-character value becomes six characters, position `i` holding input character `i / 2`; any other length is kept |
| ThemeColor.ChannelsOfNumber | src/theme/color.ts:20-22 | the three channels are bytes |
| ThemeColor.ChannelsOf | src/theme/color.ts:11-22 | the channels read from any string, even a malformed one, are bytes |
| ThemeColor.OutputReadsBack | src/theme/color.ts:23 | the output is three decimal numerals separated by single spaces, and they read back as the three channels |
| ThemeColor.LeadingHashRemoved | src/theme/color.ts:12 | the leading `#` is the one removed |
| ThemeColor.ShortFormDoubles | src/theme/color.ts:13-18 | `#abc` gives the same channels and text as `#aabbcc` |
| ThemeColor.ParseHexDigits | src/theme/color.ts:19 | a non-empty run of hexadecimal digits parses to its value |
| ThemeColor.SixDigitValue | src/theme/color.ts:19-22 | six digits are three bytes, most significant first |
| ThemeColor.ByteChannels | src/theme/color.ts:20-22 | shifting and masking a 24-bit value picks out its three bytes |
| ThemeColor.SmallToInt32 | src/theme/color.ts:20-22 | a value below 2^31 is unchanged by the 32-bit reading |
| ThemeColor.SixDigitNumber | src/theme/color.ts:12-19 | a six-digit colour converts to the value of its digits |
| ThemeColor.SixDigitChannels | src/theme/color.ts:11-22 | each channel of a six-digit colour is the value of its digit pair |
| ThemeColor.HexPrefixAll | src/theme/color.ts:19 | a string of hexadecimal digits is one whole run |
| ThemeColor.SixDigitText | src/theme/color.ts:11-24 | the text for a six-digit colour is its three pair values in decimal |
| ThemeColor.PrimaryDigits | src/theme/color.ts:34 | the pairs of `2563eb` are 37, 99 and 235 |
| ThemeColor.PrimaryNumerals | src/theme/color.ts:23 | 37, 99 and 235 print as `37 99 235` |
| ThemeColor.PrimaryExample | src/theme/color.ts:34 | the primary colour `#2563eb` becomes `37 99 235` |
| ThemeColor.ThemeEntries | src/theme/color.ts:55-65 | seven entries, token names in order, each paired with the channels of its colour in the chosen palette |
| ThemeColor.PrimaryEntry | src/theme/color.ts:55-65 | in either theme the first entry is `primary` with the channels `37 99 235` |
| HistoryTypes.AspectRatioOptionsComplete | src/types/history.ts:27-52 | the picker lists every ratio exactly once, ten in all |
| HistoryTypes.AspectRatioTextInjective | src/types/history.ts:27-37 | distinct ratios have distinct literals |
| HistoryTypes.ResolutionOptionsComplete | src/types/history.ts:39-54 | both presets are offered, each once |
| Api.NormalizeDataUrl | src/lib/api.ts:123-129 | the length is kept; a URL without the exact `data:image/` start or without a comma comes back unchanged; otherwise the header before the first comma is lower-cased and the rest is kept |
| Api.ToLowerCharIdempotent | src/lib/api.ts:127 | lower-casing a character twice is lower-casing it once |
| Api.NormalizedKeepsPrefix | src/lib/api.ts:124-128 | a normalised data URL still starts with `data:image/` |
| Api.NormalizedKeepsComma | src/lib/api.ts:125-128 | normalising keeps the first comma where it was |
| Api.NormalizeIdempotent | src/lib/api.ts:123-129 | normalising twice is normalising once |
| Api.IndexOfFirst | src/lib/api.ts:125 | the first position holding a character is what `indexOf` returns |
| Api.NonEmpty | src/lib/api.ts:142-148 | `filter(Boolean)` keeps exactly the non-empty strings |
| Api.NormalizeAll | src/lib/api.ts:142-148 | `map(normalizeDataUrl)` keeps the length and normalises each entry in place |
| Api.BuildImageField | src/lib/api.ts:132-156 | at most ten entries; no field exactly when there is no list `image`, no non-empty single `image` and no usable reference |
| Api.ImageListField | src/lib/api.ts:141-145 | a list `image` gives its truthy entries normalised, in order, the first ten, whatever the references |
| Api.SingleImageField | src/lib/api.ts:148-152 | a non-empty single `image` comes first, normalised, followed by the truthy references in order, ten at most |
| Api.ReferencesOnlyField | src/lib/api.ts:138-155 | with no usable `image` the field is the truthy references, normalised and capped, or absent when none are left |
| Api.NormalizeAllPrepared | src/lib/api.ts:142-148 | normalised non-empty URLs are non-empty and left alone by a second normalisation |
| Api.ImageFieldPrepared | src/lib/api.ts:132-156 | every entry of the field is non-empty and already normalised, and there are at most ten |
| Api.NoImageNoField | src/lib/api.ts:138 | no `image` and no references means no field |
| Api.BuildRequestBody | src/lib/api.ts:167-191 | the defaults for model, response format, stream, watermark and sequential mode; width and height only when both are non-zero, else `size` only when non-empty, never both; `image` is the built field; seed and guidance are never sent |
| Api.StripTrailingSlashes | src/lib/api.ts:194 | the result is a prefix of the base, only slashes were removed, and it does not end with a slash |
| Api.EndpointIgnoresTrailingSlashes | src/lib/api.ts:194 | any number of trailing slashes on the base gives the same endpoint |
| Api.PlanSeedreamRequest | src/lib/api.ts:158-204 | a missing or empty base or key is the configuration error; otherwise the endpoint under the base, a bearer header with the key, and a body with the prompt, the given model, response format, stream, watermark and sequential-generation values or, when absent, the defaults (the default model, `url`, no streaming, a watermark, `disabled`), the aspect ratio and steps passed on, dimensions exactly when width and height are both set and then with their values, a size exactly when there are no dimensions and a size is given and then with its value, the sequential-generation options passed on, and the built image field |
| Api.ExtractErrorMessage | src/lib/api.ts:265-274 | the `error` string; else a truthy `error.message`; else the JSON text; and for an unparseable body the status and its text |
| Api.FallbackNamesStatus | src/lib/api.ts:272 | the fallback message starts with the status code in decimal, which reads back, followed by a space |
| Api.SeedreamResult | src/lib/api.ts:206-211 | a 2xx response succeeds; any other status fails with the extracted message |
| FetchRetry.FetchWithRetry | src/lib/api.ts:74-103 | the loop makes exactly the fetches and waits, and ends exactly as, the reference run describes |
| FetchRetry.JoinedThen | src/lib/api.ts:85-101 | appending one fetch and wait to the finished part is the same as prepending it to the rest of the run |
| FetchRetry.RunFromBounds | src/lib/api.ts:85-101 | from any attempt, at least one fetch, at most one per remaining attempt, and no more waits than fetches |
| FetchRetry.FetchBound | src/lib/api.ts:78-102 | at most `retries + 1` fetches; with negative `retries` no fetch is made and `Request failed` is thrown |
| FetchRetry.WaitsFrom | src/lib/api.ts:89-98 | the k-th wait from an attempt is the backoff for that attempt plus k |
| FetchRetry.WaitSchedule | src/lib/api.ts:89-98 | wait k is `retryDelayMs * backoffFactor^k` |
| FetchRetry.FinalResponseReturned | src/lib/api.ts:88-93 | an OK or non-retryable response, or any response on the last attempt, is returned with no further fetch |
| FetchRetry.AbortStopsRun | src/lib/api.ts:95-119 | an abort of the fetch or of a wait ends the run at once |
| FetchRetry.ExhaustedNetworkErrors | src/lib/api.ts:94-102 | when every fetch fails at the network level, all remaining attempts are made and the last error is thrown |
| FetchRetry.DefaultsFetchOnce | src/lib/api.ts:78 | with the defaults there is exactly one fetch and no wait |
| FetchRetry.ThreeUnavailable | src/lib/api.ts:72-92 | three 503s with two retries: three fetches, waits of 500 and 1000 ms, the last 503 returned |
| FetchRetry.NotFoundNotRetried | src/lib/api.ts:72-88 | a 404 is never retried |
| GenerateImage.ToSizeString | api/generate-image.ts:14-17 | a size exactly when both sides are present and truthy, written as the rounded sides around an `x` |
| GenerateImage.NumbersToSize | api/generate-image.ts:14-17 | two positive whole numbers become their decimal texts around an `x` |
| GenerateImage.NormalizeSizeString | api/generate-image.ts:19-25 | nothing for the empty string; after `×` is replaced and blanks trimmed, a `1K`/`2K`/`4K` preset in either case comes back upper-cased, a `WxH` of two to five digits a side comes back as it is, and anything else gives nothing |
| GenerateImage.FixSizeHasNoSign | api/generate-image.ts:21 | every `×` is replaced, not only the first |
| GenerateImage.FixSizeOfClean | api/generate-image.ts:21 | a text with no `×` and no blank at either end is its own fix-up |
| GenerateImage.PresetStable | api/generate-image.ts:22 | an upper-case preset normalises to itself |
| GenerateImage.WxHStable | api/generate-image.ts:23 | a `WxH` text with no `×` normalises to itself |
| GenerateImage.NormalizeSizeIdempotent | api/generate-image.ts:19-25 | an accepted size is left alone by a second pass |
| GenerateImage.LowerPresetUpperCased | api/generate-image.ts:22 | `1k` gives `1K` |
| GenerateImage.ThreeKRefused | api/generate-image.ts:22-24 | `3K` is refused |
| GenerateImage.UpperTimesKept | api/generate-image.ts:23 | `1280X720` is accepted and keeps its upper-case `X` |
| GenerateImage.MultiplicationSignReplaced | api/generate-image.ts:21-23 | `1280×720` becomes `1280x720` |
| GenerateImage.ChosenSize | api/generate-image.ts:31-36 | fails exactly when `size` is truthy but not a string (where `replace` throws), with that error |
| GenerateImage.NormalizeForArk | api/generate-image.ts:27-48 | width, height and aspect ratio are gone; every other key but `size` is copied; `size` is the chosen size when there is one, else the input's `size` stays as it was |
| GenerateImage.ValidSizeWins | api/generate-image.ts:31-36 | a valid `size` wins over width and height and is sent normalised |
| GenerateImage.SizeFromDimensions | api/generate-image.ts:34-36 | without `size`, two positive numbers make `WxH` |
| GenerateImage.InvalidSizePassesThrough | api/generate-image.ts:31-47 | an invalid `size` with no width to build from is forwarded unchanged |
| GenerateImage.StripBearer | api/generate-image.ts:79-81 | for a key starting with `bearer ` in any case, the result is a stretch of the key after those seven characters with only blanks between them and it and only blanks after it, and it neither starts nor ends with a blank; any other key is kept |
| GenerateImage.BearerPrefixIrrelevant | api/generate-image.ts:79-87 | a key configured with or without `Bearer ` yields the same key |
| GenerateImage.WithoutModel | api/generate-image.ts:59 | the body loses `model` and keeps every other key and value |
| GenerateImage.HandleGenerateImage | api/generate-image.ts:50-99 | 405 for anything but POST; a forwarded body never has `model`, and is sent with `Bearer ` and the route's configured key, its own `bearer ` prefix stripped; the nano route sends the body as it came to the nano base, the Ark route the Ark-normalised body to the Ark base; a failing Ark normalisation is a 500 `Proxy failed` with its message, and otherwise a missing or empty route key is a 500 naming the missing key |
| GenerateImage.ForwardedWhenConfigured | api/generate-image.ts:65-77 | with a key for its route, a POST is forwarded exactly when it is for nano or the Ark normalisation does not throw |
| GenerateImage.ArkBodyHasOnlySize | api/generate-image.ts:38-47 | a body forwarded to Ark never has width, height or aspect ratio |
| GenerateNano.SplitTwo | api/generate-nano.ts:43 | `split(",", 2)`: the head is comma-free and is all of a comma-free URL; otherwise the head ends at the first comma and the second part runs to the next comma or the end |
| GenerateNano.MimeOfHeader | api/generate-nano.ts:46-47 | the MIME type the header pattern captures, the only one it can capture, or `image/png` when it does not match |
| GenerateNano.ParseDataUrl | api/generate-nano.ts:41-49 | a result exactly when the URL starts with `data:` and has a non-empty second comma-separated part; that part is the payload and the MIME type is the header's |
| GenerateNano.HeaderKeepsScheme | api/generate-nano.ts:42-43 | the header before the first comma still starts with `data:` |
| GenerateNano.InlineDataUrlRoundTrip | api/generate-nano.ts:41-49 | a data URL built as the response mapping builds it (line 112), from a plain MIME type and a comma-free payload, parses back to both |
| GenerateNano.SplitTwoOfPair | api/generate-nano.ts:43 | `a,b` of comma-free parts splits into `a` and `b` |
| GenerateNano.AsList | api/generate-nano.ts:58 | a list stays as it is, a non-empty string becomes a one-element list, anything else the empty list |
| GenerateNano.ParsedImages | api/generate-nano.ts:59-61 | no more parts than URLs, one per URL when all parse, and each part comes from a URL that parses to it |
| GenerateNano.ParsedImagesConcat | api/generate-nano.ts:59-61 | parsing distributes over concatenation, so the images keep their order |
| GenerateNano.ImagesToInlineParts | api/generate-nano.ts:57-65 | no parts without an image, at most one for a single string, the parsed list for a list |
| GenerateNano.SingleImageIsList | api/generate-nano.ts:58 | a single string is treated as a one-element list |
| GenerateNano.NonDataUrlDropped | api/generate-nano.ts:42-61 | a URL that is not a data URL contributes nothing |
| GenerateNano.InlineContents | api/generate-nano.ts:62-64 | each image part becomes one inline content, in order |
| GenerateNano.Contents | api/generate-nano.ts:95-97 | the untrimmed prompt first, then the image parts in order |
| GenerateNano.ResponseImages | api/generate-nano.ts:106-113 | no more images than parts, none exactly when no part has inline data, and each image made from a part with inline data |
| GenerateNano.ResponseImagesConcat | api/generate-nano.ts:107-113 | the images of two runs of parts are the first run's followed by the second's, so the order of the parts is kept |
| GenerateNano.ResponseImagesOne | api/generate-nano.ts:107-113 | a single part gives its one data-URL image exactly when it has inline data, and nothing otherwise |
| GenerateNano.ResponseImagesParse | api/generate-nano.ts:107-113 | every returned image URL parses again when the part's MIME type and payload are plain |
| GenerateNano.HandleNano | api/generate-nano.ts:69-136 | a missing key is a 500 before anything else; 405 for anything but POST; a configured POST with a missing or blank prompt is the 400 `Prompt is required.`, and a 400 is never anything else; for a configured POST with a non-blank prompt, an SDK error is a 500 `Request failed` with its message, and an answer with inline images succeeds with exactly those images, stamped with the clock reading and labelled `nano-banana (model)` with the configured or default model name; a success always needs a non-blank prompt, a successful SDK call and at least one image |
| GenerateNano.BlankPromptRefused | api/generate-nano.ts:87-89 | a blank prompt is refused with 400 before the SDK is called |
| GenerateNano.NoImagesIsFailure | api/generate-nano.ts:115-123 | an answer without inline images is a 500 whose detail is the block reason or the default text |
| TextToImagePanel.SideDigits | src/components/TextToImagePanel.tsx:130 | a side between 100 and 9999 prints with three or four digits |
| TextToImagePanel.SizeTextAccepted | src/components/TextToImagePanel.tsx:124-132 | the size a selected preset sends is `WxH` whose two numerals read back as the width and height, and the proxy's size normalisation keeps it exactly as sent |
| TextToImagePanel.HistoryRestoresSettings | src/components/TextToImagePanel.tsx:37-104 | restoring the entry a generation recorded gives back the prompt, enhanced prompt, ratio and preset it was generated with; the entry's size is the preset's, which is the size that was sent |
| TextToImagePanel.NanoEntriesKeepNoImage | src/components/TextToImagePanel.tsx:92-103 | a nano model's entry keeps neither thumbnail nor URL; any other model's keeps the first result's URL as both |
| TextToImagePanel.Panel.constructor | src/components/TextToImagePanel.tsx:21-33 | empty prompts, 16:9 at 720p, nothing generated, no error, no request remembered, no controllers |
| TextToImagePanel.Panel.ApplyPendingHistory | src/components/TextToImagePanel.tsx:37-48 | a pending `t2i` entry is copied into the form, images and last request are cleared, and the entry is taken out of the app store, which otherwise stays as it was; any other pending state changes nothing |
| TextToImagePanel.Panel.AbortOnUnmount | src/components/TextToImagePanel.tsx:50-51 | both in-flight controllers are aborted |
| TextToImagePanel.Panel.StartEnhance | src/components/TextToImagePanel.tsx:53-63 | nothing happens for a blank raw prompt; otherwise the previous enhancement is aborted, a live controller installed, the flag raised, the error cleared, and the raw prompt sent untrimmed in `t2i` mode |
| TextToImagePanel.Panel.FinishEnhance | src/components/TextToImagePanel.tsx:64-72 | success replaces only the enhanced prompt; failure sets the message or the default; an abort sets nothing; the flag is lowered in every case |
| TextToImagePanel.Panel.StartGeneration | src/components/TextToImagePanel.tsx:77-81 | the previous request is aborted, a live controller installed, the flag raised and the error cleared; the run keeps the settings of that moment |
| TextToImagePanel.Panel.FinishGeneration | src/components/TextToImagePanel.tsx:83-113 | success shows the images, remembers the payload and adds the history entry; failure shows the message or the default and changes nothing else; an abort changes nothing; the flag is lowered in every case |
| TextToImagePanel.Panel.HandleGenerate | src/components/TextToImagePanel.tsx:118-134 | a blank selected prompt sets the error and starts nothing; otherwise the payload built from the current settings and model is sent |
| TextToImagePanel.Panel.HandleRegenerate | src/components/TextToImagePanel.tsx:136-142 | the last successful payload is sent again when there is one; otherwise as `handleGenerate` |
| ImageToImagePanel.FindIndex | src/components/ImageToImagePanel.tsx:156-159 | the search finds the first reference with the id, and finds none exactly when no reference has it |
| ImageToImagePanel.FindIndexFirst | src/components/ImageToImagePanel.tsx:156 | the first position holding an id is the index the search returns |
| ImageToImagePanel.Spliced | src/components/ImageToImagePanel.tsx:164-166 | removing an item and inserting it elsewhere keeps the length and the multiset of items: the list is a permutation of the old one |
| ImageToImagePanel.SplicedAt | src/components/ImageToImagePanel.tsx:164-166 | after the two splices the moved item is at its target, the items between the old and new index shift by one towards the gap, and every other item keeps its position |
| ImageToImagePanel.SpliceMove | src/components/ImageToImagePanel.tsx:164-166 | the in-place splices on the copied array leave it holding exactly the spliced list |
| ImageToImagePanel.Moved | src/components/ImageToImagePanel.tsx:154-169 | a move is a permutation of the references, and leaves the list untouched when no reference has the id |
| ImageToImagePanel.SplicedNeighbours | src/components/ImageToImagePanel.tsx:164-166 | splicing an item to the neighbouring index trades the two places and keeps every other position |
| ImageToImagePanel.MoveSwapsNeighbours | src/components/ImageToImagePanel.tsx:154-169 | moving an item one step trades places with its neighbour and leaves every other reference where it was; a step past either end of the list changes nothing |
| ImageToImagePanel.MoveUndone | src/components/ImageToImagePanel.tsx:154-169 | with distinct ids, a move that happened is undone by moving the same item the other way |
| ImageToImagePanel.WithoutReference | src/components/ImageToImagePanel.tsx:150-152 | removing keeps exactly the references with another id, in their order, and never adds any |
| ImageToImagePanel.PrepareFrom | src/components/ImageToImagePanel.tsx:136-144 | files are prepared in order; the run stops at the first invalid file, whose validation error it reports, and otherwise covers every file |
| ImageToImagePanel.PrepareAll | src/components/ImageToImagePanel.tsx:135-144 | the loop over the files collects the assets and the first failure that the specification of the run describes |
| ImageToImagePanel.LaterFilesIgnored | src/components/ImageToImagePanel.tsx:140-143 | once a file fails, files chosen after it change nothing |
| ImageToImagePanel.ReferenceCap | src/components/ImageToImagePanel.tsx:132-145 | a pick appends at most the free slots' worth of assets, keeps the current references in front, and never takes the total past eight |
| ImageToImagePanel.DataUrls | src/components/ImageToImagePanel.tsx:238 | the references' data URLs, one per reference, in display order |
| ImageToImagePanel.HistoryRestoresSettings | src/components/ImageToImagePanel.tsx:182-203 | restoring the entry a generation recorded (with the restore effect of lines 51-70) gives back every setting it was generated with; the entry is marked image-to-image, its size is the preset's and its thumbnail and URL are the first result's |
| ImageToImagePanel.PayloadSendsAllImages | src/components/ImageToImagePanel.tsx:227-239 | with at most eight references, the provider receives the source image first and then every reference in display order, all normalised, none dropped by the ten-image cap |
| ImageToImagePanel.SourceLeadsReferences | src/components/ImageToImagePanel.tsx:237-238 | a non-empty source and at most eight non-empty references form the image list unchanged in order, source first |
| ImageToImagePanel.Panel.constructor | src/components/ImageToImagePanel.tsx:24-46 | the initial form is 1:1 at 720p, 30 steps, guidance 7, watermark on, no streaming, sequential generation disabled; nothing uploaded, generated or remembered |
| ImageToImagePanel.Panel.ApplyPendingHistory | src/components/ImageToImagePanel.tsx:51-70 | only a pending image-to-image entry is applied: it restores the form, clears images, uploads and last request and empties the pending slot, leaving the rest of the app state alone; anything else changes nothing |
| ImageToImagePanel.Panel.Restore | src/components/ImageToImagePanel.tsx:55-68 | the form takes the entry's settings, with 30 steps and guidance 7 when the entry has none, and images, uploads and last request are cleared |
| ImageToImagePanel.Panel.AbortOnUnmount | src/components/ImageToImagePanel.tsx:72-73 | unmounting aborts whichever generation and enhancement requests are in flight, and nothing else |
| ImageToImagePanel.Panel.StartEnhance | src/components/ImageToImagePanel.tsx:75-85 | a blank raw prompt starts nothing; otherwise the previous enhancement is aborted, a fresh controller becomes current, the flag is raised, the error cleared, and the untrimmed raw prompt is sent in image-to-image mode |
| ImageToImagePanel.Panel.FinishEnhance | src/components/ImageToImagePanel.tsx:86-94 | success replaces only the enhanced prompt, failure shows its message or the default, an abort sets nothing, and the flag is always lowered |
| ImageToImagePanel.Panel.HandleFileError | src/components/ImageToImagePanel.tsx:97-98 | the error's message is shown |
| ImageToImagePanel.Panel.HandleSourceChange | src/components/ImageToImagePanel.tsx:113-125 | an empty pick does nothing; a valid first file becomes the source and clears the upload error; an invalid one shows its validation message and keeps the old source |
| ImageToImagePanel.Panel.HandleReferenceChange | src/components/ImageToImagePanel.tsx:127-148 | the references become the old ones followed by the files that fit in the free slots, prepared up to the first failure, whose message is shown; the panel never holds more than eight |
| ImageToImagePanel.Panel.RemoveReference | src/components/ImageToImagePanel.tsx:150-152 | the references lose exactly the items with the id |
| ImageToImagePanel.Panel.MoveReference | src/components/ImageToImagePanel.tsx:154-169 | the array copy with its two splices yields the moved list, a permutation of the old one |
| ImageToImagePanel.Panel.StartGeneration | src/components/ImageToImagePanel.tsx:171-177 | the previous request is aborted, a fresh controller becomes current, the flag is raised and the error cleared |
| ImageToImagePanel.Panel.FinishGeneration | src/components/ImageToImagePanel.tsx:178-212 | success shows the images, remembers the request and records one history entry; failure shows its message or the default; an abort changes nothing but the flag, which is lowered in every case |
| ImageToImagePanel.Panel.HandleGenerate | src/components/ImageToImagePanel.tsx:217-241 | a blank selected prompt, and then a missing source, each set their error and send nothing; otherwise the payload built from the current form, source and references is sent |
| ImageToImagePanel.Panel.HandleRegenerate | src/components/ImageToImagePanel.tsx:243-249 | the last successful request is resent unchanged when there is one; otherwise it behaves as generating afresh: a blank prompt sets the prompt error, then a missing source the source error, and neither sends anything |
| ImageToImagePanel.SupersededRunClearsFlag | src/components/ImageToImagePanel.tsx:171-211 | a request superseded by a newer one is aborted, and when it settles it lowers the generating flag although the newer request is still in flight, recording nothing |
| Generation.SelectedPrompt | src/components/ImageToImagePanel.tsx:218-219 | the prompt sent is empty exactly when the chosen prompt, the enhanced one if non-empty and else the raw one, is blank; otherwise it starts and ends with a visible character |
| Generation.BlankEnhancedShadowsRaw | src/components/TextToImagePanel.tsx:119 | an enhanced prompt of only white space still wins over the raw prompt, so nothing is sent whatever the raw prompt says |
| Generation.SelectedPromptTrimmed | src/components/TextToImagePanel.tsx:119 | without an enhanced prompt the raw prompt is sent trimmed, and selecting the sent prompt again gives it back unchanged |
| Generation.PanelDimensions | src/components/ImageToImagePanel.tsx:49 | a selected ratio and preset always give a width and a height on the sizing grid |
| Generation.PanelDimensionsComputed | src/components/TextToImagePanel.tsx:35 | `computeDimensions` never fails for a ratio and preset the panels offer, and yields those dimensions |
| Generation.ErrorAfter | src/components/ImageToImagePanel.tsx:205-209 | a panel shows an error exactly when the request failed other than by abort: the error's message, or the panel's default when it has none |
| Generation.ControllerRef.constructor | src/components/ImageToImagePanel.tsx:45-46 | a new ref holds no controller and none has been aborted |
| Generation.ControllerRef.Replace | src/components/ImageToImagePanel.tsx:173-175 | the controller the ref held is aborted, and a new, never-aborted controller becomes current |
| Generation.ControllerRef.AbortCurrent | src/components/ImageToImagePanel.tsx:72-73 | the held controller, if any, is aborted; the ref keeps holding it |
| Generation.SingleFlight | src/components/TextToImagePanel.tsx:77-79 | of two requests started in turn, the first is aborted and only the second stays live |
| Strings.Trim | api/login.ts:6 | `trim()` removes exactly the white space at both ends: the result is the middle of the text, starts and ends with a visible character, and is empty exactly for a blank text |
| Strings.TrimIsTrimOf | api/generate-image.ts:80 | `trim()` gives a stretch of its input with only blanks before and after it, neither starting nor ending with a blank |
| Strings.TrimIdempotent | api/generate-image.ts:21 | trimming twice is trimming once |
| Strings.IndexOf | src/lib/api.ts:125-126 | `indexOf` gives -1 exactly when the character is absent, and otherwise its first position |
| Strings.ToLower | src/lib/api.ts:127 | `toLowerCase` keeps the length and lower-cases each character in place |
| Strings.ToUpper | api/generate-image.ts:22 | `toUpperCase` keeps the length and upper-cases each character in place |
| Strings.ReplaceChar | api/generate-image.ts:21 | a global one-character `replace` keeps the length and swaps every occurrence, leaving the rest alone |
| Strings.NatToString | src/theme/color.ts:23 | a number prints as decimal digits without a leading zero |
| Strings.ParseNatToString | src/theme/color.ts:23 | a printed number reads back as itself |
| Strings.NatToStringInjective | src/theme/color.ts:23 | different numbers print differently |
| Seqs.Filter | src/features/history/historyStore.ts:20 | `filter` keeps exactly the elements that pass, and never grows the list |
| Seqs.FilterIdempotent | src/features/history/historyStore.ts:20-25 | filtering twice with the same test is filtering once |
| Seqs.Take | src/features/history/historyStore.ts:21 | `slice(0, n)` is the first `n` elements, or all of a shorter list |
| Seqs.SliceTo | src/components/ImageToImagePanel.tsx:134 | `slice(0, end)` is a prefix whose length is `end` capped at the length, or for a negative `end` the length plus `end`, floored at 0, as JavaScript does |
| Seqs.TakeConcatTake | src/features/history/historyStore.ts:21 | cutting the tail before cutting the whole to `n` changes nothing |

## Left out

- Rendering, DOM access and browser APIs: the JSX of both panels and the other components, `FileReader`/`Image` decoding of uploads (an upload arrives with its data URL, MIME type, size and pixel dimensions), and `applyTheme`'s writes to the document (only its token list is modelled).
- Network and SDK calls: `fetch`, the provider SDK's `generateContent`, `enhancePrompt`'s request and the text-to-image panel's generation request are not part of this model; their answers are parameters (an oracle for the retry loop, a settled outcome for the panels).
- Real timers: the waits of the retry loop are returned as a list instead of slept, and the four-second timer that clears an upload error in the image-to-image panel is not modelled.
- Concurrency: two awaited requests cannot interleave in the model beyond what the explicit `Start…`/`Finish…` split expresses, and React's stale closures (a callback seeing older state) are not modelled; a `Finish…` sees the panel's current fields.
- `createId()` and `Date.now()` are parameters; the environment variables the proxies and the login endpoint read are parameters too.
- Console logging, including the proxy's key logging, has no effect on the model.
- zustand `persist` storage of the history is left out (the store holds `items` only); the theme's storage is a map that may be unavailable.
- Floating point: lengths, ratios and sizes are integers; `Math.round` of a fractional width or height, a fractional backoff factor and non-integer ratio terms are not modelled.
- `Number()` in the aspect-ratio parser is modelled for blank-padded decimal digit strings; every other text (signs, exponents, hexadecimal, `Infinity`) reads as NaN.
- GenerateImage.ToSizeString: `Math.round` of a width or height is modelled for integers, booleans and blank-padded decimal digit strings only; any other value reads as `NaN`, although JavaScript rounds some of them to a number (`"-5"` gives -5, `"12.6"` gives 13, `"1e3"` gives 1000, `[5]` gives 5), so for those inputs the model's size text differs from the source's.
- `parseInt(…, 16)` is modelled with unbounded integers, so precision loss on very long hexadecimal strings is not modelled.
- `toLowerCase`/`toUpperCase` map ASCII letters only; other scripts' case mappings are not modelled (the data-URL headers and size presets the code lower- or upper-cases are ASCII).
- Each panel's form fields (one `useState` each) are grouped into one `Settings` record, since they are read and restored together.
- TextToImagePanel.Panel.FinishGeneration: models the evidently intended text-to-image panel, not the panel as shipped, which has three defects:
  - it imports `requestImageGeneration` from src/lib/api.ts, which exports no such function (its request function is `requestSeedreamImages`);
  - it reads `state.model` from the app store (src/components/TextToImagePanel.tsx:15-19), which has no `model` field (src/store/appStore.ts), so `model` is undefined;
  - `model.startsWith(...)` (src/components/TextToImagePanel.tsx:92) therefore throws a TypeError after `setImages` and `setLastRequest` have run, so the source records no history entry and shows the TypeError's message as the generation error.
  The model takes the selected model name as a constructor parameter of `TextToImagePanel.Panel` and records the history entry as the code evidently intends.
- TextToImagePanel.HistoryRestoresSettings: covers prompt, enhanced prompt, ratio, preset and size only. The source's text-to-image history parameters omit the required watermark, stream and sequential fields (a type error in the source); the model records watermark and streaming off and sequential generation disabled, as the request sent them, and leaves seed, steps and guidance absent.
- ImageToImagePanel.Panel.HandleRegenerate: resending the last request records a history entry with the panel's current ratio, preset and prompts next to the old request's size, as the source does; no restore round trip is claimed for that case.
- ImageToImagePanel.MoveUndone: stated only for a move that took place; at an end of the list the first move does nothing and moving back may move the item.
- GenerateNano.HandleNano: the request body is modelled as an optional string prompt and an `ImageInput` (a list of strings, one string, or nothing), so these inputs cannot be expressed, all of which throw inside the `try` and are answered with the 500 `Request failed` of api/generate-nano.ts:130-133: a null body or a prompt that is neither nullish nor a string (lines 80-88; a null prompt is the 400, as a missing one), and a truthy `image` that is neither a string nor an array, or an array with an element that is neither nullish nor a string, on which `url?.startsWith` throws (line 42; nullish elements are dropped like other non-data URLs).
- GenerateImage.HandleGenerateImage: the request body is a map of JSON values, so a null or absent `req.body` cannot be expressed; in the source the destructuring at api/generate-image.ts:59 throws and the answer is the 500 `Proxy failed` of lines 95-97.
- ImageToImagePanel: the guidance scale is an integer (`Settings.guidance` and the request's `guidanceScale`), while the form's input steps by 0.5 and stores `Number(value)` (src/components/ImageToImagePanel.tsx:401-408), so a fractional guidance such as 7.5 cannot be represented; it is only passed through, so nothing else in the model depends on it.
