/** The image-generation proxy: it strips `model` from the posted body,
    routes `nano-banana` to its own provider untouched, and otherwise
    rewrites the body for the Ark provider so that only a `size` is sent.
    The provider key loses a `Bearer ` prefix before it is sent. */
module GenerateImage {
  import opened Wrappers
  import opened Strings
  import opened Values
  import ImageSizing

  const MULTIPLICATION_SIGN: char := '\U{00D7}'
  const NANO_MODEL: string := "nano-banana"
  const DEFAULT_NANO_BASE: string := "https://api.nanobanana.dev/v1/images/generations"
  const DEFAULT_ARK_BASE: string := "https://ark.ap-southeast.bytepluses.com/api/v3/images/generations"
  const METHOD_NOT_ALLOWED: string := "Method Not Allowed"
  const MISSING_KEY: string := "API_KEY is missing for the selected model"
  const PROXY_FAILED: string := "Proxy failed"
  /** The message of the `TypeError` a non-string `size` raises. */
  const SIZE_NOT_STRING: string := "s.replace is not a function"

  /** `Math.round(x)` rendered as text, for the values the model reads:
      integers print as they are, `true` counts as 1, a digit string is
      read as its number, and anything else is `NaN`. */
  function RoundedText(v: Value): string {
    match v
    case Num(n) => IntToString(n)
    case Bool(b) => if b then "1" else "0"
    case Str(s) =>
      var n := ImageSizing.JsNumber(s);
      if n.Some? then NatToString(n.value) else "NaN"
    case _ => "NaN"
  }

  /** `toSizeString`: nothing unless both sides are truthy, else `WxH`. */
  function ToSizeString(w: Option<Value>, h: Option<Value>): (r: Option<string>)
    ensures r.Some? <==> w.Some? && h.Some? && Truthy(w.value) && Truthy(h.value)
    ensures r.Some? ==> r.value == RoundedText(w.value) + "x" + RoundedText(h.value)
  {
    if w.None? || h.None? || !Truthy(w.value) || !Truthy(h.value) then None
    else Some(RoundedText(w.value) + "x" + RoundedText(h.value))
  }

  /** Two numbers become their decimal texts around an `x`. */
  lemma NumbersToSize(w: nat, h: nat)
    requires w > 0 && h > 0
    ensures ToSizeString(Some(Num(w)), Some(Num(h))) == Some(NatToString(w) + "x" + NatToString(h))
  {
  }

  /** `/^[12]K$|^4K$/i`. */
  predicate IsPreset(f: string) {
    |f| == 2 && (f[0] == '1' || f[0] == '2' || f[0] == '4') && (f[1] == 'K' || f[1] == 'k')
  }

  predicate IsTimes(c: char) {
    c == 'x' || c == 'X'
  }

  /** A run of two to five decimal digits. */
  predicate IsSide(s: string) {
    2 <= |s| <= 5 && IsDigits(s)
  }

  /** `/^\d{2,5}x\d{2,5}$/i`: two to five digits, an `x` of either case,
      two to five digits. */
  predicate IsWxH(f: string) {
    exists i | 2 <= i <= 5 :: i < |f| && IsTimes(f[i]) && IsSide(f[..i]) && IsSide(f[i + 1..])
  }

  /** The text the size patterns are matched against: every `×` turned into
      `x`, then trimmed. */
  function FixSize(s: string): string {
    Trim(ReplaceChar(s, MULTIPLICATION_SIGN, 'x'))
  }

  /** `normalizeSizeString` on a string: `1K`, `2K` or `4K` in either case
      come back upper-cased, `WxH` with two to five digits a side comes back
      as it is (after the fix-up), and anything else, or the empty string,
      gives nothing. */
  function NormalizeSizeString(s: string): (r: Option<string>)
    ensures s == "" ==> r.None?
    ensures r.Some? ==>
      || (IsPreset(FixSize(s)) && r.value == ToUpper(FixSize(s)))
      || (!IsPreset(FixSize(s)) && IsWxH(FixSize(s)) && r.value == FixSize(s))
    ensures r.None? ==> s == "" || (!IsPreset(FixSize(s)) && !IsWxH(FixSize(s)))
  {
    if s == "" then None
    else
      var fixed := FixSize(s);
      if IsPreset(fixed) then Some(ToUpper(fixed))
      else if IsWxH(fixed) then Some(fixed)
      else None
  }

  /** The fixed-up text holds no `×` any more. */
  lemma FixSizeHasNoSign(s: string)
    ensures MULTIPLICATION_SIGN !in FixSize(s)
  {
    var replaced := ReplaceChar(s, MULTIPLICATION_SIGN, 'x');
    assert MULTIPLICATION_SIGN !in replaced by {
      assert forall i :: 0 <= i < |replaced| ==> replaced[i] != MULTIPLICATION_SIGN;
    }
    var o := TrimOffset(replaced);
    var fixed := Trim(replaced);
    assert fixed == replaced[o..][..|fixed|];
    assert FixSize(s) == fixed;
  }

  /** A text with no `×` and no blank at either end is its own fix-up. */
  lemma FixSizeOfClean(r: string)
    requires MULTIPLICATION_SIGN !in r
    requires r != [] && !IsWhitespace(r[0]) && !IsWhitespace(r[|r| - 1])
    ensures FixSize(r) == r
  {
    assert ReplaceChar(r, MULTIPLICATION_SIGN, 'x') == r;
    TrimmedIsFixed(r);
  }

  /** An upper-case preset normalises to itself. */
  lemma PresetStable(r: string)
    requires |r| == 2 && (r[0] == '1' || r[0] == '2' || r[0] == '4') && r[1] == 'K'
    ensures NormalizeSizeString(r) == Some(r)
  {
    FixSizeOfClean(r);
    assert ToUpper(r) == r;
  }

  /** A `WxH` text with no `×` normalises to itself. */
  lemma WxHStable(r: string)
    requires MULTIPLICATION_SIGN !in r && IsWxH(r)
    ensures NormalizeSizeString(r) == Some(r)
  {
    var i :| 2 <= i <= 5 && i < |r| && IsTimes(r[i]) && IsSide(r[..i]) && IsSide(r[i + 1..]);
    assert r[0] == r[..i][0];
    assert r[|r| - 1] == r[i + 1..][|r| - i - 2];
    FixSizeOfClean(r);
    assert !IsPreset(r);
  }

  /** An accepted size is left alone by a second pass: normalising is
      idempotent. */
  lemma NormalizeSizeIdempotent(s: string)
    requires NormalizeSizeString(s).Some?
    ensures NormalizeSizeString(NormalizeSizeString(s).value) == NormalizeSizeString(s)
  {
    var r := NormalizeSizeString(s).value;
    var fixed := FixSize(s);
    if IsPreset(fixed) {
      assert r == ToUpper(fixed);
      PresetStable(r);
    } else {
      FixSizeHasNoSign(s);
      WxHStable(r);
    }
  }

  /** `1k` gives `1K`. */
  lemma LowerPresetUpperCased()
    ensures NormalizeSizeString("1k") == Some("1K")
  {
    FixSizeOfClean("1k");
    assert ToUpper("1k") == "1K" by {
      assert ToUpper("1k")[1] == ToUpperChar('k');
    }
  }

  /** `3K` is not a preset. */
  lemma ThreeKRefused()
    ensures NormalizeSizeString("3K").None?
  {
    FixSizeOfClean("3K");
    assert !IsWxH("3K");
  }

  /** `1280X720` is accepted and keeps its upper-case `X`. */
  lemma UpperTimesKept()
    ensures NormalizeSizeString("1280X720") == Some("1280X720")
  {
    var t := "1280X720";
    FixSizeOfClean(t);
    assert t[..4] == "1280" && t[5..] == "720";
    assert IsTimes(t[4]) && IsSide(t[..4]) && IsSide(t[5..]);
  }

  /** `1280×720` becomes `1280x720`. */
  lemma MultiplicationSignReplaced()
    ensures NormalizeSizeString("1280\U{00D7}720") == Some("1280x720")
  {
    var t := "1280x720";
    assert ReplaceChar("1280\U{00D7}720", MULTIPLICATION_SIGN, 'x') == t;
    TrimmedIsFixed(t);
    assert t[..4] == "1280" && t[5..] == "720";
    assert IsTimes(t[4]) && IsSide(t[..4]) && IsSide(t[5..]);
  }

  /** The keys the Ark body never carries. */
  const CLIENT_ONLY_KEYS: set<string> := {"width", "height", "aspect_ratio"}

  function Get(body: map<string, Value>, key: string): Option<Value> {
    if key in body then Some(body[key]) else None
  }

  /** The size `normalizeForArk` settles on: the normalised `size` field, or
      failing that one built from `width` and `height`. A truthy `size`
      that is not a string makes `replace` throw. */
  function ChosenSize(input: map<string, Value>): (r: Result<Option<string>, string>)
    ensures r.Err? <==> TruthyField(input, "size") && !input["size"].Str?
    ensures r.Err? ==> r.error == SIZE_NOT_STRING
  {
    var size := Get(input, "size");
    if size.Some? && Truthy(size.value) && !size.value.Str? then Err(SIZE_NOT_STRING)
    else
      var normalized := if size.Some? && size.value.Str? then NormalizeSizeString(size.value.s) else None;
      if normalized.Some? then Ok(normalized)
      else Ok(ToSizeString(Get(input, "width"), Get(input, "height")))
  }

  /** `normalizeForArk`: width, height and aspect ratio removed, every other
      key copied, and `size` set to the chosen size when there is one; when
      there is none, whatever `size` the input had stays. */
  function NormalizeForArk(input: map<string, Value>): (r: Result<map<string, Value>, string>)
    ensures r.Err? <==> ChosenSize(input).Err?
    ensures r.Ok? ==> forall k :: k in CLIENT_ONLY_KEYS ==> k !in r.value
    ensures r.Ok? ==> forall k :: k !in CLIENT_ONLY_KEYS && k != "size" ==>
      (k in r.value <==> k in input) && (k in input ==> r.value[k] == input[k])
    ensures r.Ok? && ChosenSize(input).value.Some? ==>
      "size" in r.value && r.value["size"] == Str(ChosenSize(input).value.value)
    ensures r.Ok? && ChosenSize(input).value.None? ==>
      ("size" in r.value <==> "size" in input) && ("size" in input ==> r.value["size"] == input["size"])
  {
    match ChosenSize(input)
    case Err(e) => Err(e)
    case Ok(size) =>
      var rest := input - CLIENT_ONLY_KEYS;
      if size.Some? then Ok(rest["size" := Str(size.value)]) else Ok(rest)
  }

  /** A valid `size` wins over width and height. */
  lemma ValidSizeWins(input: map<string, Value>, s: string)
    requires "size" in input && input["size"] == Str(s) && NormalizeSizeString(s).Some?
    ensures NormalizeForArk(input).Ok?
    ensures NormalizeForArk(input).value["size"] == Str(NormalizeSizeString(s).value)
  {
  }

  /** Without a usable `size`, two truthy numbers make one. */
  lemma SizeFromDimensions(input: map<string, Value>, w: nat, h: nat)
    requires "size" !in input && Get(input, "width") == Some(Num(w)) && Get(input, "height") == Some(Num(h))
    requires w > 0 && h > 0
    ensures NormalizeForArk(input).Ok?
    ensures NormalizeForArk(input).value["size"] == Str(NatToString(w) + "x" + NatToString(h))
  {
  }

  /** An invalid `size` string with nothing to build a size from is
      forwarded as it came. */
  lemma InvalidSizePassesThrough(input: map<string, Value>, s: string)
    requires "size" in input && input["size"] == Str(s) && NormalizeSizeString(s).None?
    requires "width" !in input
    ensures NormalizeForArk(input).Ok? && NormalizeForArk(input).value["size"] == Str(s)
  {
  }

  /** The proxy's environment: each provider's key and base URL. */
  datatype ProxyEnv = ProxyEnv(
    nanoApiKey: Option<string>, nanoBase: Option<string>,
    arkApiKey: Option<string>, arkBase: Option<string>)

  /** What the handler does: answer at once with a status and an error, or
      forward a body to a provider with a bearer credential. */
  datatype ProxyAction =
    | Respond(status: nat, error: string, detail: Option<string>)
    | Forward(url: string, authorization: string, body: map<string, Value>)

  /** `env || default`. */
  function OrDefault(value: Option<string>, default: string): string {
    if value.Some? && value.value != "" then value.value else default
  }

  /** A key written `bearer <key>` in any case loses those seven characters
      and the blanks around what is left. */
  function StripBearer(key: string): (r: string)
    ensures HasBearerPrefix(key) ==> IsTrimOf(key[7..], r)
    ensures !HasBearerPrefix(key) ==> r == key
  {
    if HasBearerPrefix(key) then
      TrimIsTrimOf(key[7..]);
      Trim(key[7..])
    else
      key
  }

  /** The key starts with `bearer ` in any mix of cases. */
  predicate HasBearerPrefix(key: string) {
    |key| >= 7 && ToLower(key[..7]) == "bearer "
  }

  /** A key configured with or without its `Bearer ` prefix yields the same
      credential. */
  lemma BearerPrefixIrrelevant(key: string)
    requires key != [] && !IsWhitespace(key[0]) && !IsWhitespace(key[|key| - 1])
    requires !HasBearerPrefix(key)
    ensures StripBearer("Bearer " + key) == StripBearer(key) == key
  {
    var withPrefix := "Bearer " + key;
    assert HasBearerPrefix(withPrefix) by {
      assert withPrefix[..7] == "Bearer ";
    }
    assert StripBearer(withPrefix) == Trim(key) by {
      assert withPrefix[7..] == key;
    }
    TrimmedIsFixed(key);
  }

  /** The body without `model`, which only chooses the route. */
  function WithoutModel(body: map<string, Value>): (r: map<string, Value>)
    ensures "model" !in r && forall k :: k != "model" ==> (k in r <==> k in body)
    ensures forall k :: k in r ==> r[k] == body[k]
  {
    body - {"model"}
  }

  /** The route a body takes: the nano provider for `model: 'nano-banana'`,
      Ark for anything else. */
  predicate NanoRoute(body: map<string, Value>) {
    Get(body, "model") == Some(Str(NANO_MODEL))
  }

  /** The key configured for a body's route. */
  function RouteKey(body: map<string, Value>, env: ProxyEnv): Option<string> {
    if NanoRoute(body) then env.nanoApiKey else env.arkApiKey
  }

  /** The handler: 405 for anything but POST; `model` taken out; the nano
      route forwards the rest as it is, the Ark route normalises it first
      (a failure there is a 500 `Proxy failed`); a missing key is a 500;
      otherwise the body goes to the provider's base URL. */
  function HandleGenerateImage(httpMethod: string, body: map<string, Value>, env: ProxyEnv): (a: ProxyAction)
    ensures httpMethod != "POST" ==> a == Respond(405, METHOD_NOT_ALLOWED, None)
    ensures a.Forward? ==> "model" !in a.body && "Bearer " <= a.authorization
    ensures a.Forward? && Get(body, "model") == Some(Str(NANO_MODEL)) ==>
      a.body == WithoutModel(body) && a.url == OrDefault(env.nanoBase, DEFAULT_NANO_BASE)
    ensures a.Forward? && Get(body, "model") != Some(Str(NANO_MODEL)) ==>
      Ok(a.body) == NormalizeForArk(WithoutModel(body)) && a.url == OrDefault(env.arkBase, DEFAULT_ARK_BASE)
    ensures a.Forward? ==>
      RouteKey(body, env).Some? && RouteKey(body, env).value != ""
      && a.authorization == "Bearer " + StripBearer(RouteKey(body, env).value)
    ensures httpMethod == "POST" && !NanoRoute(body) && NormalizeForArk(WithoutModel(body)).Err? ==>
      a == Respond(500, PROXY_FAILED, Some(NormalizeForArk(WithoutModel(body)).error))
    ensures (&& httpMethod == "POST" && (NanoRoute(body) || NormalizeForArk(WithoutModel(body)).Ok?)
             && (RouteKey(body, env).None? || RouteKey(body, env).value == "")) ==>
      a == Respond(500, MISSING_KEY, None)
  {
    if httpMethod != "POST" then Respond(405, METHOD_NOT_ALLOWED, None)
    else
      var forwarded := WithoutModel(body);
      var nano := Get(body, "model") == Some(Str(NANO_MODEL));
      var apiKey := if nano then env.nanoApiKey else env.arkApiKey;
      var apiBase := if nano then OrDefault(env.nanoBase, DEFAULT_NANO_BASE) else OrDefault(env.arkBase, DEFAULT_ARK_BASE);
      var finalBody := if nano then Ok(forwarded) else NormalizeForArk(forwarded);
      if finalBody.Err? then Respond(500, PROXY_FAILED, Some(finalBody.error))
      else if apiKey.None? || apiKey.value == "" then Respond(500, MISSING_KEY, None)
      else Forward(apiBase, "Bearer " + StripBearer(apiKey.value), finalBody.value)
  }

  /** A POST with a key configured for its route is forwarded unless the
      Ark normalisation throws; the missing-key check comes after it. */
  lemma ForwardedWhenConfigured(body: map<string, Value>, env: ProxyEnv)
    requires var nano := Get(body, "model") == Some(Str(NANO_MODEL));
      var key := if nano then env.nanoApiKey else env.arkApiKey;
      key.Some? && key.value != ""
    ensures var a := HandleGenerateImage("POST", body, env);
      a.Forward? <==> Get(body, "model") == Some(Str(NANO_MODEL)) || NormalizeForArk(WithoutModel(body)).Ok?
  {
  }

  /** The Ark body never carries width, height or an aspect ratio. */
  lemma ArkBodyHasOnlySize(body: map<string, Value>, env: ProxyEnv)
    requires Get(body, "model") != Some(Str(NANO_MODEL))
    ensures var a := HandleGenerateImage("POST", body, env);
      a.Forward? ==> forall k :: k in CLIENT_ONLY_KEYS ==> k !in a.body
  {
  }
}
