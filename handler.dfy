/**
 * The decision logic of the `POST /api/generate` handler: seed coercion, the
 * model inputs, the choice between the text-to-image and image-to-image
 * models, the normalisation of the model's output to one image URL, and the
 * order in which the handler fails.
 *
 * The environment (SDK availability, token, model ids) is a `Config` value and
 * the hosted model's `run` call is a function parameter that either returns an
 * output or raises.
 */
module Handler {
  import opened Wrappers
  import opened Builtins
  import opened PromptBuilder

  // ---------------------------------------------------------------------------
  // Values the hosted model may return
  // ---------------------------------------------------------------------------

  /** A value inside the model's output. */
  datatype Value =
    | VNone
    | VBool(b: bool)
    | VInt(i: int)
    | VStr(s: string)
      /** Any other object, known by the text `str()` gives for it and by its truth value. */
    | VObject(text: string, truthy: bool)

  /** Python truthiness. */
  predicate Truthy(v: Value) {
    match v
    case VNone => false
    case VBool(b) => b
    case VInt(i) => i != 0
    case VStr(s) => s != ""
    case VObject(_, t) => t
  }

  /** `str(v)` */
  function ToString(v: Value): string {
    match v
    case VNone => "None"
    case VBool(b) => if b then "True" else "False"
    case VInt(i) => IntToDecimal(i)
    case VStr(s) => s
    case VObject(text, _) => text
  }

  /** Falsy values are exactly `None`, `False`, `0`, `""` and the objects whose truth value is false. */
  lemma FalsyValues(v: Value)
    ensures !Truthy(v) <==> v == VNone || v == VBool(false) || v == VInt(0) || v == VStr("") || (v.VObject? && !v.truthy)
  {
  }

  /** `str()` of the built-in values: `"None"`, `"True"`, `"False"`, a string as it is, an integer in decimal. */
  lemma ToStringCases(s: string, n: int)
    ensures ToString(VNone) == "None"
    ensures ToString(VBool(true)) == "True" && ToString(VBool(false)) == "False"
    ensures ToString(VStr(s)) == s
    ensures ToString(VInt(n)) == IntToDecimal(n)
  {
  }

  /** The shapes the model's output may take. */
  datatype Output =
    | List(items: seq<Value>)
    | Str(text: string)
    | Dict(entries: map<string, Value>)
    | Other

  /**
   * The output as one image URL: the last element of a non-empty list, a
   * string as it is, the `"image"` entry of a dict when it is truthy;
   * nothing for an empty list, a dict without a truthy `"image"`, or any
   * other shape.
   */
  function Normalize(output: Output): (url: Option<string>)
    ensures url.Some? <==> match output
      case List(items) => items != []
      case Str(_) => true
      case Dict(entries) => "image" in entries && Truthy(entries["image"])
      case Other => false
    ensures output.List? && url.Some? ==> url.value == ToString(output.items[|output.items| - 1])
    ensures output.Str? ==> url == Some(output.text)
    ensures output.Dict? && url.Some? ==> url.value == ToString(output.entries["image"])
  {
    if output.List? && output.items != [] then
      Some(ToString(output.items[|output.items| - 1]))
    else if output.Str? then
      Some(output.text)
    else if output.Dict? then
      if "image" in output.entries && Truthy(output.entries["image"]) then Some(ToString(output.entries["image"])) else None
    else
      None
  }

  /** Only the last element of a list matters. */
  lemma NormalizeLastWins(xs: seq<Value>, ys: seq<Value>, v: Value)
    ensures Normalize(List(xs + [v])) == Normalize(List(ys + [v])) == Some(ToString(v))
  {
  }

  /** A list ending in `None` gives the text `"None"`, which is not empty and so passes as a URL. */
  lemma NoneLastItem(xs: seq<Value>)
    ensures Normalize(List(xs + [VNone])) == Some("None")
  {
  }

  /** A truthy string, integer or boolean under `"image"` gives a non-empty URL. */
  lemma DictUrlNonEmpty(entries: map<string, Value>)
    requires "image" in entries && Truthy(entries["image"]) && !entries["image"].VObject?
    ensures Normalize(Dict(entries)).Some? && Normalize(Dict(entries)).value != ""
  {
  }

  /** The documented examples of output normalisation. */
  lemma NormalizeExamples()
    ensures Normalize(List([VStr("a"), VStr("b")])) == Some("b")
    ensures Normalize(Str("url")) == Some("url")
    ensures Normalize(Dict(map["image" := VStr("x")])) == Some("x")
    ensures Normalize(Dict(map["image" := VNone])) == None
    ensures Normalize(Dict(map[])) == None
    ensures Normalize(List([])) == None
    ensures Normalize(Str("")) == Some("")
  {
  }

  // ---------------------------------------------------------------------------
  // Seed coercion
  // ---------------------------------------------------------------------------

  /** `_coerce_seed`: `None` for a missing or empty seed and for anything `int()` rejects; it never fails. */
  function CoerceSeed(raw: Option<string>): (seed: Option<int>)
    ensures raw.None? || raw == Some("") ==> seed.None?
    ensures seed.Some? ==> raw.Some? && !AllSpace(raw.value)
  {
    if raw.None? || raw.value == "" then None else ParseInt(raw.value)
  }

  /** Every integer within the digit limit, written in decimal, coerces back to itself. */
  lemma CoerceSeedRoundTrip(n: int)
    requires WithinDigitLimit(n)
    ensures CoerceSeed(Some(IntToDecimal(n))) == Some(n)
  {
    IntRoundTrip(n);
  }

  /** `int()` ignores the whitespace it skips around the digits, so a padded decimal coerces back to its integer too. */
  lemma CoerceSeedPadded(n: int, before: string, after: string)
    requires WithinDigitLimit(n)
    requires AllIntSpace(before) && AllIntSpace(after)
    ensures CoerceSeed(Some(before + IntToDecimal(n) + after)) == Some(n)
  {
    var s := IntToDecimal(n);
    assert AllSpace(before) && AllSpace(after);
    assert !HasSeparatorControl(before + s + after) by {
      forall k | 0 <= k < |before + s + after|
        ensures !IsSeparatorControl((before + s + after)[k])
      {
        if k < |before| {
          assert (before + s + after)[k] == before[k];
        } else if k < |before| + |s| {
          assert (before + s + after)[k] == s[k - |before|];
        } else {
          assert (before + s + after)[k] == after[k - |before| - |s|];
        }
      }
    }
    StripPadded(before, s, after);
    StripKeeps(s);
    IntRoundTrip(n);
  }

  /** A seed of more than `MaxStrDigits` digits makes `int()` raise, so it is dropped. */
  lemma CoerceSeedTooLong(raw: string)
    requires IsDigitRun(raw) && DigitCount(raw) > MaxStrDigits
    ensures CoerceSeed(Some(raw)) == None
  {
    ParseIntDigitLimit(raw);
  }

  /** A seed of 4301 zeros is dropped, although its value is 0. */
  lemma CoerceSeedZerosExample()
    ensures CoerceSeed(Some(seq(MaxStrDigits + 1, _ => '0'))) == None
  {
    var zeros := seq(MaxStrDigits + 1, _ => '0');
    DigitCountAllDigits(zeros);
    CoerceSeedTooLong(zeros);
  }

  /** A blank seed is dropped. */
  lemma CoerceSeedBlank(raw: string)
    requires AllSpace(raw)
    ensures CoerceSeed(Some(raw)) == None
  {
  }

  /** `"42"` becomes 42, and `"abc"` and `"\x1c42"` are dropped. */
  lemma CoerceSeedExamples()
    ensures CoerceSeed(Some("42")) == Some(42)
    ensures CoerceSeed(Some("abc")) == None
    ensures CoerceSeed(Some("\U{1C}42")) == None
  {
    ParseIntSeparator([], "42", '\U{1C}');
    var good, bad := "42", "abc";
    assert good[0] == '4' && good[1] == '2' && good[..1] == "4";
    StripKeeps(good);
    assert forall k :: 0 <= k < |good| ==> IsDigit(good[k]);
    assert DigitRunValue(good) == 10 * DigitRunValue("4") + 2;
    assert bad[0] == 'a' && bad[|bad| - 1] == 'c';
    StripKeeps(bad);
    assert !IsDigit(bad[0]) && bad[0] != '_';
  }

  // ---------------------------------------------------------------------------
  // The request, the configuration and the call to the model
  // ---------------------------------------------------------------------------

  /** An uploaded reference image. */
  datatype Upload = Upload(content: seq<bv8>)

  /** A value in the model's input dictionary. */
  datatype Input = Text(text: string) | Number(n: int) | File(upload: Upload)

  type Inputs = map<string, Input>

  /** One `client.run(model, input=inputs)` call. */
  datatype Call = Call(model: string, inputs: Inputs)

  /** What the call does: return an output, or raise with a message. */
  datatype Upstream = Returned(output: Output) | Raised(message: string)

  /**
   * The process configuration: whether the SDK could be imported, and the
   * `REPLICATE_API_TOKEN`, `REPLICATE_MODEL` and `REPLICATE_IMAGE_TO_IMAGE_MODEL`
   * environment variables (`None` when unset).
   */
  datatype Config = Config(sdkInstalled: bool, apiToken: Option<string>, textModel: Option<string>, imageModel: Option<string>)

  /** The form fields of one request. */
  datatype Request = Request(
    referenceImage: Option<Upload>,
    gender: Option<string>,
    animal: Option<string>,
    expression: Option<string>,
    pose: Option<string>,
    outfit: Option<string>,
    lighting: Option<string>,
    camera: Option<string>,
    mood: Option<string>,
    background: Option<string>,
    seed: Option<string>)

  /** The response: `{image_url, prompt}` with status 200, or an error status and its detail. */
  datatype Outcome = Ok(imageUrl: string, prompt: string) | Err(status: nat, detail: string)

  const DefaultTextModel := "black-forest-labs/flux-1.1-pro"
  const SdkMissing := "Replicate SDK is not installed. Run: pip install -r backend/requirements.txt"
  const TokenMissing := "REPLICATE_API_TOKEN is not set. Provide it in your environment."
  const GenerationFailed := "Generation failed: "
  const NoImageUrl := "Model returned no image URL"

  /** The attribute dictionary the handler passes to `build_prompt`. */
  function FieldsOf(req: Request): Fields {
    map[
      Gender := req.gender, Animal := req.animal, Expression := req.expression, Pose := req.pose,
      Outfit := req.outfit, Lighting := req.lighting, Camera := req.camera, Mood := req.mood,
      Background := req.background]
  }

  /** The dictionary holds all nine attributes, each with the form field of the same name. */
  lemma FieldsOfEntries(req: Request)
    ensures FieldsOf(req).Keys == {Gender, Animal, Expression, Pose, Outfit, Lighting, Camera, Mood, Background}
    ensures Get(FieldsOf(req), Gender) == req.gender && Get(FieldsOf(req), Animal) == req.animal
    ensures Get(FieldsOf(req), Expression) == req.expression && Get(FieldsOf(req), Pose) == req.pose
    ensures Get(FieldsOf(req), Outfit) == req.outfit && Get(FieldsOf(req), Lighting) == req.lighting
    ensures Get(FieldsOf(req), Camera) == req.camera && Get(FieldsOf(req), Mood) == req.mood
    ensures Get(FieldsOf(req), Background) == req.background
  {
  }

  /** `os.getenv("REPLICATE_MODEL", default)`: the default applies only when the variable is unset. */
  function TextModel(cfg: Config): (model: string)
    ensures cfg.textModel.None? ==> model == DefaultTextModel
    ensures cfg.textModel.Some? ==> model == cfg.textModel.value
  {
    cfg.textModel.GetOr(DefaultTextModel)
  }

  /** Image-to-image runs when a reference image came with the request and an image-to-image model id is set and non-empty. */
  predicate UsesImageToImage(req: Request, cfg: Config) {
    req.referenceImage.Some? && cfg.imageModel.Some? && cfg.imageModel.value != ""
  }

  /** The inputs common to both models: always the prompt, and the seed exactly when it coerces. */
  function BaseInputs(prompt: string, seed: Option<string>): (inputs: Inputs)
    ensures inputs.Keys <= {"prompt", "seed"} && "image" !in inputs
    ensures "prompt" in inputs && inputs["prompt"] == Text(prompt)
    ensures "seed" in inputs <==> CoerceSeed(seed).Some?
    ensures "seed" in inputs ==> inputs["seed"] == Number(CoerceSeed(seed).value)
  {
    var inputs := map["prompt" := Text(prompt)];
    match CoerceSeed(seed)
    case Some(n) => inputs["seed" := Number(n)]
    case None => inputs
  }

  /** The call the handler makes once the SDK and the token are in place. */
  function PlannedCall(req: Request, cfg: Config): Call {
    var base := BaseInputs(PositivePrompt(FieldsOf(req)), req.seed);
    if UsesImageToImage(req, cfg) then
      Call(cfg.imageModel.value, base["image" := File(req.referenceImage.value)])
    else
      Call(TextModel(cfg), base)
  }

  /**
   * Image-to-image is chosen exactly when a reference image is present and
   * the image-to-image model id is non-empty; it then receives the base
   * inputs plus `"image"`, and the base inputs themselves are unchanged.
   * Otherwise the text model receives the base inputs only.
   */
  lemma ModelSelection(req: Request, cfg: Config)
    ensures var call, base := PlannedCall(req, cfg), BaseInputs(PositivePrompt(FieldsOf(req)), req.seed);
      && ("image" in call.inputs <==> req.referenceImage.Some? && cfg.imageModel.Some? && cfg.imageModel.value != "")
      && (UsesImageToImage(req, cfg) ==>
            && call.model == cfg.imageModel.value
            && call.inputs["image"] == File(req.referenceImage.value)
            && call.inputs - {"image"} == base)
      && (!UsesImageToImage(req, cfg) ==> call.model == TextModel(cfg) && call.inputs == base)
  {
    var base := BaseInputs(PositivePrompt(FieldsOf(req)), req.seed);
    if UsesImageToImage(req, cfg) {
      assert base["image" := File(req.referenceImage.value)] - {"image"} == base;
    }
  }

  // ---------------------------------------------------------------------------
  // generate_image
  // ---------------------------------------------------------------------------

  /**
   * `generate_image`. Besides the response it returns the call made to the
   * model, `None` when the handler failed before calling it.
   */
  method GenerateImage(req: Request, cfg: Config, run: Call -> Upstream) returns (outcome: Outcome, called: Option<Call>)
    // a missing SDK is reported before the token is looked at
    ensures !cfg.sdkInstalled ==> outcome == Err(500, SdkMissing) && called.None?
    ensures cfg.sdkInstalled && (cfg.apiToken.None? || cfg.apiToken.value == "") ==> outcome == Err(400, TokenMissing) && called.None?
    // otherwise exactly one call is made, the planned one
    ensures called.Some? <==> cfg.sdkInstalled && cfg.apiToken.Some? && cfg.apiToken.value != ""
    ensures called.Some? ==> called.value == PlannedCall(req, cfg)
    // a raising call is reported as 502, whatever else holds
    ensures called.Some? && run(called.value).Raised? ==> outcome == Err(502, GenerationFailed + run(called.value).message)
    // a returned output succeeds exactly when it normalises to a non-empty URL
    ensures called.Some? && run(called.value).Returned? ==>
      var url := Normalize(run(called.value).output);
      outcome == if url.Some? && url.value != "" then Ok(url.value, PositivePrompt(FieldsOf(req))) else Err(500, NoImageUrl)
    ensures outcome.Ok? ==> outcome.imageUrl != "" && outcome.prompt == PositivePrompt(FieldsOf(req))
    ensures outcome.Err? ==> outcome.status in {400, 500, 502}
  {
    var positive, negative := BuildPrompt(FieldsOf(req));

    if !cfg.sdkInstalled {
      return Err(500, SdkMissing), None;
    }

    var apiToken := cfg.apiToken;
    if apiToken.None? || apiToken.value == "" {
      return Err(400, TokenMissing), None;
    }

    var textModel := cfg.textModel.GetOr(DefaultTextModel);
    var imageModel := cfg.imageModel;

    var baseInputs: Inputs := map["prompt" := Text(positive)];
    var maybeSeed := CoerceSeed(req.seed);
    if maybeSeed.Some? {
      baseInputs := baseInputs["seed" := Number(maybeSeed.value)];
    }
    assert baseInputs == BaseInputs(positive, req.seed);

    var call: Call;
    if req.referenceImage.Some? && imageModel.Some? && imageModel.value != "" {
      var inputs := baseInputs;
      inputs := inputs["image" := File(req.referenceImage.value)];
      call := Call(imageModel.value, inputs);
    } else {
      call := Call(textModel, baseInputs);
    }
    assert call == PlannedCall(req, cfg);
    called := Some(call);

    var result := run(call);
    if result.Raised? {
      return Err(502, GenerationFailed + result.message), called;
    }

    var imageUrl := Normalize(result.output);
    if imageUrl.None? || imageUrl.value == "" {
      return Err(500, NoImageUrl), called;
    }

    outcome := Ok(imageUrl.value, positive);
  }
}
