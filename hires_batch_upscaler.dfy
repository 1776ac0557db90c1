/** The batch hires-fix upscaler: `create_payload`, which turns the generation
    parameters read back from a PNG into a txt2img request with the hires fix
    enabled, or refuses them; and the driver's name rules, which pick the
    PNG files to process and name the upscaled output. */
module HiresBatchUpscaler {
  import opened Wrappers
  import opened PyNumbers
  import PyStrings

  // ---------------------------------------------------------------------------
  // Configuration
  // ---------------------------------------------------------------------------

  /** The hires-fix settings of the script. `hrSecondPassSteps` is `None` for
      Python's `None` ("use the image's own sampling steps"). */
  datatype Config = Config(
    hrUpscaler: string,
    denoisingStrength: Float,
    hrScale: int,
    hrSecondPassSteps: Option<int>)

  /** The values the script is shipped with. */
  const Configured: Config := Config("4x-UltraSharp", Float("0.2"), 2, Some(20))

  // ---------------------------------------------------------------------------
  // Reading the parameters
  // ---------------------------------------------------------------------------

  /** The generation parameters of one image, by name ("Sampler", "Steps",
      "Size-1", ...). */
  type Parameters = map<string, string>

  /** `parameters.get(key)`. */
  function Get(p: Parameters, key: string): Option<string> {
    if key in p then Some(p[key]) else None
  }

  /** Python truthiness of what `get` returned: present and non-empty. */
  predicate Truthy(v: Option<string>) {
    v.Some? && v.value != ""
  }

  /** `int(parameters.get(key)) if parameters.get(key) else None`, failing with
      `key` where `int` raises `ValueError`. */
  function IntField(p: Parameters, key: string): Result<Option<int>, string> {
    var raw := Get(p, key);
    if !Truthy(raw) then Success(None)
    else
      match ParseInt(raw.value)
      case Some(n) => Success(Some(n))
      case None => Failure(key)
  }

  /** `float(parameters.get(key)) if parameters.get(key) else None`, failing
      with `key` where `float` raises `ValueError`. */
  function FloatField(p: Parameters, key: string): Result<Option<Float>, string> {
    var raw := Get(p, key);
    if !Truthy(raw) then Success(None)
    else
      match ParseFloat(raw.value)
      case Some(x) => Success(Some(x))
      case None => Failure(key)
  }

  /** The `required` dictionary: the six request fields that must be present. */
  datatype Required = Required(
    samplerName: Option<string>,
    steps: Option<int>,
    cfgScale: Option<Float>,
    seed: Option<int>,
    width: Option<int>,
    height: Option<int>)

  /** Builds `required`, field by field in the order of the dictionary display;
      the first conversion that raises ends it with the key it read. */
  function ReadRequired(p: Parameters): Result<Required, string> {
    var samplerName := Get(p, "Sampler");
    var steps :- IntField(p, "Steps");
    var cfgScale :- FloatField(p, "CFG scale");
    var seed :- IntField(p, "Seed");
    var width :- IntField(p, "Size-1");
    var height :- IntField(p, "Size-2");
    Success(Required(samplerName, steps, cfgScale, seed, width, height))
  }

  // ---------------------------------------------------------------------------
  // The missing-field check
  // ---------------------------------------------------------------------------

  /** A value held in `required`. */
  datatype PyValue = PyNone | PyStr(s: string) | PyInt(i: int) | PyFloat(f: Float)

  function StrValue(v: Option<string>): PyValue {
    if v.Some? then PyStr(v.value) else PyNone
  }

  function IntValue(v: Option<int>): PyValue {
    if v.Some? then PyInt(v.value) else PyNone
  }

  function FloatValue(v: Option<Float>): PyValue {
    if v.Some? then PyFloat(v.value) else PyNone
  }

  /** `required.items()`, in insertion order. */
  function Items(r: Required): seq<(string, PyValue)> {
    [ ("sampler_name", StrValue(r.samplerName)),
      ("steps", IntValue(r.steps)),
      ("cfg_scale", FloatValue(r.cfgScale)),
      ("seed", IntValue(r.seed)),
      ("width", IntValue(r.width)),
      ("height", IntValue(r.height)) ]
  }

  /** `v is None or v == ""`. */
  predicate IsBlank(v: PyValue) {
    v == PyNone || v == PyStr("")
  }

  /** `[k for k, v in items if v is None or v == ""]`. */
  function MissingKeys(items: seq<(string, PyValue)>): (r: seq<string>)
    ensures |r| <= |items|
  {
    if items == [] then []
    else MissingOne(items[0]) + MissingKeys(items[1..])
  }

  /** The key of one item if its value is blank. */
  function MissingOne(item: (string, PyValue)): seq<string> {
    if IsBlank(item.1) then [item.0] else []
  }

  /** A key is in the missing list exactly when some item with that key holds
      a blank value. */
  lemma {:induction false} MissingKeysMembers(items: seq<(string, PyValue)>)
    ensures forall k :: k in MissingKeys(items) <==>
      exists i :: 0 <= i < |items| && items[i].0 == k && IsBlank(items[i].1)
  {
    if items != [] {
      MissingKeysMembers(items[1..]);
      forall k | k in MissingKeys(items)
        ensures exists i :: 0 <= i < |items| && items[i].0 == k && IsBlank(items[i].1)
      {
        if k !in MissingOne(items[0]) {
          var i :| 0 <= i < |items[1..]| && items[1..][i].0 == k && IsBlank(items[1..][i].1);
          assert items[i + 1] == items[1..][i];
        }
      }
      forall k, i | 0 <= i < |items| && items[i].0 == k && IsBlank(items[i].1)
        ensures k in MissingKeys(items)
      {
        if i > 0 {
          assert items[1..][i - 1] == items[i];
        }
      }
    }
  }

  /** The missing list names, in dictionary order, exactly the fields that
      are `None` or the empty string. */
  lemma MissingKeysOfRequired(r: Required)
    ensures MissingKeys(Items(r)) ==
      (if IsBlank(StrValue(r.samplerName)) then ["sampler_name"] else []) +
      ((if r.steps.None? then ["steps"] else []) +
      ((if r.cfgScale.None? then ["cfg_scale"] else []) +
      ((if r.seed.None? then ["seed"] else []) +
      ((if r.width.None? then ["width"] else []) +
      (if r.height.None? then ["height"] else [])))))
  {
    var items := Items(r);
    assert MissingKeys(items[5..]) == MissingOne(items[5]) by {
      assert items[5..][1..] == [];
    }
    assert MissingKeys(items[4..]) == MissingOne(items[4]) + MissingKeys(items[5..]) by {
      assert items[4..][1..] == items[5..];
    }
    assert MissingKeys(items[3..]) == MissingOne(items[3]) + MissingKeys(items[4..]) by {
      assert items[3..][1..] == items[4..];
    }
    assert MissingKeys(items[2..]) == MissingOne(items[2]) + MissingKeys(items[3..]) by {
      assert items[2..][1..] == items[3..];
    }
    assert MissingKeys(items[1..]) == MissingOne(items[1]) + MissingKeys(items[2..]) by {
      assert items[1..][1..] == items[2..];
    }
  }

  /** An empty missing list means every field holds a value. */
  lemma NothingMissing(r: Required)
    requires MissingKeys(Items(r)) == []
    ensures Complete(r)
  {
    MissingKeysOfRequired(r);
  }

  /** Every field of `required` holds a value. */
  predicate Complete(r: Required) {
    && r.samplerName.Some? && r.samplerName.value != ""
    && r.steps.Some? && r.cfgScale.Some? && r.seed.Some? && r.width.Some? && r.height.Some?
  }

  // ---------------------------------------------------------------------------
  // The request
  // ---------------------------------------------------------------------------

  /** The txt2img request body: the fields of `required`, the two prompts and
      the hires-fix settings. */
  datatype Payload = Payload(
    samplerName: string,
    steps: int,
    cfgScale: Float,
    seed: int,
    width: int,
    height: int,
    prompt: Option<string>,
    negativePrompt: Option<string>,
    enableHr: bool,
    denoisingStrength: Float,
    hrScale: int,
    hrUpscaler: string,
    hrSecondPassSteps: int)

  /** What `create_payload` does with one image's parameters: `None` after a
      numeric conversion raised (the key that raised is kept), `None` after
      the missing-field check failed (the missing list is kept), or the
      request. */
  datatype Outcome = InvalidNumber(key: string) | MissingParameters(keys: seq<string>) | Built(payload: Payload)

  /** `HR_SECOND_PASS_STEPS or steps`: `None` and `0` are falsy. */
  function SecondPassSteps(setting: Option<int>, steps: int): int {
    if setting.Some? && setting.value != 0 then setting.value else steps
  }

  /** The dictionary display that makes the request. */
  function BuildPayload(cfg: Config, p: Parameters, r: Required): Payload
    requires Complete(r)
  {
    Payload(
      r.samplerName.value, r.steps.value, r.cfgScale.value, r.seed.value, r.width.value, r.height.value,
      Get(p, "Prompt"), Get(p, "Negative prompt"),
      true, cfg.denoisingStrength, cfg.hrScale, cfg.hrUpscaler,
      SecondPassSteps(cfg.hrSecondPassSteps, r.steps.value))
  }

  /** `create_payload(parameters)` under the configuration `cfg`. */
  function CreatePayload(cfg: Config, p: Parameters): Outcome {
    match ReadRequired(p)
    case Failure(key) => InvalidNumber(key)
    case Success(r) =>
      var missing := MissingKeys(Items(r));
      if missing != [] then MissingParameters(missing)
      else
        NothingMissing(r);
        Built(BuildPayload(cfg, p, r))
  }

  // ---------------------------------------------------------------------------
  // What create_payload promises, stated on the raw parameters
  // ---------------------------------------------------------------------------

  /** The parameters that are converted to numbers, in the order they are read. */
  const NumericKeys: seq<string> := ["Steps", "CFG scale", "Seed", "Size-1", "Size-2"]

  /** The value under `key` is present and non-empty, and its conversion
      (`float` for "CFG scale", `int` for the others) raises. */
  predicate BadNumber(p: Parameters, key: string) {
    Truthy(Get(p, key)) && (if key == "CFG scale" then ParseFloat(p[key]).None? else ParseInt(p[key]).None?)
  }

  /** No numeric parameter fails to convert. */
  predicate NumbersConvert(p: Parameters) {
    forall i :: 0 <= i < |NumericKeys| ==> !BadNumber(p, NumericKeys[i])
  }

  /** Absent or empty. */
  predicate Blank(p: Parameters, key: string) {
    !Truthy(Get(p, key))
  }

  /** The request fields whose source parameter is absent or empty, in the
      order of the request. */
  function ExpectedMissing(p: Parameters): seq<string> {
    (if Blank(p, "Sampler") then ["sampler_name"] else []) +
    ((if Blank(p, "Steps") then ["steps"] else []) +
    ((if Blank(p, "CFG scale") then ["cfg_scale"] else []) +
    ((if Blank(p, "Seed") then ["seed"] else []) +
    ((if Blank(p, "Size-1") then ["width"] else []) +
    (if Blank(p, "Size-2") then ["height"] else [])))))
  }

  /** A conversion that raises rejects the parameters, whatever else is
      missing; the key reported is the first numeric key, in reading order,
      whose value does not convert. */
  lemma RejectsBadNumber(cfg: Config, p: Parameters)
    ensures CreatePayload(cfg, p).InvalidNumber? <==> !NumbersConvert(p)
    ensures CreatePayload(cfg, p).InvalidNumber? ==>
      exists i :: 0 <= i < |NumericKeys| && NumericKeys[i] == CreatePayload(cfg, p).key &&
        BadNumber(p, NumericKeys[i]) && forall j :: 0 <= j < i ==> !BadNumber(p, NumericKeys[j])
  {
    ReadRequiredFails(p);
  }

  /** Reading `required` fails exactly when some numeric value does not
      convert, and with the first such key. */
  lemma ReadRequiredFails(p: Parameters)
    ensures ReadRequired(p).Failure? <==> !NumbersConvert(p)
    ensures ReadRequired(p).Failure? ==>
      exists i :: 0 <= i < |NumericKeys| && NumericKeys[i] == ReadRequired(p).error &&
        BadNumber(p, NumericKeys[i]) && forall j :: 0 <= j < i ==> !BadNumber(p, NumericKeys[j])
  {
    var o := ReadRequired(p);
    if BadNumber(p, "Steps") {
      assert BadNumber(p, NumericKeys[0]);
      assert o == Failure("Steps");
    } else if BadNumber(p, "CFG scale") {
      assert BadNumber(p, NumericKeys[1]);
      assert o == Failure("CFG scale");
    } else if BadNumber(p, "Seed") {
      assert BadNumber(p, NumericKeys[2]);
      assert o == Failure("Seed");
    } else if BadNumber(p, "Size-1") {
      assert BadNumber(p, NumericKeys[3]);
      assert o == Failure("Size-1");
    } else if BadNumber(p, "Size-2") {
      assert BadNumber(p, NumericKeys[4]);
      assert o == Failure("Size-2");
    } else {
      assert o.Success?;
    }
  }

  /** With every number converting, `required` holds the sampler as read and
      each numeric field converted, or `None` where its parameter is absent or
      empty. */
  lemma ReadRequiredConverts(p: Parameters)
    requires NumbersConvert(p)
    ensures ReadRequired(p).Success?
    ensures var r := ReadRequired(p).value;
      && r.samplerName == Get(p, "Sampler")
      && r.steps == (if Blank(p, "Steps") then None else ParseInt(p["Steps"]))
      && r.cfgScale == (if Blank(p, "CFG scale") then None else ParseFloat(p["CFG scale"]))
      && r.seed == (if Blank(p, "Seed") then None else ParseInt(p["Seed"]))
      && r.width == (if Blank(p, "Size-1") then None else ParseInt(p["Size-1"]))
      && r.height == (if Blank(p, "Size-2") then None else ParseInt(p["Size-2"]))
  {
    assert !BadNumber(p, NumericKeys[0]) && !BadNumber(p, NumericKeys[1]) && !BadNumber(p, NumericKeys[2]);
    assert !BadNumber(p, NumericKeys[3]) && !BadNumber(p, NumericKeys[4]);
  }

  /** With every number converting, the parameters are refused exactly when
      some required field is absent or empty, and the missing list names those
      fields and no others, in request order. A value that converts, even to
      0, is not missing. */
  lemma ReportsMissing(cfg: Config, p: Parameters)
    requires NumbersConvert(p)
    ensures CreatePayload(cfg, p).Built? <==> ExpectedMissing(p) == []
    ensures !CreatePayload(cfg, p).Built? ==> CreatePayload(cfg, p) == MissingParameters(ExpectedMissing(p))
  {
    ReadRequiredConverts(p);
    var r := ReadRequired(p).value;
    MissingKeysOfRequired(r);
    assert !BadNumber(p, NumericKeys[0]) && !BadNumber(p, NumericKeys[1]) && !BadNumber(p, NumericKeys[2]);
    assert !BadNumber(p, NumericKeys[3]) && !BadNumber(p, NumericKeys[4]);
    assert IsBlank(StrValue(r.samplerName)) == Blank(p, "Sampler");
  }

  /** An accepted request carries the sampler as read, and the steps, CFG
      scale, seed, width and height as converted from "Steps", "CFG scale",
      "Seed", "Size-1" and "Size-2"; each of these was present and non-empty. */
  lemma PayloadCopiesRequired(cfg: Config, p: Parameters)
    requires CreatePayload(cfg, p).Built?
    ensures var pl := CreatePayload(cfg, p).payload;
      && Truthy(Get(p, "Sampler")) && pl.samplerName == p["Sampler"]
      && Truthy(Get(p, "Steps")) && ParseInt(p["Steps"]) == Some(pl.steps)
      && Truthy(Get(p, "CFG scale")) && ParseFloat(p["CFG scale"]) == Some(pl.cfgScale)
      && Truthy(Get(p, "Seed")) && ParseInt(p["Seed"]) == Some(pl.seed)
      && Truthy(Get(p, "Size-1")) && ParseInt(p["Size-1"]) == Some(pl.width)
      && Truthy(Get(p, "Size-2")) && ParseInt(p["Size-2"]) == Some(pl.height)
  {
    RejectsBadNumber(cfg, p);
    ReadRequiredConverts(p);
    var r := ReadRequired(p).value;
    MissingKeysOfRequired(r);
  }

  /** The keys `required` is built from. */
  const RequiredKeys: seq<string> := ["Sampler", "Steps", "CFG scale", "Seed", "Size-1", "Size-2"]

  lemma SameRequiredKeys(p: Parameters, q: Parameters)
    requires forall i :: 0 <= i < |RequiredKeys| ==> Get(p, RequiredKeys[i]) == Get(q, RequiredKeys[i])
    ensures ReadRequired(p) == ReadRequired(q)
  {
    assert Get(p, RequiredKeys[0]) == Get(q, RequiredKeys[0]) && Get(p, RequiredKeys[1]) == Get(q, RequiredKeys[1]);
    assert Get(p, RequiredKeys[2]) == Get(q, RequiredKeys[2]) && Get(p, RequiredKeys[3]) == Get(q, RequiredKeys[3]);
    assert Get(p, RequiredKeys[4]) == Get(q, RequiredKeys[4]) && Get(p, RequiredKeys[5]) == Get(q, RequiredKeys[5]);
  }

  /** The prompts are copied unchecked: absent stays absent. */
  lemma PayloadCopiesPrompts(cfg: Config, p: Parameters)
    requires CreatePayload(cfg, p).Built?
    ensures CreatePayload(cfg, p).payload.prompt == Get(p, "Prompt")
    ensures CreatePayload(cfg, p).payload.negativePrompt == Get(p, "Negative prompt")
  {
  }

  /** Whether the parameters are accepted does not depend on the prompts:
      removing both gives the same verdict. */
  lemma PromptsNotRequired(cfg: Config, p: Parameters)
    ensures CreatePayload(cfg, p - {"Prompt", "Negative prompt"}).Built? <==> CreatePayload(cfg, p).Built?
  {
    var q := p - {"Prompt", "Negative prompt"};
    forall i | 0 <= i < |RequiredKeys| ensures Get(p, RequiredKeys[i]) == Get(q, RequiredKeys[i]) {
      assert RequiredKeys[i] != "Prompt" && RequiredKeys[i] != "Negative prompt";
    }
    SameRequiredKeys(p, q);
  }

  /** The hires fix is on, with the configured strength, scale and upscaler;
      the second pass uses the configured step count when it is truthy and the
      image's own steps otherwise. */
  lemma PayloadHiresSettings(cfg: Config, p: Parameters)
    requires CreatePayload(cfg, p).Built?
    ensures var pl := CreatePayload(cfg, p).payload;
      && pl.enableHr
      && pl.denoisingStrength == cfg.denoisingStrength
      && pl.hrScale == cfg.hrScale
      && pl.hrUpscaler == cfg.hrUpscaler
      && (cfg.hrSecondPassSteps.Some? && cfg.hrSecondPassSteps.value != 0 ==> pl.hrSecondPassSteps == cfg.hrSecondPassSteps.value)
      && (cfg.hrSecondPassSteps.None? || cfg.hrSecondPassSteps.value == 0 ==> pl.hrSecondPassSteps == pl.steps)
  {
  }

  /** Under the script's own settings every accepted request asks for the
      "4x-UltraSharp" upscaler at scale 2, strength 0.2 and a 20-step second
      pass, whatever the image's own steps. */
  lemma ConfiguredHiresSettings(p: Parameters)
    requires CreatePayload(Configured, p).Built?
    ensures var pl := CreatePayload(Configured, p).payload;
      && pl.hrUpscaler == "4x-UltraSharp" && pl.hrScale == 2
      && pl.denoisingStrength == Float("0.2") && pl.hrSecondPassSteps == 20
  {
    PayloadHiresSettings(Configured, p);
  }

  /** The parameters `create_payload` looks at. */
  const ReadKeys: seq<string> := RequiredKeys + ["Prompt", "Negative prompt"]

  /** Parameters that agree on the keys `create_payload` reads give the same
      outcome: extra keys have no effect. */
  lemma SameReadKeys(cfg: Config, p: Parameters, q: Parameters)
    requires forall i :: 0 <= i < |ReadKeys| ==> Get(p, ReadKeys[i]) == Get(q, ReadKeys[i])
    ensures CreatePayload(cfg, p) == CreatePayload(cfg, q)
  {
    forall i | 0 <= i < |RequiredKeys| ensures Get(p, RequiredKeys[i]) == Get(q, RequiredKeys[i]) {
      assert ReadKeys[i] == RequiredKeys[i];
    }
    SameRequiredKeys(p, q);
    assert Get(p, ReadKeys[6]) == Get(q, ReadKeys[6]) && Get(p, ReadKeys[7]) == Get(q, ReadKeys[7]);
  }

  // ---------------------------------------------------------------------------
  // File names
  // ---------------------------------------------------------------------------

  /** `filename.lower().endswith(".png")`: the files the batch processes. */
  predicate IsPng(filename: string) {
    PyStrings.EndsWith(PyStrings.Lower(filename), ".png")
  }

  /** A name is processed exactly when it ends in '.' followed by "png" in any
      letter case. */
  lemma IsPngIff(filename: string)
    ensures IsPng(filename) <==>
      var n := |filename|;
      && n >= 4
      && filename[n - 4] == '.'
      && (filename[n - 3] == 'p' || filename[n - 3] == 'P')
      && (filename[n - 2] == 'n' || filename[n - 2] == 'N')
      && (filename[n - 1] == 'g' || filename[n - 1] == 'G')
  {
    var n := |filename|;
    var l := PyStrings.Lower(filename);
    if n >= 4 {
      assert l[n - 4..] == [l[n - 4], l[n - 3], l[n - 2], l[n - 1]];
    }
  }

  /** `f"{os.path.splitext(filename)[0]}_hires.png"`: the name every image
      returned for `filename` is saved under. */
  function OutputName(filename: string): string {
    PyStrings.SplitExt(filename).0 + "_hires.png"
  }

  /** The output name keeps everything of the input name but a final
      extension, ends in "_hires.png" and is itself a name the batch would
      process. */
  lemma OutputNameShape(filename: string)
    ensures var ext := PyStrings.SplitExt(filename).1;
      && |ext| <= |filename|
      && OutputName(filename) == filename[..|filename| - |ext|] + "_hires.png"
      && (ext == "" <==> !PyStrings.HasExtension(filename))
    ensures IsPng(OutputName(filename))
  {
    var o := OutputName(filename);
    IsPngIff(o);
    var (root, ext) := PyStrings.SplitExt(filename);
    assert filename[..|filename| - |ext|] == root;
  }

  /** For "name.png" (any letter case), with some character other than '.'
      before the suffix in the last path component, the output name is
      "name_hires.png". */
  lemma OutputNameOfPng(filename: string)
    requires IsPng(filename)
    requires exists j :: 0 <= j < |filename| - 4 && filename[j] != '.' && PyStrings.Sep !in filename[j..]
    ensures OutputName(filename) == filename[..|filename| - 4] + "_hires.png"
  {
    var n := |filename|;
    IsPngIff(filename);
    var j :| 0 <= j < n - 4 && filename[j] != '.' && PyStrings.Sep !in filename[j..];
    assert PyStrings.HasExtension(filename);
    var (root, ext) := PyStrings.SplitExt(filename);
    assert filename == root + ext;
    assert ext == filename[n - |ext|..];
    if |ext| > 4 {
      assert false;
    } else if |ext| < 4 {
      assert false;
    }
    assert root == filename[..n - 4];
  }

  // ---------------------------------------------------------------------------
  // The driver's loops
  // ---------------------------------------------------------------------------

  /** The names of a directory listing that the batch processes, in listing
      order. */
  function PngFiles(names: seq<string>): (r: seq<string>)
    ensures |r| <= |names|
    ensures forall x :: x in r <==> x in names && IsPng(x)
  {
    if names == [] then []
    else
      var last := names[|names| - 1];
      var init := PngFiles(names[..|names| - 1]);
      assert names == names[..|names| - 1] + [last];
      init + (if IsPng(last) then [last] else [])
  }

  /** `for filename in os.listdir(INPUT_DIR): if filename.lower().endswith(".png"): ...`:
      the names handed to `hires_upscale`, in order. */
  method SelectPng(names: seq<string>) returns (selected: seq<string>)
    ensures selected == PngFiles(names)
  {
    selected := [];
    for i := 0 to |names|
      invariant selected == PngFiles(names[..i])
    {
      assert names[..i + 1][..i] == names[..i];
      if IsPng(names[i]) {
        selected := selected + [names[i]];
      }
    }
    assert names[..|names|] == names;
  }

  /** The save loop of `hires_upscale`: each returned image is written to
      the output directory (a map from file name to content) under
      `OutputName(filename)`, so every image of one input goes to the same
      file and only the last one remains; no other file changes. */
  method SaveImages<Image>(outputs: map<string, Image>, filename: string, images: seq<Image>)
    returns (written: map<string, Image>)
    ensures |images| == 0 ==> written == outputs
    ensures |images| > 0 ==> written == outputs[OutputName(filename) := images[|images| - 1]]
  {
    written := outputs;
    for i := 0 to |images|
      invariant i == 0 ==> written == outputs
      invariant i > 0 ==> written == outputs[OutputName(filename) := images[i - 1]]
    {
      var outputPath := OutputName(filename);
      written := written[outputPath := images[i]];
    }
  }
}
