/** Concrete cases of the upscaler's rules, worked through on literal inputs. */
module HiresBatchScenarios {
  import opened Wrappers
  import opened PyNumbers
  import opened HiresBatchUpscaler

  // `int()` on the literals the web UI writes, and on a few it does not.

  lemma ZeroParses()
    ensures ParseInt("0") == Some(0)
  {
    ParseIntToString(0);
    assert IntToString(0) == "0";
  }

  lemma NegativeParses()
    ensures ParseInt("-1") == Some(-1)
  {
    ParseIntToString(-1);
    assert IntToString(-1) == "-1";
  }

  lemma UnderscoreParses()
    ensures ParseInt("1_000") == Some(1000)
  {
    assert Strip("1_000") == "1_000";
    assert IsDigitPart("1_000");
    assert DropUnderscores("1_000") == "1000";
    ShowValue(1000);
    assert Show(1000) == "1000";
  }

  lemma PaddedParses()
    ensures ParseInt(" -42\n") == Some(-42)
  {
    assert IntToString(-42) == "-42";
    assert IsSpace(" "[0]) && IsSpace("\n"[0]);
    ParseIntPadded(" ", -42, "\n");
    assert " " + IntToString(-42) + "\n" == " -42\n";
  }

  lemma SizeParses()
    ensures ParseInt("512") == Some(512)
  {
    ParseIntToString(512);
    assert IntToString(512) == "512";
  }

  /** Underscores only between digits, and no fraction, for `int()`. */
  lemma IntRejects()
    ensures ParseInt("1__0") == None
    ensures ParseInt("_1") == None
    ensures ParseInt("1_") == None
    ensures ParseInt("1.5") == None
    ensures ParseInt("- 1") == None
  {
    assert Strip("1__0") == "1__0" && Strip("_1") == "_1" && Strip("1_") == "1_";
    assert Strip("1.5") == "1.5" && Strip("- 1") == "- 1";
    assert !IsDigitPart("1__0"[2..]);
    assert !IsDigitPart("1_"[2..]);
    assert !IsDigitPart("1.5"[1..]);
  }

  /** An information separator is not white space to `int()`. */
  lemma SeparatorNotStripped()
    ensures ParseInt("\U{1C}5") == None
  {
    assert !IsSpace("\U{1C}5"[0]);
    assert Strip("\U{1C}5") == "\U{1C}5";
  }

  /** `float()` accepts an exponent and a bare fraction, but not an
      exponent alone. */
  lemma FloatSyntax()
    ensures ParseFloat("1e5").Some?
    ensures ParseFloat(".5").Some?
    ensures ParseFloat("e5") == None
  {
    assert Strip("1e5") == "1e5" && Strip(".5") == ".5" && Strip("e5") == "e5";
    assert ExponentStart("1e5") == 1;
    assert "1e5"[1..] == "e5" && "e5"[1..] == "5";
    assert PointIndex(".5") == 0 && ".5"[1..] == "5";
    assert ExponentStart("e5") == 0;
  }

  /** Infinity is accepted in any letter case, with a sign. */
  lemma FloatInfinity()
    ensures ParseFloat("-Inf").Some?
  {
    assert Strip("-Inf") == "-Inf";
    assert "Inf"[1..] == "nf" && "nf"[1..] == "f";
  }

  /** The parameters of a 512x512 image as the web UI reports them, with the
      given "Sampler" and "Steps" values. */
  function Sample(sampler: string, steps: string): Parameters {
    map["Sampler" := sampler, "Steps" := steps, "CFG scale" := "7", "Seed" := "1",
        "Size-1" := "512", "Size-2" := "512", "Prompt" := "a cat"]
  }

  lemma SampleNumbers()
    ensures ParseFloat("7").Some? && ParseInt("1").Some? && ParseInt("512").Some?
  {
    assert ParseFloat("7") == Some(Float("7"));
    ParseIntToString(1);
    assert IntToString(1) == "1";
    SizeParses();
  }

  lemma SampleConverts(sampler: string, steps: string)
    requires steps == "" || ParseInt(steps).Some?
    ensures NumbersConvert(Sample(sampler, steps))
  {
    var p := Sample(sampler, steps);
    SampleFixedConvert(sampler, steps);
    assert !BadNumber(p, NumericKeys[0]) by { assert Get(p, "Steps") == Some(steps); }
  }

  /** The sample's values other than "Steps" all convert. */
  lemma SampleFixedConvert(sampler: string, steps: string)
    ensures forall i :: 1 <= i < |NumericKeys| ==> !BadNumber(Sample(sampler, steps), NumericKeys[i])
  {
    var p := Sample(sampler, steps);
    SampleNumbers();
    assert !BadNumber(p, NumericKeys[1]) by { assert Get(p, "CFG scale") == Some("7"); }
    assert !BadNumber(p, NumericKeys[2]) by { assert Get(p, "Seed") == Some("1"); }
    assert !BadNumber(p, NumericKeys[3]) by { assert Get(p, "Size-1") == Some("512"); }
    assert !BadNumber(p, NumericKeys[4]) by { assert Get(p, "Size-2") == Some("512"); }
  }

  /** The sample is accepted whenever its sampler is non-empty and its steps
      convert, and the request carries the sampler and the converted steps. */
  lemma SampleAccepted(cfg: Config, sampler: string, steps: string)
    requires sampler != "" && steps != "" && ParseInt(steps).Some?
    ensures CreatePayload(cfg, Sample(sampler, steps)).Built?
    ensures CreatePayload(cfg, Sample(sampler, steps)).payload.samplerName == sampler
    ensures CreatePayload(cfg, Sample(sampler, steps)).payload.steps == ParseInt(steps).value
  {
    var p := Sample(sampler, steps);
    SampleConverts(sampler, steps);
    assert !Blank(p, "Sampler") && !Blank(p, "Steps") && !Blank(p, "CFG scale");
    assert !Blank(p, "Seed") && !Blank(p, "Size-1") && !Blank(p, "Size-2");
    ReportsMissing(cfg, p);
    PayloadCopiesRequired(cfg, p);
  }

  /** Zero steps is a value, not a missing one; the configured second pass of
      20 steps is used. */
  lemma ZeroStepsAccepted()
    ensures CreatePayload(Configured, Sample("Euler a", "0")).Built?
    ensures CreatePayload(Configured, Sample("Euler a", "0")).payload.steps == 0
    ensures CreatePayload(Configured, Sample("Euler a", "0")).payload.hrSecondPassSteps == 20
  {
    ZeroParses();
    SampleAccepted(Configured, "Euler a", "0");
    PayloadHiresSettings(Configured, Sample("Euler a", "0"));
  }

  /** With the second pass unset, it takes the image's own steps. */
  lemma UnsetSecondPassFallsBack()
    ensures CreatePayload(Configured.(hrSecondPassSteps := None), Sample("Euler a", "512")).Built?
    ensures CreatePayload(Configured.(hrSecondPassSteps := None), Sample("Euler a", "512")).payload.hrSecondPassSteps == 512
  {
    var cfg := Configured.(hrSecondPassSteps := None);
    SizeParses();
    SampleAccepted(cfg, "Euler a", "512");
    PayloadHiresSettings(cfg, Sample("Euler a", "512"));
  }

  /** A "Sampler" of one space is truthy and never converted, so it is
      accepted and copied as it is. */
  lemma SpaceSamplerAccepted()
    ensures CreatePayload(Configured, Sample(" ", "0")).Built?
    ensures CreatePayload(Configured, Sample(" ", "0")).payload.samplerName == " "
  {
    ZeroParses();
    SampleAccepted(Configured, " ", "0");
  }

  /** An empty "Steps" is missing, and only it. */
  lemma BlankStepsMissing()
    ensures CreatePayload(Configured, Sample("Euler a", "")) == MissingParameters(["steps"])
  {
    var p := Sample("Euler a", "");
    SampleConverts("Euler a", "");
    assert Blank(p, "Steps");
    assert !Blank(p, "Sampler") && !Blank(p, "CFG scale");
    assert !Blank(p, "Seed") && !Blank(p, "Size-1") && !Blank(p, "Size-2");
    assert ExpectedMissing(p) == ["steps"];
    ReportsMissing(Configured, p);
  }

  /** A "Steps" of one space is present, so it is converted, and `int` rejects it. */
  lemma SpaceStepsInvalid()
    ensures CreatePayload(Configured, Sample("Euler a", " ")) == InvalidNumber("Steps")
  {
    var p := Sample("Euler a", " ");
    assert Strip(" ") == "";
    assert BadNumber(p, "Steps");
  }

  /** A bad number is reported even when every other field is missing. */
  lemma BadNumberBeforeMissing()
    ensures CreatePayload(Configured, map["Seed" := "x"]) == InvalidNumber("Seed")
  {
    var p := map["Seed" := "x"];
    assert Strip("x") == "x";
    assert BadNumber(p, "Seed");
    assert Blank(p, "Steps") && Blank(p, "CFG scale");
  }

  /** With no parameters at all, every field is missing, in request order. */
  lemma EmptyParameters()
    ensures CreatePayload(Configured, map[]) ==
      MissingParameters(["sampler_name", "steps", "cfg_scale", "seed", "width", "height"])
  {
    var p: Parameters := map[];
    assert !BadNumber(p, NumericKeys[0]) && !BadNumber(p, NumericKeys[1]) && !BadNumber(p, NumericKeys[2]);
    assert !BadNumber(p, NumericKeys[3]) && !BadNumber(p, NumericKeys[4]);
    ReportsMissing(Configured, p);
  }

  // The two name cases below take the name as a parameter fixed by `requires`:
  // written as a literal inside `OutputName(...)` it would be unfolded through
  // every step of `SplitExt` at once, which costs far more to verify.

  /** The suffix test ignores letter case, and the output name drops it. */
  lemma UpperCaseSuffix(f: string)
    requires f == "shot.PNG"
    ensures IsPng(f)
    ensures OutputName(f) == "shot_hires.png"
  {
    assert f[4] == '.' && f[5] == 'P' && f[6] == 'N' && f[7] == 'G';
    IsPngIff(f);
    NamedPng(f, 4);
    assert f[..4] == "shot";
  }

  /** Only the last extension is replaced. */
  lemma DoubleExtension(f: string)
    requires f == "x.tar.png"
    ensures OutputName(f) == "x.tar_hires.png"
  {
    assert f[5] == '.' && f[6] == 'p' && f[7] == 'n' && f[8] == 'g';
    IsPngIff(f);
    NamedPng(f, 5);
    assert f[..5] == "x.tar";
  }

  /** A processed name without '/' whose first character is not '.' maps to
      its first `n` characters followed by "_hires.png". */
  lemma NamedPng(f: string, n: nat)
    requires IsPng(f) && |f| == n + 4 && n > 0 && f[0] != '.' && PyStrings.Sep !in f
    ensures OutputName(f) == f[..n] + "_hires.png"
  {
    assert f[0..] == f;
    OutputNameOfPng(f);
  }

  /** A name that is only a leading dot and "png" has no extension for
      `splitext`, so the whole name is kept before the suffix. */
  lemma DotFileKeepsName()
    ensures IsPng(".png")
    ensures OutputName(".png") == ".png_hires.png"
  {
    IsPngIff(".png");
    assert PyStrings.RFind(".png", PyStrings.Sep) == -1;
    assert PyStrings.RFind(".png", '.') == 0;
  }

  /** The save loop keeps only the last image returned for one input. */
  method LastImageKept() {
    var written := SaveImages(map[], "shot.PNG", [1, 2]);
    UpperCaseSuffix("shot.PNG");
    assert written == map["shot_hires.png" := 2];
  }
}
