# Hires batch upscaler — a Dafny model

`hires_batch_upscaler.py` processes a directory of PNG images produced by the
Stable Diffusion web UI. For each image it reads back the generation
parameters the web UI stored in it, rebuilds a txt2img request with the
hires fix switched on, and saves what the web UI returns.

The model covers the script's logic proper:

- the `create_payload` function (`HiresBatchUpscaler.CreatePayload`);
- the configured hires-fix settings (`HiresBatchUpscaler.Configured`);
- the rule that picks which files are processed (`HiresBatchUpscaler.IsPng`
  and the loop `SelectPng`);
- the name each upscaled image is saved under (`HiresBatchUpscaler.OutputName`
  and the save loop `SaveImages`, with the output directory as a map from file
  name to image).

`create_payload` converts parameters with the Python built-ins `int()` and
`float()`. The driver filters names with `str.lower` and `str.endswith`
(`main`) and names outputs with `os.path.splitext` (`hires_upscale`). The
documented behaviour of these built-ins is modelled in two modules:

- `PyNumbers`:
  - surrounding white space, an optional sign, and digit parts with single
    underscores between digits;
  - the default limit of 4300 digits for `int()`, which CPython applies from
    versions 3.10.7 and 3.11 on (the model assumes such a version);
  - `inf`, `infinity` and `nan` in any letter case, and the
    decimal/exponent syntax, for `float()`.
- `PyStrings`: the POSIX `splitext`, in which a file name's leading dots are
  not an extension.

`CreatePayload` returns an `Outcome`:

- `InvalidNumber(key)`: an `int()` or `float()` conversion raised
  `ValueError`. `key` is the parameter being converted.
- `MissingParameters(keys)`: the list the script logs.
- `Built(payload)`: the request dictionary.

`InvalidNumber` and `MissingParameters` are the two cases in which the script
logs a warning and returns `None`.

Some consequences of the code that the model makes explicit:

- Width and height come from `Size-1` and `Size-2`; no `WxH` token is split,
  and the parameter text is not parsed.
- The step count is not checked to be positive. A "Steps" of `0` is
  accepted.
- The prompt is not required. It is copied as `None` when absent.
- `HR_SECOND_PASS_STEPS or steps` falls back to the image's own steps both
  when the setting is `None` and when it is `0`. The shipped setting is 20.
- A numeric value (one of "Steps", "CFG scale", "Seed", "Size-1", "Size-2")
  of only white space, say `" "`, is truthy. It is therefore converted, and
  `int()` (or `float()` for "CFG scale") rejects it. The parameters are then
  refused as an invalid number, not as missing. A "Sampler" of only white
  space is never converted and is accepted.
- Of the ASCII characters, `int()` and `float()` strip only tab, line feed,
  vertical tab, form feed, carriage return and space. A value starting with an information separator
  (U+001C to U+001F) is refused as an invalid number.
- Every image returned for one input is written to the same output name, so
  only the last one remains.

`HiresBatchScenarios` works through concrete inputs: zero steps, a blank
value, a value of one space, an empty parameter dictionary, upper-case
suffixes, double extensions and dot files.

## Model

| member | source | states |
|---|---|---|
| HiresBatchUpscaler.CreatePayload | hires_batch_upscaler.py:62-100 | `create_payload` as a total function to `Outcome`. Its contract is stated by `RejectsBadNumber`, `ReportsMissing`, `PayloadCopiesRequired`, `PayloadCopiesPrompts`, `PayloadHiresSettings`, `PromptsNotRequired` and `SameReadKeys`. |
| HiresBatchUpscaler.ReadRequired | hires_batch_upscaler.py:63-82 | Builds `required` field by field, failing with the first key whose conversion raises. Its helpers model the pieces of each line: `Get` is `parameters.get`, `Truthy` the `if` on its result, and `IntField` and `FloatField` the guarded `int()` and `float()` calls. Its contract is stated by `ReadRequiredFails`, `ReadRequiredConverts` and `SameRequiredKeys`. |
| HiresBatchUpscaler.MissingKeys | hires_batch_upscaler.py:84 | The comprehension over `required.items()`: never longer than the items. `Items` lists the dictionary in insertion order, `IsBlank` is the `v is None or v == ""` test, and `MissingOne` is one step of the comprehension. `MissingKeysMembers` and `MissingKeysOfRequired` state which keys it holds, and in what order. |
| HiresBatchUpscaler.MissingKeysMembers | hires_batch_upscaler.py:84 | A key is in the missing list exactly when some item with that key holds `None` or the empty string. |
| HiresBatchUpscaler.BuildPayload | hires_batch_upscaler.py:89-98 | The request dictionary. Its fields are stated by `PayloadCopiesRequired`, `PayloadCopiesPrompts` and `PayloadHiresSettings`. |
| HiresBatchUpscaler.SecondPassSteps | hires_batch_upscaler.py:97 | `HR_SECOND_PASS_STEPS or steps`. `PayloadHiresSettings` states both cases of the fallback. |
| PyNumbers.ParseInt | hires_batch_upscaler.py:66-77 | `int()` on a string. `ParseIntToString`, `PaddingIgnored`, `ParseIntPadded`, `TooManyDigits`, `BlankIsNotNumber` and `DigitPartIff` state what it accepts and the value. |
| PyNumbers.ParseFloat | hires_batch_upscaler.py:68 | `float()` on a string. `IntLiteralIsFloatLiteral`, `PaddingIgnored` and `BlankIsNotNumber` state what it accepts. |
| HiresBatchUpscaler.IsPng | hires_batch_upscaler.py:143 | The file filter. `IsPngIff` characterises it by the name's last four characters. |
| HiresBatchUpscaler.OutputName | hires_batch_upscaler.py:126 | The output name. `OutputNameShape` and `OutputNameOfPng` state what it is. |
| HiresBatchUpscaler.RejectsBadNumber | hires_batch_upscaler.py:63-82 | The parameters are refused as an invalid number exactly when some present, non-empty numeric value fails its conversion. The key reported is the first such key in reading order, and this holds even when other fields are missing. |
| HiresBatchUpscaler.ReadRequiredFails | hires_batch_upscaler.py:63-79 | Building `required` raises exactly when some present, non-empty numeric value fails its conversion, and it stops at the first such key in reading order. |
| HiresBatchUpscaler.ReadRequiredConverts | hires_batch_upscaler.py:64-79 | When every number converts, `required` holds the sampler as read. Each numeric field holds its converted value, or `None` when its parameter is absent or empty. |
| HiresBatchUpscaler.ReportsMissing | hires_batch_upscaler.py:84-87 | When every number converts, the request is built exactly when no required field is absent or empty. Otherwise the refusal lists exactly those fields, in request order. |
| HiresBatchUpscaler.MissingKeysOfRequired | hires_batch_upscaler.py:84 | The missing list names, in dictionary order, exactly the fields whose value is `None` or the empty string. |
| HiresBatchUpscaler.NothingMissing | hires_batch_upscaler.py:84-85 | An empty missing list means every field of `required` is set. |
| HiresBatchUpscaler.PayloadCopiesRequired | hires_batch_upscaler.py:89-90 | A built request carries the sampler and the converted steps, CFG scale, seed, width and height. Each of these parameters was present and non-empty. |
| HiresBatchUpscaler.PayloadCopiesPrompts | hires_batch_upscaler.py:91-92 | The prompt and negative prompt are copied as read (absent stays `None`). |
| HiresBatchUpscaler.PromptsNotRequired | hires_batch_upscaler.py:64-92 | Removing both prompts does not change whether a request is built. |
| HiresBatchUpscaler.PayloadHiresSettings | hires_batch_upscaler.py:93-97 | The hires fix is on, with the configured strength, scale and upscaler. The second pass uses the configured step count when it is truthy, and the image's own steps otherwise. |
| HiresBatchUpscaler.ConfiguredHiresSettings | hires_batch_upscaler.py:24-30 | Under the shipped settings every request asks for "4x-UltraSharp" at scale 2 and strength 0.2, with a 20-step second pass. |
| HiresBatchUpscaler.SameRequiredKeys | hires_batch_upscaler.py:64-79 | `required` depends only on the six keys it reads. |
| HiresBatchUpscaler.SameReadKeys | hires_batch_upscaler.py:62-100 | Parameters that agree on the eight keys `create_payload` reads give the same outcome: any other key has no effect. |
| HiresBatchUpscaler.IsPngIff | hires_batch_upscaler.py:143 | A file is processed exactly when its name ends in '.' followed by "png" in any letter case. |
| HiresBatchUpscaler.OutputNameShape | hires_batch_upscaler.py:126 | The output name is the input name minus its `splitext` extension, followed by "_hires.png". The extension is empty exactly when the name has none. The output name would itself pass the PNG filter. |
| HiresBatchUpscaler.OutputNameOfPng | hires_batch_upscaler.py:126 | For a processed name with a non-dot character before the suffix in its last component, the output name replaces the four-character suffix with "_hires.png". |
| HiresBatchUpscaler.PngFiles | hires_batch_upscaler.py:142-144 | The processed names are no more than the listing, and a name is among them exactly when it is listed and passes the PNG filter. |
| HiresBatchUpscaler.Configured | hires_batch_upscaler.py:24-30 | The shipped settings: upscaler "4x-UltraSharp", strength 0.2, scale 2, and 20 second-pass steps. `ConfiguredHiresSettings` states what every request then asks for. |
| PyStrings.EndsWith | hires_batch_upscaler.py:143 | `str.endswith` with one suffix. `IsPngIff` states the filter built on it. |
| HiresBatchUpscaler.SelectPng | hires_batch_upscaler.py:142-144 | The filtering loop hands on, in listing order, exactly the names `PngFiles` selects. |
| HiresBatchUpscaler.SaveImages | hires_batch_upscaler.py:124-130 | In a run where no call raises: with no images returned no file changes. Otherwise exactly one file, the output name, changes, and it holds the last image. |
| PyNumbers.ParseIntToString | hires_batch_upscaler.py:66 | `int(str(i)) == i` for every integer within the digit limit. |
| PyNumbers.PaddingIgnored | hires_batch_upscaler.py:66-68 | For any string that neither starts nor ends with white space, adding white space around it changes neither the result of `int()` nor that of `float()`, whether the string is accepted or refused. |
| PyNumbers.ParseIntPadded | hires_batch_upscaler.py:66 | `int()` accepts `str(i)` with any amount of white space around it, and returns `i`. |
| PyNumbers.StripPadded | hires_batch_upscaler.py:66 | Stripping removes exactly the added white space around a literal that does not start or end with white space itself. |
| PyNumbers.TooManyDigits | hires_batch_upscaler.py:66 | `int()` refuses every string of more than 4300 decimal digits, leading zeros included. |
| PyNumbers.BlankIsNotNumber | hires_batch_upscaler.py:66-68 | A value of white space only is rejected by both `int()` and `float()`. |
| PyNumbers.DigitPartIff | hires_batch_upscaler.py:66 | The recursive digit-part grammar equals its direct description: non-empty, digits and underscores, starting and ending with a digit, with no two underscores in a row. |
| PyNumbers.DropUnderscoresOfDigitPart | hires_batch_upscaler.py:66 | Removing the underscores of a digit part leaves only digits. |
| PyNumbers.ShowValue | hires_batch_upscaler.py:66 | The decimal digits of `n` denote `n`. |
| PyNumbers.TrimStartDropsSpace | hires_batch_upscaler.py:66 | The front strip is a suffix of the input that does not start with white space, and everything it drops is white space. |
| PyNumbers.TrimEndDropsSpace | hires_batch_upscaler.py:66 | The back strip is a prefix of the input that does not end with white space, and everything it drops is white space. |
| PyNumbers.IntLiteralIsFloatLiteral | hires_batch_upscaler.py:66-68 | Every string `int()` accepts, `float()` accepts too. |
| PyStrings.SplitExt | hires_batch_upscaler.py:126 | The root and the extension concatenate back to the name. The extension is non-empty exactly when the last path component has a dot after some non-dot character. A non-empty extension starts with '.' and holds no further dot or separator. |
| PyStrings.RFind | hires_batch_upscaler.py:126 | The result is -1 or the index of the last occurrence of the character. |
| PyStrings.Lower | hires_batch_upscaler.py:143 | `str.lower` on ASCII letters. `LowerIsLowerCase` states what it produces, and `IsPngIff` states the suffix test built on it. |
| PyStrings.LowerIsLowerCase | hires_batch_upscaler.py:143 | The result holds no upper-case ASCII letter, every other character is kept, and lower-casing twice is the same as once. |
| HiresBatchScenarios.ZeroStepsAccepted | hires_batch_upscaler.py:84-97 | A "Steps" of "0" is a value, not a missing one. The request has 0 steps and a 20-step second pass. |
| HiresBatchScenarios.UnsetSecondPassFallsBack | hires_batch_upscaler.py:97 | With the second-pass setting `None`, the second pass takes the image's own steps. |
| HiresBatchScenarios.BlankStepsMissing | hires_batch_upscaler.py:66-87 | An empty "Steps" is reported as the single missing field "steps". |
| HiresBatchScenarios.SpaceSamplerAccepted | hires_batch_upscaler.py:65-90 | A "Sampler" of one space is not missing: the request is built and carries it unchanged. |
| HiresBatchScenarios.SpaceStepsInvalid | hires_batch_upscaler.py:66-82 | A "Steps" of one space is converted and rejected as an invalid number. |
| HiresBatchScenarios.BadNumberBeforeMissing | hires_batch_upscaler.py:63-82 | A bad "Seed" is reported even when every other field is missing. |
| HiresBatchScenarios.EmptyParameters | hires_batch_upscaler.py:84-87 | Called directly on an empty dictionary, `create_payload` reports all six fields missing, in request order. The driver itself never makes this call: line 108 skips an empty dictionary first. |
| HiresBatchScenarios.SeparatorNotStripped | hires_batch_upscaler.py:66 | `int()` refuses a value that starts with U+001C, because, of the ASCII characters, `int()` strips only tab, line feed, vertical tab, form feed, carriage return and space. |
| HiresBatchScenarios.IntRejects | hires_batch_upscaler.py:66 | `int()` refuses doubled, leading and trailing underscores, a fraction, and a space after the sign. |
| HiresBatchScenarios.FloatSyntax | hires_batch_upscaler.py:68 | `float()` accepts "1e5" and ".5" and refuses "e5". |
| HiresBatchScenarios.FloatInfinity | hires_batch_upscaler.py:68 | `float()` accepts "-Inf". |
| HiresBatchScenarios.UpperCaseSuffix | hires_batch_upscaler.py:126-143 | "shot.PNG" is processed and saved as "shot_hires.png". |
| HiresBatchScenarios.DoubleExtension | hires_batch_upscaler.py:126 | "x.tar.png" is saved as "x.tar_hires.png". |
| HiresBatchScenarios.DotFileKeepsName | hires_batch_upscaler.py:126-143 | ".png" is processed, has no extension, and is saved as ".png_hires.png". |

## Left out

- `get_parameters` (lines 47-59): reading the file, base64 encoding and the HTTP call to `/sdapi/v1/png-info` are I/O. Its result is the `Parameters` map the model starts from.
- The txt2img request and response of `hires_upscale` (lines 117-122) and base64 decoding: HTTP and I/O. The returned images are a parameter of `SaveImages`.
- The `if not parameters` check (line 108): it skips an image whose parameters are `None` or an empty dictionary before `create_payload` is called. The model's `CreatePayload` also covers the empty dictionary, which the driver never passes to it.
- The `if not payload` check (line 113): it routes the two refusals, which `Outcome` makes explicit.
- `shutil.move` to the done directory, `os.makedirs`, `os.path.join` with the directories, and all logging (lines 41-44, 104, 130, 132-140, 146): file-system effects and output.
- `Parameters` holds string values only. The model assumes that the eight keys `create_payload` reads have text values. A non-string value, for which `int()` and `float()` behave differently, is not modelled.
- PyNumbers.ParseFloat: keeps the validated literal and does not compute the binary64 value, because floating point is outside the model.
- PyNumbers.ParseInt: accepts ASCII digits and white space only. Python also accepts other Unicode decimal digits and spaces.
- PyNumbers.ParseFloat: accepts ASCII digits and white space only. Python's `float()` also accepts other Unicode decimal digits and spaces.
- PyNumbers.ParseInt: the digit limit is fixed at the default 4300 of CPython 3.10.7, 3.11 and later. Python can change it at run time, and earlier versions have no limit.
- HiresBatchUpscaler.SelectPng: models only runs in which no call raises. Only `RequestException` (lines 55 and 120) and `ValueError` (line 80) are caught. Any other exception, such as an `OSError` from `open` at line 49 on a directory named `album.png`, ends the whole batch.
- HiresBatchUpscaler.SaveImages: models only runs in which no call raises. A JSON decoding error at line 124, a `binascii.Error` from `b64decode` at line 129 (after `open(..., "wb")` has already emptied the file) or a `shutil` error at line 133 is not caught and ends the whole batch.
- PyStrings.Lower: maps ASCII letters only. For the ".png" test this is exact, because no other character lower-cases to '.', 'p', 'n' or 'g'.
- PyStrings.SplitExt: models POSIX paths only. Windows `ntpath.splitext` also treats '\\' and drive letters as separators.
- The order of `os.listdir` is whatever the file system returns. `SelectPng` keeps the given order.
