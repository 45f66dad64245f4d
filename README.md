# Photogenic AI Studio: prompt builder and generation handler

This project models the core of the Photogenic AI Studio backend in Dafny:

- **Prompt builder.** It turns up to nine optional portrait attributes into a positive prompt. The attributes are gender, animal, expression, pose, outfit, lighting, camera, mood and background. The prompt is a list of segments joined with `", "`:
  - the subject, with `" of a <gender>"` appended when a gender is given;
  - one `"<category>: <value>"` segment per non-blank labelled category, in a fixed order;
  - an animal-motif segment, when an animal is given;
  - two constant style clauses.

  The builder also returns a constant negative prompt.
- **Generation handler.** `POST /api/generate` builds the prompt and then works through these steps:
  1. It checks that the model SDK is installed (500 otherwise).
  2. It checks that an API token is set (400 otherwise).
  3. It coerces the optional seed.
  4. It builds the model inputs.
  5. It picks the image-to-image model when a reference image is uploaded and that model is configured, and the text-to-image model otherwise.
  6. It calls the model; a call that raises gives 502.
  7. It normalises the model's output to one image URL; no URL gives 500.

Modules:

- `Wrappers` (wrappers.dfy): `Option`, for Python's `Optional`.
- `Builtins` (builtins.dfy): the Python built-ins the core relies on, written out with their properties proved.
  - `str.strip()` with Python's full whitespace set.
  - `", ".join(...)`.
  - `int(str)` over ASCII digits, with sign, surrounding whitespace and single underscores between digits. The whitespace `int()` skips is `str.isspace()` without the information separators U+001C–U+001F, which make `int()` raise wherever they appear.
  - `str(int)`.
- `PromptBuilder` (prompt_builder.dfy): `_format_segment` and `build_prompt`.
  - `build_prompt` is a method with the source's loop.
  - It is proved equal to the functional specification `PositivePrompt`.
  - The lemmas about the prompt are stated on that specification.
- `Handler` (handler.dfy): `_coerce_seed`, the model inputs, the model choice, output normalisation and the handler method `GenerateImage`.
  - The environment is a `Config` value: SDK presence, `REPLICATE_API_TOKEN`, `REPLICATE_MODEL` and `REPLICATE_IMAGE_TO_IMAGE_MODEL`.
  - The hosted model is a function parameter `run`, which either returns an output or raises.

The attribute dictionary is a map from an `Attribute` enumeration to optional strings. A missing key reads as `None`, exactly as `dict.get` does. `Name` gives each attribute's dictionary key, which is also its label in the prompt.

## Model

| member | source | states |
|---|---|---|
| Builtins.Strip | backend/prompt_builder.py:7 | `str.strip()`, also used at prompt_builder.py:23 and :44; no contract of its own; characterised by StripEmpty, StripSpec, StripIdempotent, StripKeeps and StripPadded |
| Builtins.StripEmpty | backend/prompt_builder.py:7-9 | `strip()` gives the empty string exactly when the value is all whitespace, so a whitespace-only value counts as absent |
| Builtins.StripSpec | backend/prompt_builder.py:7 | `strip()` keeps a contiguous slice of the input whose first and last characters are not whitespace, and removes only whitespace around it |
| Builtins.StripIdempotent | backend/prompt_builder.py:7 | stripping a stripped value changes nothing |
| Builtins.StripKeeps | backend/prompt_builder.py:7 | a value with non-whitespace ends is kept unchanged |
| Builtins.StripPadded | backend/prompt_builder.py:23 | `strip()` removes exactly the whitespace padding before and after text whose ends are not whitespace |
| Builtins.Join | backend/prompt_builder.py:54 | `", ".join(parts)`; no contract of its own; characterised by JoinLength and JoinAppend |
| Builtins.JoinLength | backend/prompt_builder.py:54 | the joined prompt is as long as all segments together plus one separator between each pair of neighbours |
| Builtins.JoinAppend | backend/prompt_builder.py:54 | joining two non-empty lists of segments is joining each and putting one separator between them |
| Builtins.ParseInt | backend/main.py:84 | `int(text)` succeeds only on text that is not all whitespace and holds no information separator U+001C–U+001F |
| Builtins.ParseIntSeparator | backend/main.py:84 | an information separator U+001C–U+001F anywhere in the text makes `int()` raise, although `strip()` removes it |
| Builtins.ParseIntDigitLimit | backend/main.py:84 | a well-formed digit run of more than 4300 digits (`sys.int_max_str_digits`, leading zeros counted, underscores not) is rejected |
| Builtins.IntRoundTrip | backend/main.py:84 | `int(str(n)) == n` for every integer of at most 4300 digits |
| Builtins.IntToDecimal | backend/main.py:116 | `str(n)` for an integer: non-empty text whose first and last characters are not whitespace; IntRoundTrip relates it to `int()` |
| PromptBuilder.FormatSegment | backend/prompt_builder.py:4-10 | `_format_segment`; no contract of its own; characterised by FormatSegmentNone and FormatSegmentCleaned |
| PromptBuilder.FormatSegmentNone | backend/prompt_builder.py:4-9 | no segment exactly when the value is `None`, empty or whitespace only |
| PromptBuilder.FormatSegmentCleaned | backend/prompt_builder.py:4-10 | the segment is `"<category>: <stripped value>"` when the stripped value is non-empty, and none otherwise |
| PromptBuilder.PresentAt | backend/prompt_builder.py:39-41 | keeping only the present segments places each present one after exactly the present ones before it |
| PromptBuilder.PresentGrows | backend/prompt_builder.py:39-41 | a longer run of categories never yields fewer segments, and a present category yields one more |
| PromptBuilder.PresentMember | backend/prompt_builder.py:39-41 | every segment kept is one that `_format_segment` produced |
| PromptBuilder.PresentNone | backend/prompt_builder.py:39-41 | when every category is blank, no labelled segment is appended |
| PromptBuilder.LabelledNonBlank | backend/prompt_builder.py:10 | no labelled segment is blank, because each holds the `:` after its category name |
| PromptBuilder.PartsStep | backend/prompt_builder.py:39-41 | one loop iteration appends the category's segment exactly when `_format_segment` returns one |
| PromptBuilder.Subject | backend/prompt_builder.py:22-25 | the subject phrase; no contract of its own; characterised by SubjectShape |
| PromptBuilder.AnimalSegments | backend/prompt_builder.py:44-46 | the animal-motif segment, if any; no contract of its own; characterised by AnimalSegmentPlace |
| PromptBuilder.PromptParts | backend/prompt_builder.py:19-52 | the list `build_prompt` accumulates, as a value; no contract of its own; characterised by PartsCount, LabelledSegmentPosition, LabelledOrder, AnimalSegmentPlace and NoBlankSegment |
| PromptBuilder.PositivePrompt | backend/prompt_builder.py:54 | the joined positive prompt, as a value; no contract of its own; BuildPrompt is proved to return it, and PromptStartsWithSubject, PromptEndsWithStyle, AllBlankPrompt and BlankLikeAbsent characterise it |
| PromptBuilder.PromptPartsAssembled | backend/prompt_builder.py:27-54 | the subject, the labelled segments, the animal segment and the two style clauses, in that order, join to the positive prompt |
| PromptBuilder.BuildPrompt | backend/prompt_builder.py:13-61 | `build_prompt` returns the joined segments as the positive prompt and the constant negative prompt; its loop keeps the list equal to the subject plus the segments of the categories seen so far |
| PromptBuilder.PartsCount | backend/prompt_builder.py:19-52 | the prompt has 3 + the number of labelled segments + (0 or 1 animal) segments, so between 3 and 11 |
| PromptBuilder.SubjectShape | backend/prompt_builder.py:22-25 | the subject starts with the base phrase and is extended by `" of a <gender>"` exactly when the stripped gender is non-empty |
| PromptBuilder.PromptStartsWithSubject | backend/prompt_builder.py:27 | the positive prompt begins with the subject followed by `", "` |
| PromptBuilder.PromptEndsWithStyle | backend/prompt_builder.py:48-54 | the positive prompt always ends with the two style clauses, separated by `", "` |
| PromptBuilder.LabelledAt | backend/prompt_builder.py:30-41 | a non-blank category's `"<category>: <stripped value>"` segment sits after exactly the non-blank categories before it |
| PromptBuilder.LabelledSegmentPosition | backend/prompt_builder.py:30-41 | each non-blank labelled category contributes its segment, after the subject and before the style clauses |
| PromptBuilder.LabelledOrder | backend/prompt_builder.py:30-38 | non-blank categories appear in the order expression, pose, outfit, lighting, camera, mood, background |
| PromptBuilder.AnimalSegmentPlace | backend/prompt_builder.py:43-46 | a non-blank animal always yields the `"subtle <animal> motif integrated tastefully"` segment, right after all labelled segments and right before the style clauses, whether or not any labelled category is present |
| PromptBuilder.AnimalPosition | backend/prompt_builder.py:30-46 | corollary: the animal segment comes after the segment of every non-blank labelled category |
| PromptBuilder.NoBlankSegment | backend/prompt_builder.py:19-52 | no segment of the prompt is empty or whitespace only |
| PromptBuilder.AllBlankPrompt | backend/prompt_builder.py:22-54 | with every attribute absent or blank, the prompt is the base subject followed by the two style clauses |
| PromptBuilder.LabelledSegmentsCleaned | backend/prompt_builder.py:7-10 | the labelled segments depend only on the stripped values |
| PromptBuilder.PromptDependsOnCleaned | backend/prompt_builder.py:19-54 | two attribute maps with the same stripped values give the same prompt |
| PromptBuilder.BlankUpdateCleaned | backend/prompt_builder.py:19-54 | setting one attribute to a value that strips to nothing reads like removing the key |
| PromptBuilder.BlankLikeAbsent | backend/prompt_builder.py:19-54 | a whitespace-only value, a `None` value and a missing key give the same prompt |
| PromptBuilder.GenderExample | backend/prompt_builder.py:22-27 | gender `"wizard"` gives a prompt starting `"a highly photorealistic portrait of a wizard, "` |
| Handler.Truthy | backend/main.py:114-121 | Python truthiness of a value in the output; no contract of its own; characterised by FalsyValues |
| Handler.FalsyValues | backend/main.py:121 | a value is falsy exactly when it is `None`, `False`, `0`, `""` or an object whose truth value is false |
| Handler.ToString | backend/main.py:116-121 | `str()` of a value in the output; no contract of its own; characterised by ToStringCases |
| Handler.ToStringCases | backend/main.py:116-121 | `str(None)` is `"None"`, `str(True)`/`str(False)` are `"True"`/`"False"`, a string is kept, an integer is written in decimal |
| Handler.Normalize | backend/main.py:112-121 | a URL exists exactly for a non-empty list (the last element as text), a string (as it is) and a dict with a truthy `"image"` (that entry as text) |
| Handler.NormalizeLastWins | backend/main.py:114-116 | only the last element of a list output matters |
| Handler.NoneLastItem | backend/main.py:116 | a list ending in `None` yields the text `"None"`, which the handler then accepts as a URL |
| Handler.DictUrlNonEmpty | backend/main.py:119-121 | a truthy string, number or boolean under `"image"` yields a non-empty URL |
| Handler.NormalizeExamples | backend/main.py:112-121 | the cases: two URLs give the last, a string passes, a dict image passes, a `None` or missing image and an empty list give none, an empty string passes normalisation |
| Handler.CoerceSeed | backend/main.py:80-86 | a missing or empty seed gives `None`; a seed is produced only from text that is not all whitespace |
| Handler.CoerceSeedRoundTrip | backend/main.py:80-86 | the decimal text of any integer of at most 4300 digits coerces back to that integer |
| Handler.CoerceSeedPadded | backend/main.py:84 | whitespace that `int()` skips (`str.isspace()` without U+001C–U+001F) around the decimal text of such an integer does not change the coerced seed |
| Handler.CoerceSeedTooLong | backend/main.py:83-86 | a seed of more than 4300 digits makes `int()` raise, and the seed is dropped |
| Handler.CoerceSeedZerosExample | backend/main.py:83-86 | a seed of 4301 zeros is dropped, although its value is 0 |
| Handler.CoerceSeedBlank | backend/main.py:80-86 | a whitespace-only seed is dropped rather than raising |
| Handler.CoerceSeedExamples | backend/main.py:80-86 | `"42"` gives 42, and `"abc"` and `"\x1c42"` give `None` |
| Handler.FieldsOf | backend/main.py:54-64 | the attribute dictionary built from the form fields; no contract of its own; characterised by FieldsOfEntries |
| Handler.FieldsOfEntries | backend/main.py:54-64 | the dictionary holds all nine attributes, each mapped to the form field of the same name |
| Handler.TextModel | backend/main.py:76 | the default text model applies only when `REPLICATE_MODEL` is unset |
| Handler.BaseInputs | backend/main.py:88-94 | the inputs always hold the prompt, hold `"seed"` exactly when the seed coerces and then hold that integer, and hold nothing else (no negative prompt, no image) |
| Handler.UsesImageToImage | backend/main.py:97 | the branch condition: a reference image and a non-empty image-to-image model id; no contract of its own; ModelSelection states its consequences |
| Handler.PlannedCall | backend/main.py:88-107 | the model call the handler makes, as a value; no contract of its own; characterised by ModelSelection and BaseInputs, and GenerateImage is proved to issue it |
| Handler.ModelSelection | backend/main.py:96-107 | image-to-image is chosen exactly when a reference image is uploaded and the image-to-image model id is set and non-empty; it receives the base inputs plus `"image"` and the base inputs are left unchanged; otherwise the text model receives the base inputs |
| Handler.GenerateImage | backend/main.py:54-126 | SDK missing gives 500 before the token is checked; a missing or empty token gives 400; in both cases the model is not called; otherwise exactly the planned call is made; a raising call gives 502 with `"Generation failed: "` and the message; a returned output succeeds exactly when it normalises to a non-empty URL, and gives 500 otherwise; success carries the URL and the positive prompt |

## Left out

- The web framework: the FastAPI application, CORS, the static-file mount and JSON serialisation are not modelled. The handler returns an `Outcome` value in place of the HTTP response or the raised `HTTPException`.
- `load_dotenv`, `os.getenv` and logging are not modelled. The environment variables and SDK availability are fields of a `Config` value, with an unset variable read as `None`.
- The `replicate` client and its network call are not modelled. They become the function parameter `run`, which returns an `Output` or raises with a message. A client constructor that raises is not modelled.
- The upload is modelled as its bytes, not as a file-like object.
- `str()` of arbitrary objects is not modelled. Any other object in a model output is a `VObject` carrying the text `str()` gives for it and its truth value.
- Builtins.ParseInt: accepts ASCII digits only, because Python's `int()` also accepts other Unicode decimal digits and the model does not. The digit limit is fixed at 4300, the default of `sys.int_max_str_digits` since CPython 3.11 (and in the 3.7–3.10 security releases); a process that changes the limit, or an interpreter without one, is not modelled.
- Handler.ToString: `str()` of an integer with more than 4300 digits raises `ValueError` in the source, outside any `try`; the model gives its decimal text instead, so a list output ending in such an integer, or a dict whose `"image"` is such an integer, is not modelled as a failure.
- Handler.DictUrlNonEmpty: excludes arbitrary objects, whose `str()` text the model leaves free.
- PromptBuilder.AllBlankPrompt: states the prompt through the named constants rather than as one spelled-out literal, to keep the proof small.
- The front end (static JavaScript) is outside this model.
