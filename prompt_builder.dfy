/**
 * Prompt composition: nine optional portrait attributes become a positive
 * prompt (comma-separated segments in a fixed order) and a constant negative
 * prompt.
 */
module PromptBuilder {
  import opened Wrappers
  import opened Builtins

  /** The nine portrait attributes a request may carry. */
  datatype Attribute = Gender | Animal | Expression | Pose | Outfit | Lighting | Camera | Mood | Background

  /** The attribute's key in the dictionary, which is also its label in the prompt. */
  function Name(a: Attribute): string {
    match a
    case Gender => "gender"
    case Animal => "animal"
    case Expression => "expression"
    case Pose => "pose"
    case Outfit => "outfit"
    case Lighting => "lighting"
    case Camera => "camera"
    case Mood => "mood"
    case Background => "background"
  }

  /** The attribute dictionary; a missing key reads like a `None` value. */
  type Fields = map<Attribute, Option<string>>

  const SubjectBase := "a highly photorealistic portrait"

  /** The labelled categories, in the order their segments appear. */
  const Labels: seq<Attribute> := [Expression, Pose, Outfit, Lighting, Camera, Mood, Background]

  const SkinSuffix := "ultra-detailed skin texture, realistic lighting, natural tones, shallow depth of field, 4k"
  const QualitySuffix := "95% photorealistic, cinematic quality"

  const NegativePrompt :=
    "cartoon, illustration, cgi, plastic skin, over-saturated, low-res, blurry, deformed, extra fingers, bad anatomy, artifacts, watermark, text, logo"

  const Separator := ", "

  /** `fields.get(key)` */
  function Get(fields: Fields, key: Attribute): Option<string> {
    if key in fields then fields[key] else None
  }

  /** `(value or "").strip()` */
  function Cleaned(value: Option<string>): string {
    Strip(value.GetOr(""))
  }

  /**
   * `_format_segment`: no segment when the value is absent or blank after
   * stripping, otherwise `"category: value"` with the value stripped.
   */
  function FormatSegment(category: string, value: Option<string>): Option<string> {
    if value.None? || value.value == "" then None
    else
      var clean := Strip(value.value);
      if clean == "" then None else Some(category + ": " + clean)
  }

  /** No segment exactly when the value is absent or whitespace only. */
  lemma FormatSegmentNone(category: string, value: Option<string>)
    ensures FormatSegment(category, value).None? <==> value.None? || AllSpace(value.value)
  {
    if value.Some? {
      StripEmpty(value.value);
    }
  }

  /** `_format_segment` only looks at the stripped value, and a segment is `"category: value"` with the value stripped. */
  lemma FormatSegmentCleaned(category: string, value: Option<string>)
    ensures FormatSegment(category, value) == if Cleaned(value) == "" then None else Some(category + ": " + Cleaned(value))
  {
    if value.Some? && value.value == "" {
      assert AllSpace(value.value);
    }
  }

  // ---------------------------------------------------------------------------
  // The segments of the positive prompt
  // ---------------------------------------------------------------------------

  /** The values that are present, in their order: what `if seg: parts.append(seg)` keeps. */
  function Present<T>(opts: seq<Option<T>>): (r: seq<T>)
    ensures |r| <= |opts|
  {
    if opts == [] then []
    else
      var last := opts[|opts| - 1];
      Present(opts[..|opts| - 1]) + (if last.Some? then [last.value] else [])
  }

  lemma PresentAppend<T>(opts: seq<Option<T>>, o: Option<T>)
    ensures Present(opts + [o]) == Present(opts) + (if o.Some? then [o.value] else [])
  {
    assert (opts + [o])[..|opts|] == opts;
  }

  /** A present value is kept at the index given by the number of present values before it. */
  lemma {:induction false} PresentAt<T>(opts: seq<Option<T>>, k: nat)
    requires k < |opts| && opts[k].Some?
    ensures |Present(opts[..k])| < |Present(opts)|
    ensures Present(opts)[|Present(opts[..k])|] == opts[k].value
  {
    var n := |opts|;
    var init := opts[..n - 1];
    assert opts == init + [opts[n - 1]];
    PresentAppend(init, opts[n - 1]);
    if k < n - 1 {
      PresentAt(init, k);
      assert init[..k] == opts[..k];
    }
  }

  /** A longer prefix keeps at least as many values, and one more when the value in between is present. */
  lemma {:induction false} PresentGrows<T>(opts: seq<Option<T>>, j: nat, k: nat)
    requires j < k <= |opts|
    ensures |Present(opts[..j])| + (if opts[j].Some? then 1 else 0) <= |Present(opts[..k])|
    decreases k
  {
    var init := opts[..k - 1];
    assert opts[..k] == init + [opts[k - 1]];
    PresentAppend(init, opts[k - 1]);
    if j < k - 1 {
      PresentGrows(opts, j, k - 1);
    } else {
      assert init == opts[..j];
    }
  }

  /** Every value kept is one of the present values. */
  lemma {:induction false} PresentMember<T>(opts: seq<Option<T>>, i: nat)
    requires i < |Present(opts)|
    ensures Some(Present(opts)[i]) in opts
  {
    var n := |opts|;
    var init := opts[..n - 1];
    if i < |Present(init)| {
      PresentMember(init, i);
      var j :| 0 <= j < |init| && init[j] == Some(Present(opts)[i]);
      assert opts[j] == init[j];
    } else {
      assert opts[n - 1] == Some(Present(opts)[i]);
    }
  }

  /** Nothing is kept when nothing is present. */
  lemma {:induction false} PresentNone<T>(opts: seq<Option<T>>)
    requires forall i :: 0 <= i < |opts| ==> opts[i].None?
    ensures Present(opts) == []
  {
    if opts != [] {
      PresentNone(opts[..|opts| - 1]);
    }
  }

  /** The segment a labelled category contributes, if any. */
  function Segment(fields: Fields, category: Attribute): Option<string> {
    FormatSegment(Name(category), Get(fields, category))
  }

  /** The optional segment of each of `labels`, in order. */
  function Segments(fields: Fields, labels: seq<Attribute>): (r: seq<Option<string>>)
    ensures |r| == |labels|
  {
    if labels == [] then [] else Segments(fields, labels[..|labels| - 1]) + [Segment(fields, labels[|labels| - 1])]
  }

  lemma {:induction false} SegmentsAt(fields: Fields, labels: seq<Attribute>, i: nat)
    requires i < |labels|
    ensures Segments(fields, labels)[i] == Segment(fields, labels[i])
  {
    if i < |labels| - 1 {
      SegmentsAt(fields, labels[..|labels| - 1], i);
    }
  }

  /** The segments of `labels`, in their order, skipping the blank ones. */
  function LabelledSegments(fields: Fields, labels: seq<Attribute>): seq<string> {
    Present(Segments(fields, labels))
  }

  lemma {:induction false} SegmentsPrefix(fields: Fields, labels: seq<Attribute>, k: nat)
    requires k <= |labels|
    ensures Segments(fields, labels[..k]) == Segments(fields, labels)[..k]
    decreases |labels|
  {
    if k < |labels| {
      var init := labels[..|labels| - 1];
      SegmentsPrefix(fields, init, k);
      assert init[..k] == labels[..k];
    } else {
      assert labels[..k] == labels;
    }
  }

  /** No labelled segment is blank: each holds the `':'` after its category name. */
  lemma LabelledNonBlank(fields: Fields, labels: seq<Attribute>, i: nat)
    requires i < |LabelledSegments(fields, labels)|
    ensures !AllSpace(LabelledSegments(fields, labels)[i])
  {
    var opts := Segments(fields, labels);
    var x := Present(opts)[i];
    PresentMember(opts, i);
    var j :| 0 <= j < |opts| && opts[j] == Some(x);
    SegmentsAt(fields, labels, j);
    FormatSegmentCleaned(Name(labels[j]), Get(fields, labels[j]));
    assert x[|Name(labels[j])|] == ':';
  }

  /** One iteration of `build_prompt`'s loop keeps the accumulated list equal to the subject and the segments so far. */
  lemma PartsStep(fields: Fields, labels: seq<Attribute>, i: nat, subject: string, parts: seq<string>)
    requires i < |labels|
    requires parts == [subject] + LabelledSegments(fields, labels[..i])
    ensures var seg := Segment(fields, labels[i]);
      (if seg.Some? then parts + [seg.value] else parts) == [subject] + LabelledSegments(fields, labels[..i + 1])
  {
    assert labels[..i + 1][..i] == labels[..i];
    PresentAppend(Segments(fields, labels[..i]), Segment(fields, labels[i]));
  }

  lemma LabelledSegmentsAll(fields: Fields, labels: seq<Attribute>)
    ensures LabelledSegments(fields, labels[..|labels|]) == LabelledSegments(fields, labels)
  {
    assert labels[..|labels|] == labels;
  }

  /** The subject: the base phrase, with `" of a <gender>"` when a gender is given. */
  function Subject(fields: Fields): string {
    var gender := Cleaned(Get(fields, Gender));
    if gender != "" then SubjectBase + (" of a " + gender) else SubjectBase
  }

  /** The animal-motif segment, when an animal is given. */
  function AnimalSegments(fields: Fields): seq<string> {
    var animal := Cleaned(Get(fields, Animal));
    if animal != "" then ["subtle " + animal + " motif integrated tastefully"] else []
  }

  /** The segments `build_prompt` joins, in order. */
  function PromptParts(fields: Fields): seq<string> {
    [Subject(fields)] + LabelledSegments(fields, Labels) + AnimalSegments(fields) + [SkinSuffix, QualitySuffix]
  }

  /** The list `build_prompt` accumulates is the list of segments above, so it joins to the positive prompt. */
  lemma PromptPartsAssembled(fields: Fields, subject: string, head: seq<string>, parts: seq<string>)
    requires subject == Subject(fields)
    requires head == [subject] + LabelledSegments(fields, Labels[..|Labels|])
    requires parts == head + AnimalSegments(fields) + [SkinSuffix] + [QualitySuffix]
    ensures parts == PromptParts(fields)
    ensures Join(parts, Separator) == PositivePrompt(fields)
  {
    LabelledSegmentsAll(fields, Labels);
  }

  function PositivePrompt(fields: Fields): string {
    Join(PromptParts(fields), Separator)
  }

  // ---------------------------------------------------------------------------
  // build_prompt
  // ---------------------------------------------------------------------------

  /** `build_prompt`: accumulates the segments in a list and joins them with `", "`. */
  method BuildPrompt(fields: Fields) returns (positive: string, negative: string)
    ensures positive == PositivePrompt(fields)
    ensures negative == NegativePrompt
  {
    var parts: seq<string> := [];

    var subject := SubjectBase;
    var gender := Strip(Get(fields, Gender).GetOr(""));
    if gender != "" {
      subject := subject + (" of a " + gender);
    }
    parts := parts + [subject];
    assert parts == [subject] + [];

    // the labelled categories, in their fixed order; bound with `:|` rather than `:=` so that
    // the verifier does not unfold the constant's literal value, which keeps the proof fast and stable
    var labels: seq<Attribute> :| labels == Labels;
    assert LabelledSegments(fields, labels[..0]) == [];
    for i := 0 to |labels|
      invariant parts == [subject] + LabelledSegments(fields, labels[..i])
    {
      var seg := FormatSegment(Name(labels[i]), Get(fields, labels[i]));
      PartsStep(fields, labels, i, subject, parts);
      if seg.Some? {
        parts := parts + [seg.value];
      }
    }

    ghost var head := parts;

    var animal := Strip(Get(fields, Animal).GetOr(""));
    if animal != "" {
      parts := parts + ["subtle " + animal + " motif integrated tastefully"];
    }
    assert parts == head + AnimalSegments(fields);
    parts := parts + [SkinSuffix];
    parts := parts + [QualitySuffix];
    PromptPartsAssembled(fields, subject, head, parts);

    positive := Join(parts, Separator);
    negative := NegativePrompt;
  }

  // ---------------------------------------------------------------------------
  // Properties of the positive prompt
  // ---------------------------------------------------------------------------

  /** The two style clauses, as they read at the end of every positive prompt. */
  const StyleTail := SkinSuffix + Separator + QualitySuffix

  /** Where a present labelled category's segment sits among the joined segments. */
  function Position(fields: Fields, k: nat): nat
    requires k <= |Labels|
  {
    1 + |LabelledSegments(fields, Labels[..k])|
  }

  /** Between 3 and 11 segments: the subject, one per non-blank category, at most one animal segment, two style clauses. */
  lemma PartsCount(fields: Fields)
    ensures |PromptParts(fields)| == 3 + |LabelledSegments(fields, Labels)| + |AnimalSegments(fields)|
    ensures 3 <= |PromptParts(fields)| <= 11
  {
  }

  /** The subject is the base phrase, extended by `" of a <gender>"` exactly when the stripped gender is not empty. */
  lemma SubjectShape(fields: Fields)
    ensures Subject(fields)[..|SubjectBase|] == SubjectBase
    ensures Subject(fields) == SubjectBase <==> Cleaned(Get(fields, Gender)) == ""
    ensures Cleaned(Get(fields, Gender)) != "" ==> Subject(fields)[|SubjectBase|..] == " of a " + Cleaned(Get(fields, Gender))
  {
    var gender := Cleaned(Get(fields, Gender));
    if gender != "" {
      var tail := " of a " + gender;
      assert Subject(fields) == SubjectBase + tail;
      assert (SubjectBase + tail)[|SubjectBase|..] == tail;
    }
  }

  /** The positive prompt begins with the subject, then a separator, then the remaining segments. */
  lemma PromptStartsWithSubject(fields: Fields)
    ensures PositivePrompt(fields) == Subject(fields) + Separator + Join(PromptParts(fields)[1..], Separator)
  {
    var parts := PromptParts(fields);
    assert parts == [parts[0]] + parts[1..];
    JoinAppend([parts[0]], parts[1..], Separator);
  }

  /** The positive prompt ends with the two style clauses, after the other segments. */
  lemma PromptEndsWithStyle(fields: Fields)
    ensures var parts := PromptParts(fields);
      PositivePrompt(fields) == Join(parts[..|parts| - 2], Separator) + Separator + StyleTail
  {
    var parts := PromptParts(fields);
    var front := parts[..|parts| - 2];
    assert parts == front + [SkinSuffix, QualitySuffix];
    JoinAppend(front, [SkinSuffix, QualitySuffix], Separator);
    assert [SkinSuffix, QualitySuffix][..1] == [SkinSuffix];
  }

  /** A present category's segment is `"category: value"`, at the index given by the present categories before it. */
  lemma LabelledAt(fields: Fields, labels: seq<Attribute>, k: nat)
    requires k < |labels| && Segment(fields, labels[k]).Some?
    ensures |LabelledSegments(fields, labels[..k])| < |LabelledSegments(fields, labels)|
    ensures LabelledSegments(fields, labels)[|LabelledSegments(fields, labels[..k])|]
         == Name(labels[k]) + ": " + Cleaned(Get(fields, labels[k]))
  {
    var opts := Segments(fields, labels);
    SegmentsAt(fields, labels, k);
    PresentAt(opts, k);
    SegmentsPrefix(fields, labels, k);
    FormatSegmentCleaned(Name(labels[k]), Get(fields, labels[k]));
  }

  /** Each non-blank category contributes its `"category: value"` segment, at its position. */
  lemma LabelledSegmentPosition(fields: Fields, k: nat)
    requires k < |Labels| && Segment(fields, Labels[k]).Some?
    ensures var parts := PromptParts(fields);
      && Position(fields, k) < |parts| - 2
      && parts[Position(fields, k)] == Name(Labels[k]) + ": " + Cleaned(Get(fields, Labels[k]))
  {
    LabelledAt(fields, Labels, k);
  }

  /** Non-blank categories appear in the fixed order expression, pose, outfit, lighting, camera, mood, background. */
  lemma LabelledOrder(fields: Fields, j: nat, k: nat)
    requires j < k < |Labels|
    requires Segment(fields, Labels[j]).Some? && Segment(fields, Labels[k]).Some?
    ensures Position(fields, j) < Position(fields, k)
  {
    SegmentsAt(fields, Labels, j);
    PresentGrows(Segments(fields, Labels), j, k);
    SegmentsPrefix(fields, Labels, j);
    SegmentsPrefix(fields, Labels, k);
  }

  /** A non-blank animal always yields its motif segment, right after all labelled segments and right before the style clauses. */
  lemma AnimalSegmentPlace(fields: Fields)
    requires Cleaned(Get(fields, Animal)) != ""
    ensures var parts := PromptParts(fields);
      && |parts| - 3 == 1 + |LabelledSegments(fields, Labels)|
      && parts[|parts| - 3] == "subtle " + Cleaned(Get(fields, Animal)) + " motif integrated tastefully"
  {
  }

  /** The animal segment, when present, follows every labelled segment and precedes the style clauses. */
  lemma AnimalPosition(fields: Fields, k: nat)
    requires Cleaned(Get(fields, Animal)) != ""
    requires k < |Labels| && Segment(fields, Labels[k]).Some?
    ensures var parts := PromptParts(fields);
      && parts[|parts| - 3] == "subtle " + Cleaned(Get(fields, Animal)) + " motif integrated tastefully"
      && Position(fields, k) < |parts| - 3
  {
    var opts := Segments(fields, Labels);
    SegmentsAt(fields, Labels, k);
    PresentGrows(opts, k, |Labels|);
    assert opts[..|Labels|] == opts;
    SegmentsPrefix(fields, Labels, k);
  }

  /** No segment is empty or blank. */
  lemma NoBlankSegment(fields: Fields, i: nat)
    requires i < |PromptParts(fields)|
    ensures !AllSpace(PromptParts(fields)[i])
  {
    var parts := PromptParts(fields);
    var labelled := LabelledSegments(fields, Labels);
    if i == 0 {
      assert parts[0][0] == 'a';
    } else if i <= |labelled| {
      assert parts[i] == labelled[i - 1];
      LabelledNonBlank(fields, Labels, i - 1);
    } else if i == |parts| - 1 {
      assert parts[i] == QualitySuffix;
      assert parts[i][0] == '9';
    } else if i == |parts| - 2 {
      assert parts[i] == SkinSuffix;
      assert SkinSuffix[|SkinSuffix| - 1] == 'k';
    } else {
      assert parts[i] == AnimalSegments(fields)[0];
      assert parts[i][0] == 's';
    }
  }

  /** With every attribute absent or blank, the prompt is the subject and the two style clauses. */
  lemma AllBlankPrompt(fields: Fields)
    requires forall a :: Cleaned(Get(fields, a)) == ""
    ensures PositivePrompt(fields) == SubjectBase + Separator + StyleTail
  {
    forall i | 0 <= i < |Labels| ensures Segments(fields, Labels)[i].None? {
      SegmentsAt(fields, Labels, i);
      FormatSegmentCleaned(Name(Labels[i]), Get(fields, Labels[i]));
    }
    PresentNone(Segments(fields, Labels));
    assert Cleaned(Get(fields, Gender)) == "" && Cleaned(Get(fields, Animal)) == "";
    assert PromptParts(fields) == [SubjectBase] + [SkinSuffix, QualitySuffix];
    JoinAppend([SubjectBase], [SkinSuffix, QualitySuffix], Separator);
    assert [SkinSuffix, QualitySuffix][..1] == [SkinSuffix];
  }

  /** The segments of `labels` depend only on the stripped values. */
  lemma LabelledSegmentsCleaned(f: Fields, g: Fields, labels: seq<Attribute>)
    requires forall a :: Cleaned(Get(f, a)) == Cleaned(Get(g, a))
    ensures LabelledSegments(f, labels) == LabelledSegments(g, labels)
  {
    forall i | 0 <= i < |labels| ensures Segments(f, labels)[i] == Segments(g, labels)[i] {
      SegmentsAt(f, labels, i);
      SegmentsAt(g, labels, i);
      FormatSegmentCleaned(Name(labels[i]), Get(f, labels[i]));
      FormatSegmentCleaned(Name(labels[i]), Get(g, labels[i]));
    }
    assert Segments(f, labels) == Segments(g, labels);
  }

  /** The positive prompt depends only on the stripped attribute values. */
  lemma PromptDependsOnCleaned(f: Fields, g: Fields)
    requires forall a :: Cleaned(Get(f, a)) == Cleaned(Get(g, a))
    ensures PromptParts(f) == PromptParts(g)
    ensures PositivePrompt(f) == PositivePrompt(g)
  {
    LabelledSegmentsCleaned(f, g, Labels);
    assert Cleaned(Get(f, Gender)) == Cleaned(Get(g, Gender));
    assert Cleaned(Get(f, Animal)) == Cleaned(Get(g, Animal));
  }

  /** Setting one attribute to a value that strips to nothing leaves every stripped value as if the key were missing. */
  lemma BlankUpdateCleaned(fields: Fields, a: Attribute, w: Option<string>)
    requires Cleaned(w) == ""
    ensures forall b :: Cleaned(Get(fields[a := w], b)) == Cleaned(Get(fields - {a}, b))
  {
    StripEmpty("");
    forall b ensures Cleaned(Get(fields[a := w], b)) == Cleaned(Get(fields - {a}, b)) {
      if b != a {
        assert Get(fields[a := w], b) == Get(fields - {a}, b);
      }
    }
  }

  /** A whitespace-only value gives the same prompt as an absent one (missing key or `None`). */
  lemma BlankLikeAbsent(fields: Fields, a: Attribute, v: string)
    requires AllSpace(v)
    ensures PositivePrompt(fields[a := Some(v)]) == PositivePrompt(fields - {a})
    ensures PositivePrompt(fields[a := None]) == PositivePrompt(fields - {a})
  {
    StripEmpty(v);
    StripEmpty("");
    BlankUpdateCleaned(fields, a, Some(v));
    PromptDependsOnCleaned(fields[a := Some(v)], fields - {a});
    BlankUpdateCleaned(fields, a, None);
    PromptDependsOnCleaned(fields[a := None], fields - {a});
  }

  /** A given gender is named right after the base phrase: `"... portrait of a wizard, ..."`. */
  lemma GenderExample()
    ensures var prompt := PositivePrompt(map[Gender := Some("wizard")]);
      prompt[..|"a highly photorealistic portrait of a wizard, "|] == "a highly photorealistic portrait of a wizard, "
  {
    var fields := map[Gender := Some("wizard")];
    StripKeeps("wizard");
    assert Subject(fields) == "a highly photorealistic portrait of a wizard";
    PromptStartsWithSubject(fields);
  }
}
