/**
 * The OpenNLP sentence annotator: text that is entirely upper case is lowercased
 * before it is handed to the sentence detector, and every span the detector
 * reports becomes one sentence annotation on the content.
 */
module Sentences {
  import opened Values

  // ---------------------------------------------------------------- letter case

  /** A lower-case letter with a one-to-one upper-case partner: the ASCII letters
      and the Latin-1 letters U+00E0 to U+00FE other than the division sign. */
  predicate IsLowerLetter(c: char) {
    ('a' <= c <= 'z') || (0xE0 <= c as int <= 0xFE && c as int != 0xF7)
  }

  /** An upper-case letter with a one-to-one lower-case partner: the ASCII letters
      and the Latin-1 letters U+00C0 to U+00DE other than the multiplication sign. */
  predicate IsUpperLetter(c: char) {
    ('A' <= c <= 'Z') || (0xC0 <= c as int <= 0xDE && c as int != 0xD7)
  }

  function ToUpper(c: char): char {
    if IsLowerLetter(c) then (c as int - 32) as char else c
  }

  function ToLower(c: char): char {
    if IsUpperLetter(c) then (c as int + 32) as char else c
  }

  /** `String.toUpperCase`, letter by letter. */
  function Upper(s: string): string {
    seq(|s|, i requires 0 <= i < |s| => ToUpper(s[i]))
  }

  /** `String.toLowerCase`, letter by letter. */
  function Lower(s: string): string {
    seq(|s|, i requires 0 <= i < |s| => ToLower(s[i]))
  }

  /** Lowering a letter and raising it again gives its upper case. */
  lemma UpperOfLower(c: char)
    ensures ToUpper(ToLower(c)) == ToUpper(c)
    ensures ToLower(ToUpper(c)) == ToLower(c)
  {
  }

  /** A string is its own upper case exactly when it holds no lower-case letter. */
  lemma UpperFixedIff(s: string)
    ensures Upper(s) == s <==> forall i :: 0 <= i < |s| ==> !IsLowerLetter(s[i])
  {
    if Upper(s) == s {
      forall i | 0 <= i < |s| ensures !IsLowerLetter(s[i]) {
        assert Upper(s)[i] == s[i];
      }
    }
  }

  /** A string is its own lower case exactly when it holds no upper-case letter. */
  lemma LowerFixedIff(s: string)
    ensures Lower(s) == s <==> forall i :: 0 <= i < |s| ==> !IsUpperLetter(s[i])
  {
    if Lower(s) == s {
      forall i | 0 <= i < |s| ensures !IsUpperLetter(s[i]) {
        assert Lower(s)[i] == s[i];
      }
    }
  }

  /** `lowerIfUpperCase`: the lower case of a string that equals its own upper case,
      and any other string as it is. */
  function LowerIfUpperCase(original: string): (r: string)
    ensures |r| == |original|
    ensures r == original || Upper(original) == original
  {
    if Upper(original) == original then Lower(original) else original
  }

  /** Text without a lower-case letter is lowercased: no upper-case letter remains
      and every letter keeps its place. */
  lemma AllCapsLowered(s: string)
    requires forall i :: 0 <= i < |s| ==> !IsLowerLetter(s[i])
    ensures LowerIfUpperCase(s) == Lower(s)
    ensures forall i :: 0 <= i < |s| ==> !IsUpperLetter(LowerIfUpperCase(s)[i])
  {
    UpperFixedIff(s);
  }

  /** Text with a lower-case letter passes through unchanged. */
  lemma MixedCaseUnchanged(s: string, i: int)
    requires 0 <= i < |s| && IsLowerLetter(s[i])
    ensures LowerIfUpperCase(s) == s
  {
    UpperFixedIff(s);
  }

  /** Text with no cased letter at all passes through unchanged, since it is its own
      upper case and its own lower case. */
  lemma UncasedUnchanged(s: string)
    requires forall i :: 0 <= i < |s| ==> !IsLowerLetter(s[i]) && !IsUpperLetter(s[i])
    ensures LowerIfUpperCase(s) == s
  {
    UpperFixedIff(s);
    LowerFixedIff(s);
  }

  /** Only letter case changes: the result has the same upper case as the input. */
  lemma SameUpToCase(s: string)
    ensures Upper(LowerIfUpperCase(s)) == Upper(s)
  {
    if Upper(s) == s {
      forall i | 0 <= i < |s| ensures Upper(Lower(s))[i] == Upper(s)[i] {
        UpperOfLower(s[i]);
      }
    }
  }

  /** Applying it twice is applying it once. */
  lemma LowerIfUpperCaseIdempotent(s: string)
    ensures LowerIfUpperCase(LowerIfUpperCase(s)) == LowerIfUpperCase(s)
  {
    var r := LowerIfUpperCase(s);
    if Upper(s) == s {
      SameUpToCase(s);
      assert Upper(r) == s;
    }
  }

  // ---------------------------------------------------------------- annotations

  /** A sentence the detector found: character offsets and the detector's probability. */
  datatype Span = Span(start: int, end: int, prob: real)

  /** The only annotation type this processor creates. */
  datatype AnnotationType = SentenceType

  /** A saved annotation: its span bounds, its type and its properties. */
  datatype Annotation = Annotation(begin: int, end: int, kind: AnnotationType, props: Properties)

  /** The annotation a span becomes. */
  function SentenceAnnotation(s: Span): Annotation {
    Annotation(s.start, s.end, SentenceType, map[Probability := Real(s.prob)])
  }

  /** The annotations of a run of spans, in span order. */
  function SentenceAnnotations(spans: seq<Span>): seq<Annotation>
    decreases |spans|
  {
    if spans == [] then []
    else SentenceAnnotations(spans[..|spans| - 1]) + [SentenceAnnotation(spans[|spans| - 1])]
  }

  /** One sentence annotation per span, in span order, each with the span's bounds and
      its probability as the only property. */
  lemma {:induction false} SentenceAnnotationsShape(spans: seq<Span>)
    ensures |SentenceAnnotations(spans)| == |spans|
    ensures forall i :: 0 <= i < |spans| ==>
      var a := SentenceAnnotations(spans)[i];
      a.begin == spans[i].start && a.end == spans[i].end && a.kind == SentenceType &&
      a.props.Keys == {Probability} && a.props[Probability] == Real(spans[i].prob)
    decreases |spans|
  {
    if spans != [] {
      var init := spans[..|spans| - 1];
      SentenceAnnotationsShape(init);
      forall i | 0 <= i < |init| ensures SentenceAnnotations(spans)[i] == SentenceAnnotations(init)[i] {
        assert init[i] == spans[i];
      }
    }
  }

  /** Text content with its annotation store. */
  class TextContent {
    const data: string
    var annotations: seq<Annotation>

    constructor (data: string)
      ensures this.data == data && annotations == []
    {
      this.data := data;
      annotations := [];
    }

    /** `getAnnotations().create() … save()`: the annotation joins the store. */
    method Save(a: Annotation)
      modifies this
      ensures annotations == old(annotations) + [a]
    {
      annotations := annotations + [a];
    }
  }

  class Processor {
    /** `sentPosDetect` of the loaded model: the spans of the sentences in a text.
        `None` once the processor is closed. */
    var detector: Option<string -> seq<Span>>

    constructor (model: string -> seq<Span>)
      ensures detector == Some(model)
    {
      detector := Some(model);
    }

    /** `process`: the spans detected in the (possibly lowercased) text each become a
        sentence annotation, in order. On a closed processor the detector call fails
        before any annotation is created, and `ok` is false. */
    method Process(content: TextContent) returns (ok: bool)
      modifies content
      ensures ok <==> detector.Some?
      ensures ok ==> (content.annotations ==
        old(content.annotations) + SentenceAnnotations(detector.value(LowerIfUpperCase(content.data))))
      ensures !ok ==> content.annotations == old(content.annotations)
    {
      if detector.None? {
        return false;
      }
      var sentences := detector.value(LowerIfUpperCase(content.data));
      var i := 0;
      while i < |sentences|
        invariant 0 <= i <= |sentences|
        invariant content.annotations == old(content.annotations) + SentenceAnnotations(sentences[..i])
      {
        assert sentences[..i + 1][..i] == sentences[..i];
        content.Save(SentenceAnnotation(sentences[i]));
        i := i + 1;
      }
      assert sentences[..i] == sentences;
      ok := true;
    }

    /** `close`: the detector is released. */
    method Close()
      modifies this
      ensures detector == None
    {
      detector := None;
    }
  }
}
