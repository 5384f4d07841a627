/**
 * The PowerPoint (PPTX) extractor processor: a cache of parsed documents keyed by
 * content id, and the extraction of document metadata, per-slide text and embedded
 * pictures from a parsed slide show. Parsing, picture decoding and picture metadata
 * reading are done by libraries; the model takes their outcomes as given.
 */
module PptxExtractor {
  import opened Values
  import opened Imaging

  // ---------------------------------------------------------------- the parsed document

  /** The core properties of a document; an absent string or date is `None`. */
  datatype CoreProperties = CoreProperties(
    category: Option<string>,
    contentStatus: Option<string>,
    contentType: Option<string>,
    created: Option<int>,
    creator: Option<string>,
    description: Option<string>,
    identifier: Option<string>,
    keywords: Option<string>,
    lastModifiedBy: Option<string>,
    lastPrinted: Option<int>,
    modified: Option<int>,
    revision: Option<string>,
    subject: Option<string>,
    title: Option<string>)

  /** The extended properties of a document; an unset count is -1. */
  datatype ExtendedProperties = ExtendedProperties(
    application: Option<string>,
    appVersion: Option<string>,
    characters: int,
    charactersWithSpaces: int,
    company: Option<string>,
    hiddenSlides: int,
    hyperlinkBase: Option<string>,
    lines: int,
    manager: Option<string>,
    mmClips: int,
    notes: int,
    pages: int,
    paragraphs: int,
    presentationFormat: Option<string>,
    slides: int,
    template: Option<string>,
    totalTime: int,
    words: int)

  /** A slide: its name, number and title, and the text each of the three slide-show
      extractors gives for it (slides with masters, notes only, comments only). */
  datatype Slide = Slide(
    name: Option<string>,
    number: int,
    title: Option<string>,
    slideText: string,
    notesText: string,
    commentsText: string)

  /** What decoding a picture's bytes as an image gives: an I/O error, no image, or an image. */
  datatype Decoding = Unreadable | NoImage | Decoded(image: Raster)

  /** An embedded picture: its index, content type and file name, how its bytes
      decode, and the properties read from its image metadata (`None` when reading
      the metadata throws). */
  datatype Picture = Picture(
    index: int,
    contentType: string,
    fileName: string,
    decoding: Decoding,
    metadata: Option<Properties>)

  datatype SlideShow = SlideShow(
    core: CoreProperties,
    extended: ExtendedProperties,
    slides: seq<Slide>,
    pictures: seq<Picture>)

  /** An extracted item with the properties that describe where it came from. */
  datatype Extraction<T> = Extraction(data: T, props: Properties)

  /** A table extracted from a document. */
  datatype Table = Table(rows: seq<seq<string>>)

  // ---------------------------------------------------------------- capabilities

  datatype Capability = MetadataExtraction | TextExtraction | ImageExtraction | TableExtraction

  /** The `is*Supported` answers: everything but tables. */
  function Supports(c: Capability): (r: bool)
    ensures r <==> c != TableExtraction
  {
    match c
    case MetadataExtraction => true
    case TextExtraction => true
    case ImageExtraction => true
    case TableExtraction => false
  }

  // ---------------------------------------------------------------- metadata

  /** The metadata keys: fourteen core properties, then eighteen extended ones. */
  datatype MetaKey =
    | Category | ContentStatus | ContentType | CreationDate | Creator | Description
    | Identifier | Keywords | LastModifiedBy | LastPrintedDate | LastModifiedDate
    | Revision | Subject | DocTitle
    | Application | ApplicationVersion | NonWhitespaceCharacterCount | CharacterCount
    | Company | HiddenSlideCount | HyperlinkBase | LineCount | Manager
    | MultimediaClipCount | NoteCount | PageCount | ParagraphCount
    | PresentationFormat | SlideCount | Template | EditingDuration | WordCount

  /** A possibly absent string as a property value. */
  function Text(o: Option<string>): Value {
    match o
    case None => Null
    case Some(t) => Str(t)
  }

  /** A possibly absent date as a temporal property value. */
  function Date(o: Option<int>): Value {
    match o
    case None => Null
    case Some(t) => Temporal(t)
  }

  /** The four groups of keys: text and date properties of the core part, text and
      count properties of the extended part. */
  datatype KeyGroup = CoreText | CoreDate | ExtendedText | ExtendedCount

  function Group(k: MetaKey): KeyGroup {
    match k
    case CreationDate | LastPrintedDate | LastModifiedDate => CoreDate
    case Category | ContentStatus | ContentType | Creator | Description | Identifier
      | Keywords | LastModifiedBy | Revision | Subject | DocTitle => CoreText
    case Application | ApplicationVersion | Company | HyperlinkBase | Manager
      | PresentationFormat | Template => ExtendedText
    case NonWhitespaceCharacterCount | CharacterCount | HiddenSlideCount | LineCount
      | MultimediaClipCount | NoteCount | PageCount | ParagraphCount | SlideCount
      | EditingDuration | WordCount => ExtendedCount
  }

  const CoreTextKeys: set<MetaKey> := {
    Category, ContentStatus, ContentType, Creator, Description, Identifier,
    Keywords, LastModifiedBy, Revision, Subject, DocTitle}
  const CoreDateKeys: set<MetaKey> := {CreationDate, LastPrintedDate, LastModifiedDate}
  const ExtendedTextKeys: set<MetaKey> := {
    Application, ApplicationVersion, Company, HyperlinkBase, Manager,
    PresentationFormat, Template}
  const ExtendedCountKeys: set<MetaKey> := {
    NonWhitespaceCharacterCount, CharacterCount, HiddenSlideCount, LineCount,
    MultimediaClipCount, NoteCount, PageCount, ParagraphCount, SlideCount,
    EditingDuration, WordCount}

  /** Every metadata key, group by group. */
  const AllMetaKeys: set<MetaKey> :=
    CoreTextKeys + CoreDateKeys + ExtendedTextKeys + ExtendedCountKeys

  /** The key set names every key. */
  lemma AllMetaKeysComplete()
    ensures forall k :: k in AllMetaKeys
  {
    forall k ensures k in AllMetaKeys {
      match k {
        case Category =>
        case ContentStatus =>
        case ContentType =>
        case CreationDate =>
        case Creator =>
        case Description =>
        case Identifier =>
        case Keywords =>
        case LastModifiedBy =>
        case LastPrintedDate =>
        case LastModifiedDate =>
        case Revision =>
        case Subject =>
        case DocTitle =>
        case Application =>
        case ApplicationVersion =>
        case NonWhitespaceCharacterCount =>
        case CharacterCount =>
        case Company =>
        case HiddenSlideCount =>
        case HyperlinkBase =>
        case LineCount =>
        case Manager =>
        case MultimediaClipCount =>
        case NoteCount =>
        case PageCount =>
        case ParagraphCount =>
        case PresentationFormat =>
        case SlideCount =>
        case Template =>
        case EditingDuration =>
        case WordCount =>
      }
    }
  }

  // The size and the group of each set of keys, one set at a time.

  lemma CoreTextKeysSize()
    ensures |CoreTextKeys| == 11
  {
  }

  lemma CoreTextKeysGroup()
    ensures forall k :: k in CoreTextKeys ==> Group(k) == CoreText
  {
  }

  lemma CoreDateKeysSize()
    ensures |CoreDateKeys| == 3
  {
  }

  lemma CoreDateKeysGroup()
    ensures forall k :: k in CoreDateKeys ==> Group(k) == CoreDate
  {
  }

  lemma ExtendedTextKeysSize()
    ensures |ExtendedTextKeys| == 7
  {
  }

  lemma ExtendedTextKeysGroup()
    ensures forall k :: k in ExtendedTextKeys ==> Group(k) == ExtendedText
  {
  }

  lemma ExtendedCountKeysSize()
    ensures |ExtendedCountKeys| == 11
  {
  }

  lemma ExtendedCountKeysGroup()
    ensures forall k :: k in ExtendedCountKeys ==> Group(k) == ExtendedCount
  {
  }

  /** The thirty-two keys are pairwise distinct. */
  lemma AllMetaKeysCount()
    ensures |AllMetaKeys| == 32
  {
    CoreTextKeysSize();
    CoreTextKeysGroup();
    CoreDateKeysSize();
    CoreDateKeysGroup();
    ExtendedTextKeysSize();
    ExtendedTextKeysGroup();
    ExtendedCountKeysSize();
    ExtendedCountKeysGroup();
    assert CoreTextKeys * CoreDateKeys == {};
    assert (CoreTextKeys + CoreDateKeys) * ExtendedTextKeys == {};
    assert (CoreTextKeys + CoreDateKeys + ExtendedTextKeys) * ExtendedCountKeys == {};
  }

  /** The metadata map before the unset values are dropped. */
  function Readings(doc: SlideShow): map<MetaKey, Value> {
    map k | k in AllMetaKeys :: Reading(doc, k)
  }

  /** Every one of the thirty-two keys is put into the map, each with the reading of
      its document property. */
  lemma ReadingsComplete(doc: SlideShow)
    ensures |Readings(doc)| == 32
    ensures forall k :: k in Readings(doc) && Readings(doc)[k] == Reading(doc, k)
  {
    AllMetaKeysComplete();
    assert Readings(doc).Keys == AllMetaKeys;
    AllMetaKeysCount();
  }

  /** The value of the document property that is stored under key `k`. */
  function Reading(doc: SlideShow, k: MetaKey): Value {
    var c, e := doc.core, doc.extended;
    match k
    case Category => Text(c.category)
    case ContentStatus => Text(c.contentStatus)
    case ContentType => Text(c.contentType)
    case CreationDate => Date(c.created)
    case Creator => Text(c.creator)
    case Description => Text(c.description)
    case Identifier => Text(c.identifier)
    case Keywords => Text(c.keywords)
    case LastModifiedBy => Text(c.lastModifiedBy)
    case LastPrintedDate => Date(c.lastPrinted)
    case LastModifiedDate => Date(c.modified)
    case Revision => Text(c.revision)
    case Subject => Text(c.subject)
    case DocTitle => Text(c.title)
    case Application => Text(e.application)
    case ApplicationVersion => Text(e.appVersion)
    case NonWhitespaceCharacterCount => Int(e.characters)
    case CharacterCount => Int(e.charactersWithSpaces)
    case Company => Text(e.company)
    case HiddenSlideCount => Int(e.hiddenSlides)
    case HyperlinkBase => Text(e.hyperlinkBase)
    case LineCount => Int(e.lines)
    case Manager => Text(e.manager)
    case MultimediaClipCount => Int(e.mmClips)
    case NoteCount => Int(e.notes)
    case PageCount => Int(e.pages)
    case ParagraphCount => Int(e.paragraphs)
    case PresentationFormat => Text(e.presentationFormat)
    case SlideCount => Int(e.slides)
    case Template => Text(e.template)
    case EditingDuration => Int(e.totalTime)
    case WordCount => Int(e.words)
  }

  /** The integer -1, which the parsing library reports for a count that is not set. */
  const Unset: Value := Int(-1)

  /** Only integer fields can be unset: no string or date property reads as -1. */
  lemma OnlyCountsUnset(doc: SlideShow, k: MetaKey)
    requires Reading(doc, k) == Unset
    ensures k in {NonWhitespaceCharacterCount, CharacterCount, HiddenSlideCount, LineCount,
                  MultimediaClipCount, NoteCount, PageCount, ParagraphCount, SlideCount,
                  EditingDuration, WordCount}
  {
  }

  // ---------------------------------------------------------------- runs of entries

  /** The entries of each element, one element after the other. */
  function FlatMap<A, B>(f: A -> seq<B>, xs: seq<A>): seq<B>
    decreases |xs|
  {
    if xs == [] then [] else FlatMap(f, xs[..|xs| - 1]) + f(xs[|xs| - 1])
  }

  lemma {:induction false} FlatMapConcat<A, B>(f: A -> seq<B>, xs: seq<A>, ys: seq<A>)
    ensures FlatMap(f, xs + ys) == FlatMap(f, xs) + FlatMap(f, ys)
    decreases |ys|
  {
    if ys == [] {
      assert xs + ys == xs;
    } else {
      var init := ys[..|ys| - 1];
      assert (xs + ys)[..|xs + ys| - 1] == xs + init;
      assert (xs + ys)[|xs + ys| - 1] == ys[|ys| - 1];
      FlatMapConcat(f, xs, init);
    }
  }

  /** Extending a run by one element appends that element's entries. */
  lemma FlatMapStep<A, B>(f: A -> seq<B>, xs: seq<A>, i: nat)
    requires i < |xs|
    ensures FlatMap(f, xs[..i + 1]) == FlatMap(f, xs[..i]) + f(xs[i])
  {
    assert xs[..i + 1][..i] == xs[..i];
  }

  /** The element an entry of a run comes from. */
  lemma {:induction false} FlatMapOrigin<A, B>(f: A -> seq<B>, xs: seq<A>, y: B) returns (i: nat)
    requires y in FlatMap(f, xs)
    ensures i < |xs| && y in f(xs[i])
    decreases |xs|
  {
    var init := xs[..|xs| - 1];
    if y in f(xs[|xs| - 1]) {
      i := |xs| - 1;
    } else {
      i := FlatMapOrigin(f, init, y);
      assert init[i] == xs[i];
    }
  }

  lemma {:induction false} FlatMapMembership<A, B>(f: A -> seq<B>, xs: seq<A>)
    ensures forall y :: y in FlatMap(f, xs) <==> exists i :: 0 <= i < |xs| && y in f(xs[i])
    decreases |xs|
  {
    if xs != [] {
      var init := xs[..|xs| - 1];
      FlatMapMembership(f, init);
      forall y ensures y in FlatMap(f, xs) <==> exists i :: 0 <= i < |xs| && y in f(xs[i]) {
        if exists i :: 0 <= i < |xs| && y in f(xs[i]) {
          var i :| 0 <= i < |xs| && y in f(xs[i]);
          if i < |init| {
            assert init[i] == xs[i];
          }
        }
        if exists i :: 0 <= i < |init| && y in f(init[i]) {
          var i :| 0 <= i < |init| && y in f(init[i]);
          assert xs[i] == init[i];
        }
      }
    }
  }

  lemma {:induction false} FlatMapLength<A, B>(f: A -> seq<B>, xs: seq<A>, bound: nat)
    requires forall i :: 0 <= i < |xs| ==> |f(xs[i])| <= bound
    ensures |FlatMap(f, xs)| <= bound * |xs|
    decreases |xs|
  {
    if xs != [] {
      var init := xs[..|xs| - 1];
      forall i | 0 <= i < |init| ensures |f(init[i])| <= bound {
        assert init[i] == xs[i];
      }
      FlatMapLength(f, init, bound);
      assert |FlatMap(f, xs)| == |FlatMap(f, init)| + |f(xs[|xs| - 1])|;
      assert bound * |xs| == bound * |init| + bound;
    }
  }

  // ---------------------------------------------------------------- text

  /** `Character.isWhitespace`: the Unicode space, line and paragraph separators other
      than the no-break spaces (U+00A0, U+2007, U+202F), and the controls U+0009 to
      U+000D and U+001C to U+001F. */
  predicate IsWhitespace(ch: char) {
    var n := ch as int;
    (0x09 <= n <= 0x0D) || (0x1C <= n <= 0x20)
    || n == 0x1680 || (0x2000 <= n <= 0x2006) || (0x2008 <= n <= 0x200A)
    || n == 0x2028 || n == 0x2029 || n == 0x205F || n == 0x3000
  }

  /** `String.isBlank`: empty or only white space. */
  predicate IsBlank(s: string) {
    forall i :: 0 <= i < |s| ==> IsWhitespace(s[i])
  }

  /** The three kinds of text entry, in the order each slide emits them. */
  datatype TextKind = SlideKind | NoteKind | CommentKind

  function SubtypeName(k: TextKind): string {
    match k
    case SlideKind => "slide"
    case NoteKind => "note"
    case CommentKind => "comment"
  }

  function TextOf(slide: Slide, k: TextKind): string {
    match k
    case SlideKind => slide.slideText
    case NoteKind => slide.notesText
    case CommentKind => slide.commentsText
  }

  /** The entry of the given kind for a slide. */
  function Entry(slide: Slide, k: TextKind): Extraction<string> {
    Extraction(TextOf(slide, k), EntryProperties(slide, k))
  }

  function EntryProperties(slide: Slide, k: TextKind): Properties {
    match k
    case SlideKind => map[Name := Text(slide.name), Page := Int(slide.number), Title := Text(slide.title), Subtype := Str("slide")]
    case NoteKind => map[Page := Int(slide.number), Subtype := Str("note")]
    case CommentKind => map[Page := Int(slide.number), Subtype := Str("comment")]
  }

  /** An entry holds its kind's text; it carries the slide's page and the kind's
      subtype, and a slide entry also the slide's name and title, and nothing more. */
  lemma EntryProps(slide: Slide, k: TextKind)
    ensures var e := Entry(slide, k);
      && e.data == TextOf(slide, k)
      && e.props.Keys == (if k == SlideKind then {Name, Page, Title, Subtype} else {Page, Subtype})
      && e.props[Page] == Int(slide.number) && e.props[Subtype] == Str(SubtypeName(k))
      && (k == SlideKind ==> e.props[Name] == Text(slide.name) && e.props[Title] == Text(slide.title))
  {
  }

  /** The entry of the given kind if its text is not blank. */
  function EntryIfText(slide: Slide, k: TextKind): seq<Extraction<string>> {
    if IsBlank(TextOf(slide, k)) then [] else [Entry(slide, k)]
  }

  /** The entries of one slide: slide, note and comment, each only when not blank. */
  function SlideEntries(slide: Slide): seq<Extraction<string>> {
    EntryIfText(slide, SlideKind) + EntryIfText(slide, NoteKind) + EntryIfText(slide, CommentKind)
  }

  /** The entries of a run of slides, slide after slide. */
  function TextEntries(slides: seq<Slide>): seq<Extraction<string>> {
    FlatMap(SlideEntries, slides)
  }

  /** The position of each kind in a slide's entries. */
  function Rank(k: TextKind): nat {
    match k
    case SlideKind => 0
    case NoteKind => 1
    case CommentKind => 2
  }

  /** The kind of the entry at position `i` of a slide's entries. */
  function KindAt(slide: Slide, i: int): TextKind {
    if i < |EntryIfText(slide, SlideKind)| then SlideKind
    else if i < |EntryIfText(slide, SlideKind)| + |EntryIfText(slide, NoteKind)| then NoteKind
    else CommentKind
  }

  /** A slide emits at most three entries. */
  lemma SlideEntriesBound(slide: Slide)
    ensures |SlideEntries(slide)| <= 3
  {
  }

  /** A slide emits the entry of every kind whose text is not blank. */
  lemma SlideEntriesComplete(slide: Slide, k: TextKind)
    requires !IsBlank(TextOf(slide, k))
    ensures Entry(slide, k) in SlideEntries(slide)
  {
    var a, b := EntryIfText(slide, SlideKind), EntryIfText(slide, NoteKind);
    match k {
      case SlideKind => assert SlideEntries(slide)[0] == Entry(slide, k);
      case NoteKind => assert SlideEntries(slide)[|a|] == Entry(slide, k);
      case CommentKind => assert SlideEntries(slide)[|a| + |b|] == Entry(slide, k);
    }
  }

  /** Every entry of a slide is the entry of a kind whose text is not blank:
      the entry at position `i` is that of `KindAt(slide, i)`. */
  lemma SlideEntriesOrigin(slide: Slide, i: int)
    requires 0 <= i < |SlideEntries(slide)|
    ensures !IsBlank(TextOf(slide, KindAt(slide, i))) && SlideEntries(slide)[i] == Entry(slide, KindAt(slide, i))
  {
  }

  /** A slide's entries come in the order slide, note, comment. */
  lemma SlideEntriesOrder(slide: Slide, i: int, j: int)
    requires 0 <= i < j < |SlideEntries(slide)|
    ensures Rank(KindAt(slide, i)) < Rank(KindAt(slide, j))
  {
  }

  /** Entries come slide by slide: the entries of two runs of slides are those of the
      first run followed by those of the second. */
  lemma TextEntriesConcat(a: seq<Slide>, b: seq<Slide>)
    ensures TextEntries(a + b) == TextEntries(a) + TextEntries(b)
  {
    FlatMapConcat(SlideEntries, a, b);
  }

  /** Every text entry is the entry of some slide's kind whose text is not blank,
      so no entry holds blank text. */
  lemma TextEntriesOrigin(slides: seq<Slide>)
    ensures forall e :: e in TextEntries(slides) ==>
      exists i, k :: 0 <= i < |slides| && !IsBlank(TextOf(slides[i], k)) && e == Entry(slides[i], k)
    ensures forall e :: e in TextEntries(slides) ==> !IsBlank(e.data)
  {
    FlatMapMembership(SlideEntries, slides);
    forall e | e in TextEntries(slides)
      ensures exists i, k :: 0 <= i < |slides| && !IsBlank(TextOf(slides[i], k)) && e == Entry(slides[i], k)
    {
      var i := FlatMapOrigin(SlideEntries, slides, e);
      var n :| 0 <= n < |SlideEntries(slides[i])| && SlideEntries(slides[i])[n] == e;
      SlideEntriesOrigin(slides[i], n);
      var k := KindAt(slides[i], n);
      assert !IsBlank(TextOf(slides[i], k)) && e == Entry(slides[i], k);
    }
  }

  /** Every slide's every non-blank text is extracted. */
  lemma TextEntriesComplete(slides: seq<Slide>)
    ensures forall i, k :: 0 <= i < |slides| && !IsBlank(TextOf(slides[i], k)) ==> Entry(slides[i], k) in TextEntries(slides)
  {
    FlatMapMembership(SlideEntries, slides);
    forall i, k | 0 <= i < |slides| && !IsBlank(TextOf(slides[i], k))
      ensures Entry(slides[i], k) in TextEntries(slides)
    {
      SlideEntriesComplete(slides[i], k);
    }
  }

  /** At most three entries are extracted per slide. */
  lemma TextEntriesBound(slides: seq<Slide>)
    ensures |TextEntries(slides)| <= 3 * |slides|
  {
    forall i | 0 <= i < |slides| ensures |SlideEntries(slides[i])| <= 3 {
      SlideEntriesBound(slides[i]);
    }
    FlatMapLength(SlideEntries, slides, 3);
  }

  // ---------------------------------------------------------------- images

  /** The properties of an extracted picture: its image metadata, then index + 1,
      content type and file name, which override metadata under the same keys. */
  function PictureProps(p: Picture): (props: Properties)
    ensures Index in props && Mimetype in props && Name in props
    ensures props[Index] == Int(p.index + 1) && props[Mimetype] == Str(p.contentType) && props[Name] == Str(p.fileName)
    ensures forall k :: k !in {Index, Mimetype, Name} ==>
      (k in props <==> p.metadata.Some? && k in p.metadata.value)
    ensures forall k :: k !in {Index, Mimetype, Name} && k in props ==> props[k] == p.metadata.value[k]
  {
    var base := match p.metadata case None => map[] case Some(m) => m;
    base[Index := Int(p.index + 1)][Mimetype := Str(p.contentType)][Name := Str(p.fileName)]
  }

  /** The entry for a picture: its image with its properties, if it decodes to one. */
  function PictureEntries(p: Picture): seq<Extraction<Raster>> {
    if p.decoding.Decoded? then [Extraction(p.decoding.image, PictureProps(p))] else []
  }

  /** The entries for a run of pictures, in order. */
  function ImageEntries(pictures: seq<Picture>): seq<Extraction<Raster>> {
    FlatMap(PictureEntries, pictures)
  }

  /** A picture is extracted exactly when it decodes: unreadable pictures and pictures
      that decode to nothing are skipped, and every entry is one picture's image with
      that picture's properties. */
  lemma ImageEntriesFrom(pictures: seq<Picture>)
    ensures |ImageEntries(pictures)| <= |pictures|
    ensures forall e :: e in ImageEntries(pictures) <==>
      exists i :: 0 <= i < |pictures| && pictures[i].decoding.Decoded? &&
        e == Extraction(pictures[i].decoding.image, PictureProps(pictures[i]))
  {
    FlatMapMembership(PictureEntries, pictures);
    FlatMapLength(PictureEntries, pictures, 1);
    forall e ensures e in ImageEntries(pictures) <==>
      exists i :: 0 <= i < |pictures| && pictures[i].decoding.Decoded? &&
        e == Extraction(pictures[i].decoding.image, PictureProps(pictures[i]))
    {
      assert e in ImageEntries(pictures) <==> e in FlatMap(PictureEntries, pictures);
      if e in ImageEntries(pictures) {
        var i := FlatMapOrigin(PictureEntries, pictures, e);
        assert pictures[i].decoding.Decoded? && e == Extraction(pictures[i].decoding.image, PictureProps(pictures[i]));
      }
      if exists i :: (0 <= i < |pictures| && pictures[i].decoding.Decoded? &&
                      e == Extraction(pictures[i].decoding.image, PictureProps(pictures[i]))) {
        var i :| 0 <= i < |pictures| && pictures[i].decoding.Decoded? &&
          e == Extraction(pictures[i].decoding.image, PictureProps(pictures[i]));
        assert e in PictureEntries(pictures[i]);
      }
    }
  }

  /** When every picture decodes, one entry is produced per picture, in picture order. */
  lemma {:induction false} AllDecoded(pictures: seq<Picture>)
    requires forall i :: 0 <= i < |pictures| ==> pictures[i].decoding.Decoded?
    ensures |ImageEntries(pictures)| == |pictures|
    ensures forall i :: 0 <= i < |pictures| ==>
      ImageEntries(pictures)[i] == Extraction(pictures[i].decoding.image, PictureProps(pictures[i]))
    decreases |pictures|
  {
    if pictures != [] {
      var init := pictures[..|pictures| - 1];
      forall i | 0 <= i < |init| ensures init[i].decoding.Decoded? {
        assert init[i] == pictures[i];
      }
      AllDecoded(init);
      forall i | 0 <= i < |init| ensures ImageEntries(pictures)[i] == ImageEntries(init)[i] {
        assert init[i] == pictures[i];
      }
    }
  }

  // ---------------------------------------------------------------- the processor

  /** The document `extractDocument` yields: the cached one for the id, or else what
      parsing the content afresh gives. */
  function Lookup(cache: map<string, SlideShow>, id: string, parsed: Result<SlideShow, string>): Result<SlideShow, string> {
    if id in cache then Ok(cache[id]) else parsed
  }

  /** A document accepted under an id is the one later extracted for that id, however
      parsing would now turn out, until the id is accepted again or the cache is reset. */
  lemma AcceptedIsReturned(cache: map<string, SlideShow>, id: string, doc: SlideShow, other: string,
                           reparsed: Result<SlideShow, string>)
    ensures Lookup(cache[id := doc], id, reparsed) == Ok(doc)
    ensures other != id ==> Lookup(cache[id := doc], other, reparsed) == Lookup(cache, other, reparsed)
    ensures Lookup(map[], id, reparsed) == reparsed
  {
  }

  class Processor {
    /** Parsed documents by content id. */
    var cache: map<string, SlideShow>

    constructor ()
      ensures cache == map[]
    {
      cache := map[];
    }

    /** `reset`: forget every parsed document. */
    method Reset()
      modifies this
      ensures cache == map[]
    {
      cache := map[];
    }

    /** `acceptFile` and `acceptInputStream`: a content is accepted exactly when its
        data parses as a slide show, and the parsed document is cached under its id;
        a content that does not parse leaves the cache as it was. */
    method Accept(id: string, parsed: Result<SlideShow, string>) returns (accepted: bool)
      modifies this
      ensures accepted <==> parsed.Ok?
      ensures cache == if parsed.Ok? then old(cache)[id := parsed.value] else old(cache)
    {
      if parsed.Err? {
        return false;
      }
      cache := cache[id := parsed.value];
      accepted := true;
    }

    /** `extractDocument`: the cached document when there is one, else a fresh parse;
        the cache is not changed either way. */
    method ExtractDocument(id: string, parsed: Result<SlideShow, string>) returns (doc: Result<SlideShow, string>)
      ensures doc == Lookup(cache, id, parsed)
      ensures id in cache ==> doc == Ok(cache[id])
      ensures id !in cache ==> doc == parsed
    {
      if id in cache {
        doc := Ok(cache[id]);
      } else {
        doc := parsed;
      }
    }

    /** `extractMetadata`: every document property under its key, then every entry
        whose value is the integer -1 removed. */
    method ExtractMetadata(doc: SlideShow) returns (metadata: map<MetaKey, Value>)
      ensures forall k :: k in metadata <==> Reading(doc, k) != Unset
      ensures forall k :: k in metadata ==> metadata[k] == Reading(doc, k)
    {
      metadata := Readings(doc);
      ReadingsComplete(doc);
      // removeIf over the values: visit every entry once, dropping the unset ones
      var unvisited := metadata.Keys;
      while unvisited != {}
        invariant unvisited <= metadata.Keys
        invariant forall k :: k in metadata ==> metadata[k] == Reading(doc, k)
        invariant forall k :: k in metadata <==> k in unvisited || Reading(doc, k) != Unset
        decreases |unvisited|
      {
        var k :| k in unvisited;
        if metadata[k] == Unset {
          metadata := metadata - {k};
        }
        unvisited := unvisited - {k};
      }
    }

    /** `extractText`: the slides in order, each giving its slide, note and comment
        entries when their text is not blank. */
    method ExtractText(doc: SlideShow) returns (entries: seq<Extraction<string>>)
      ensures entries == TextEntries(doc.slides)
    {
      entries := [];
      var i := 0;
      while i < |doc.slides|
        invariant 0 <= i <= |doc.slides|
        invariant entries == FlatMap(SlideEntries, doc.slides[..i])
      {
        var slide := doc.slides[i];
        FlatMapStep(SlideEntries, doc.slides, i);
        var found := SlideText(slide);
        entries := entries + found;
        i := i + 1;
      }
      assert doc.slides[..i] == doc.slides;
    }

    /** `extractImages`: every picture that decodes to an image, in order, with its
        properties; a picture that cannot be read or decodes to nothing is skipped. */
    method ExtractImages(doc: SlideShow) returns (images: seq<Extraction<Raster>>)
      ensures images == ImageEntries(doc.pictures)
    {
      images := [];
      var i := 0;
      while i < |doc.pictures|
        invariant 0 <= i <= |doc.pictures|
        invariant images == FlatMap(PictureEntries, doc.pictures[..i])
      {
        var picture := doc.pictures[i];
        FlatMapStep(PictureEntries, doc.pictures, i);
        i := i + 1;
        if !picture.decoding.Decoded? {
          continue;
        }
        var props: Properties := map[];
        if picture.metadata.Some? {
          props := props + picture.metadata.value;
        }
        props := props[Index := Int(picture.index + 1)];
        props := props[Mimetype := Str(picture.contentType)];
        props := props[Name := Str(picture.fileName)];
        assert props == PictureProps(picture);
        images := images + [Extraction(picture.decoding.image, props)];
      }
      assert doc.pictures[..i] == doc.pictures;
    }

    /** The body of `extractText`'s loop: one slide's slide, note and comment
        entries, each only when its text is not blank. */
    static method SlideText(slide: Slide) returns (entries: seq<Extraction<string>>)
      ensures entries == SlideEntries(slide)
    {
      entries := [];
      if !IsBlank(slide.slideText) {
        entries := entries + [Entry(slide, SlideKind)];
      }
      if !IsBlank(slide.notesText) {
        entries := entries + [Entry(slide, NoteKind)];
      }
      if !IsBlank(slide.commentsText) {
        entries := entries + [Entry(slide, CommentKind)];
      }
    }

    /** `extractTables`: tables are not extracted. */
    method ExtractTables(doc: SlideShow) returns (tables: seq<Extraction<Table>>)
      ensures tables == []
    {
      tables := [];
    }
  }
}
