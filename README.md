# Annot8 components: text detection, PPTX extraction, sentence annotation

This project models three processors of the Annot8 components and proves
properties about them:

- **TextDetection**, the EAST scene-text detector. `Decode` turns the network's
  score grid and five-channel geometry grid into oriented boxes, one per cell whose
  score reaches the threshold, in row-major order. `ProcessImage` checks whether
  anything was found, keeps the boxes non-maximum suppression selects, pads them
  and renders them in one of four output modes:
  - BOX draws outlines.
  - EXTRACT crops each box.
  - MASK keeps the text.
  - INVERSE_MASK blacks out the text.

  `Process` runs over a snapshot of an item's images. It collects every
  exception and removes each original that succeeded when `discardOriginal` is
  set. The item is a class whose contents and id counter the methods update. The
  image operations of OpenCV (`setTo`, `setTo` with a mask, `fillPoly`, `line`)
  are loops over a two-dimensional array.
- **PptxExtractor**, the PowerPoint extractor. A processor caches parsed documents
  by content id: `Accept`, `ExtractDocument` and `Reset`. It reads all thirty-two
  document properties and drops those the parsing library reports as the integer
  -1. It emits each slide's slide, note and comment text when that text is not
  blank. It emits every embedded picture that decodes to an image, with its index
  plus one, content type and file name overriding its image metadata. It
  extracts no tables.
- **Sentences**, the OpenNLP sentence annotator. `LowerIfUpperCase` lowercases
  text that equals its own upper case before detection. `Process` turns each
  detected span into one sentence annotation, in span order. `Close` releases
  the detector.

Files:
- `Values.dfy`: Option/Result, property values and keys, rectangular grids.
- `Imaging.dfy`: pixels, Java's `(int)` cast of a double, `getSubimage`, and the in-place array operations.
- `TextDetection.dfy`, `PptxExtractor.dfy`, `Sentences.dfy`: one module per processor.

A few facts about the models:
- The code pads the kept boxes before it scales them to the image (line 167 before
  lines 184, 209-212, 252 and 280 of `TextDetection.java`). Padding is therefore
  counted in network-input units and grows by the scaling ratio; the setting's own
  description calls it an amount "in scaled units" (line 443). The model follows the
  code.
- Where the results of code outside the core live:
  - The text detector's calls are the fields of `Env`, a parameter of the
    detection functions, taken as given functions: the network forward pass with
    its preprocessing; `Math.cos`/`Math.sin`; `NMSBoxesRotated`;
    `scaleRotatedRect`; the coverage of `fillPoly` and `line`; and `boundingRect`.
  - `rotateImageByDegrees` (`TextDetection.java:305-327`) is the processor's own
    private method. The model does not define it; it is the `rotate` field of
    `Env`, an unresolved function.
  - The slide-show results are data. The texts the three `SlideShowExtractor`
    configurations produce are fields of `Slide`. A picture's image decoding and
    its image metadata are fields of `Picture`.
  - The sentence detector is the `detector` field of `Sentences.Processor`.

## Model

| member | source | states |
|---|---|---|
| Imaging.TruncTowardZero | annot8-components-opencv/src/main/java/io/annot8/components/opencv/processors/TextDetection.java:209-212 | the `(int)` cast of a double rounds toward zero: down for non-negative values, up for negative ones |
| Imaging.Subimage | annot8-components-opencv/src/main/java/io/annot8/components/opencv/processors/TextDetection.java:206-212 | `getSubimage` succeeds exactly when the area is non-empty and inside the image; the result then has the requested size and holds the image's pixels at the offset |
| Imaging.ToMat | annot8-components-opencv/src/main/java/io/annot8/components/opencv/processors/TextDetection.java:114 | a fresh array of the image's size holding its pixels |
| Imaging.FromMat | annot8-components-opencv/src/main/java/io/annot8/components/opencv/processors/TextDetection.java:192 | the raster has the array's size and pixels |
| Imaging.PaintWhere | annot8-components-opencv/src/main/java/io/annot8/components/opencv/processors/TextDetection.java:247-255 | every element the shape covers takes the new value; every other element keeps its old value |
| Imaging.SetToMasked | annot8-components-opencv/src/main/java/io/annot8/components/opencv/processors/TextDetection.java:261 | every pixel whose mask element is non-zero becomes the colour; the others keep their old value |
| TextDetection.CellBoxSize | annot8-components-opencv/src/main/java/io/annot8/components/opencv/processors/TextDetection.java:351-365 | a cell's box is x1+x3 wide and x0+x2 high, with angle -angle·180/π |
| TextDetection.Ratio | annot8-components-opencv/src/main/java/io/annot8/components/opencv/processors/TextDetection.java:177-178 | the ratio is the image's size per network input unit: multiplied by the input size, it gives back the image's width and height |
| TextDetection.RowCellsMembership | annot8-components-opencv/src/main/java/io/annot8/components/opencv/processors/TextDetection.java:343-345 | a cell is among a row's detections iff it is in that row, within the scanned columns, and its score reaches the threshold |
| TextDetection.RowCellsOrdered | annot8-components-opencv/src/main/java/io/annot8/components/opencv/processors/TextDetection.java:343 | a row's detections are strictly left to right |
| TextDetection.GridCellsMembership | annot8-components-opencv/src/main/java/io/annot8/components/opencv/processors/TextDetection.java:335-345 | a cell is detected in the scanned rows iff it lies in them and its score reaches the threshold |
| TextDetection.GridCellsOrdered | annot8-components-opencv/src/main/java/io/annot8/components/opencv/processors/TextDetection.java:335-345 | detections over the scanned rows are in strictly increasing row-major order |
| TextDetection.DetectedIff | annot8-components-opencv/src/main/java/io/annot8/components/opencv/processors/TextDetection.java:331-345 | a cell yields a detection iff it lies in the geometry grid and its score is at or above the threshold |
| TextDetection.DetectedRowMajor | annot8-components-opencv/src/main/java/io/annot8/components/opencv/processors/TextDetection.java:335-343 | detections come row by row, left to right |
| TextDetection.NothingBelowThreshold | annot8-components-opencv/src/main/java/io/annot8/components/opencv/processors/TextDetection.java:343-345 | a grid whose every score is below the threshold yields no detection |
| TextDetection.DetectedInGrid | annot8-components-opencv/src/main/java/io/annot8/components/opencv/processors/TextDetection.java:331-344 | every detected cell lies inside both the geometry and the score grid |
| TextDetection.Decode | annot8-components-opencv/src/main/java/io/annot8/components/opencv/processors/TextDetection.java:329-372 | detections and confidences have one entry per detected cell and are filled in lockstep: entry i is that cell's box and its score; every confidence is at least the threshold |
| TextDetection.Kept | annot8-components-opencv/src/main/java/io/annot8/components/opencv/processors/TextDetection.java:160-168 | indexing the box array succeeds iff every NMS index is in range; the k-th kept box is then the box at the k-th index, padded |
| TextDetection.Trim | annot8-components-opencv/src/main/java/io/annot8/components/opencv/processors/TextDetection.java:218-226 | the trim succeeds exactly when the centred area fits the rotated crop; the result is the box size times the ratio, each cast to int, and holds the rotated crop's pixels at that area |
| TextDetection.ExtractOne | annot8-components-opencv/src/main/java/io/annot8/components/opencv/processors/TextDetection.java:203-239 | the only exception is an invalid area. It is raised when the scaled bounding rectangle does not fit the image, or, when it fits, exactly when the centred trim does not fit the rotated crop. A content is the centred trim of the rotated crop of the scaled bounding rectangle, and has the scaled box size, each side cast to int. It carries the description of EXTRACT from the source, and exactly the properties x, y, width and height of the scaled bounding rectangle, source, angle and parent |
| TextDetection.RenderMask | annot8-components-opencv/src/main/java/io/annot8/components/opencv/processors/TextDetection.java:243-289 | the mask steps (white or black mask, fill each polygon with the other level, black out the pixels whose mask is set) give the masked raster |
| TextDetection.RenderBoxes | annot8-components-opencv/src/main/java/io/annot8/components/opencv/processors/TextDetection.java:181-192 | drawing the four edges of every polygon gives the boxed raster |
| TextDetection.Stamp | annot8-components-opencv/src/main/java/io/annot8/components/opencv/processors/TextDetection.java:191-195 | saved outputs get consecutive ids in saving order |
| TextDetection.CreatedSnoc | annot8-components-opencv/src/main/java/io/annot8/components/opencv/processors/TextDetection.java:229-239 | saving outputs one at a time equals saving them together |
| TextDetection.CreatedWellFormed | annot8-components-opencv/src/main/java/io/annot8/components/opencv/processors/TextDetection.java:191-195 | saving keeps ids unique and below the counter; the ids present afterwards are the old ones plus one fresh id per output |
| TextDetection.RemoveIdMembership | annot8-components-opencv/src/main/java/io/annot8/components/opencv/processors/TextDetection.java:101 | removing a content keeps exactly the contents with other ids |
| TextDetection.RemoveIdDistinct | annot8-components-opencv/src/main/java/io/annot8/components/opencv/processors/TextDetection.java:101 | removal keeps ids unique |
| TextDetection.RemoveIdWellFormed | annot8-components-opencv/src/main/java/io/annot8/components/opencv/processors/TextDetection.java:101 | removal keeps the item well formed and drops exactly the given id |
| TextDetection.Item.GetImages | annot8-components-opencv/src/main/java/io/annot8/components/opencv/processors/TextDetection.java:80 | the snapshot is the item's current image contents |
| TextDetection.Item.CreateContent | annot8-components-opencv/src/main/java/io/annot8/components/opencv/processors/TextDetection.java:191-195 | the output is appended under the next fresh id, and the item stays well formed |
| TextDetection.Item.RemoveContent | annot8-components-opencv/src/main/java/io/annot8/components/opencv/processors/TextDetection.java:101 | the content with the id is removed, the counter is unchanged, and the item stays well formed |
| TextDetection.ExtractRunStops | annot8-components-opencv/src/main/java/io/annot8/components/opencv/processors/TextDetection.java:202-240 | once a box has thrown, later boxes add nothing |
| TextDetection.ExtractAll | annot8-components-opencv/src/main/java/io/annot8/components/opencv/processors/TextDetection.java:198-242 | the EXTRACT loop saves that run's contents in order and returns the exception that stopped it |
| TextDetection.ProcessImage | annot8-components-opencv/src/main/java/io/annot8/components/opencv/processors/TextDetection.java:110-299 | processing one image saves exactly that image's run's outputs under fresh ids and raises exactly its exception |
| TextDetection.FailuresSnoc | annot8-components-opencv/src/main/java/io/annot8/components/opencv/processors/TextDetection.java:93-95 | one more image appends its exception, if any, to the collected ones |
| TextDetection.Process | annot8-components-opencv/src/main/java/io/annot8/components/opencv/processors/TextDetection.java:76-108 | the item ends as every snapshot image processed in order, with successful originals removed when discarding; the response is ok iff no exception was collected, and otherwise carries the exceptions in order |
| TextDetection.InsideAnyIff | annot8-components-opencv/src/main/java/io/annot8/components/opencv/processors/TextDetection.java:251-255 | filling the polygons one after another covers a pixel iff some polygon covers it |
| TextDetection.OnEdgesIff | annot8-components-opencv/src/main/java/io/annot8/components/opencv/processors/TextDetection.java:185-187 | drawing the first j edges covers a pixel iff one of those edges, vertex e to vertex (e+1) mod 4, covers it |
| TextDetection.OnOutlineIff | annot8-components-opencv/src/main/java/io/annot8/components/opencv/processors/TextDetection.java:183-188 | drawing every outline covers a pixel iff some edge of some polygon covers it |
| TextDetection.MaskPolarity | annot8-components-opencv/src/main/java/io/annot8/components/opencv/processors/TextDetection.java:243-289 | MASK keeps exactly the covered pixels and blacks out the rest; INVERSE_MASK blacks out exactly the covered pixels |
| TextDetection.BoxOutline | annot8-components-opencv/src/main/java/io/annot8/components/opencv/processors/TextDetection.java:181-188 | BOX draws the line colour exactly on polygon edges and keeps every other pixel |
| TextDetection.MaskComplement | annot8-components-opencv/src/main/java/io/annot8/components/opencv/processors/TextDetection.java:243-289 | at every pixel one of MASK and INVERSE_MASK keeps the original pixel and the other blacks it out |
| TextDetection.QuietBelowThreshold | annot8-components-opencv/src/main/java/io/annot8/components/opencv/processors/TextDetection.java:150-153 | when no score reaches the threshold, processing returns early with no content and no exception |
| TextDetection.ExtractRunShape | annot8-components-opencv/src/main/java/io/annot8/components/opencv/processors/TextDetection.java:202-240 | EXTRACT makes one content per box, in box order, up to the first box that throws; it fails iff it made fewer contents than there are boxes, and then the failing box's exception is the one raised |
| TextDetection.OutputCount | annot8-components-opencv/src/main/java/io/annot8/components/opencv/processors/TextDetection.java:180-298 | when text is found, BOX, MASK and INVERSE_MASK create exactly one content and do not fail; EXTRACT creates at most one content per kept box, and exactly one per box iff it does not fail |
| TextDetection.PaddedBeforeScaled | annot8-components-opencv/src/main/java/io/annot8/components/opencv/processors/TextDetection.java:164-168 | the k-th EXTRACT content comes from the box at the k-th NMS index, padded, and its size is that padded size times the ratio, cast to int |
| TextDetection.CollectConcat | annot8-components-opencv/src/main/java/io/annot8/components/opencv/processors/TextDetection.java:93-95 | the exceptions collected over two runs of outcomes are those of the first run followed by those of the second |
| TextDetection.CollectEmptyIff | annot8-components-opencv/src/main/java/io/annot8/components/opencv/processors/TextDetection.java:105 | no exception is collected iff no outcome is an exception |
| TextDetection.CollectFrom | annot8-components-opencv/src/main/java/io/annot8/components/opencv/processors/TextDetection.java:93-95 | an exception is collected iff some outcome is that exception |
| TextDetection.FailuresConcat | annot8-components-opencv/src/main/java/io/annot8/components/opencv/processors/TextDetection.java:82-96 | the exceptions follow image order: those of a concatenation are those of the first part followed by those of the second |
| TextDetection.FailuresEmptyIff | annot8-components-opencv/src/main/java/io/annot8/components/opencv/processors/TextDetection.java:105-107 | the response is ok iff no exception was collected, iff no image threw |
| TextDetection.FailuresFrom | annot8-components-opencv/src/main/java/io/annot8/components/opencv/processors/TextDetection.java:93-107 | an exception is in the item error iff some image raised it |
| TextDetection.DroppedSnoc | annot8-components-opencv/src/main/java/io/annot8/components/opencv/processors/TextDetection.java:98-102 | an id counts as dropped after one more image iff it already was, or it is that image's id and that image succeeded |
| TextDetection.AfterImageIds | annot8-components-opencv/src/main/java/io/annot8/components/opencv/processors/TextDetection.java:89-102 | one image adds a block of fresh ids and removes at most its own id, only when it succeeded and discarding is on |
| TextDetection.AfterAllIds | annot8-components-opencv/src/main/java/io/annot8/components/opencv/processors/TextDetection.java:82-103 | after the loop, an old content stays iff it was not discarded, every created content stays, and the item is well formed |
| TextDetection.RemovedIff | annot8-components-opencv/src/main/java/io/annot8/components/opencv/processors/TextDetection.java:98-102 | an original image is removed iff it succeeded and `discardOriginal` is set |
| PptxExtractor.Supports | annot8-components-documents/src/main/java/io/annot8/components/documents/processors/PptxExtractor.java:64-82 | metadata, text and images are supported; tables are not |
| PptxExtractor.ReadingsComplete | annot8-components-documents/src/main/java/io/annot8/components/documents/processors/PptxExtractor.java:139-173 | before filtering, the metadata map holds exactly thirty-two keys, every key, each with the reading of its document property |
| PptxExtractor.OnlyCountsUnset | annot8-components-documents/src/main/java/io/annot8/components/documents/processors/PptxExtractor.java:175-176 | only the integer count properties can read as -1 |
| PptxExtractor.EntryProps | annot8-components-documents/src/main/java/io/annot8/components/documents/processors/PptxExtractor.java:210-239 | a text entry holds its kind's text; slide entries carry name, page, title and subtype "slide"; note and comment entries carry page and subtype "note" or "comment"; nothing else |
| PptxExtractor.SlideEntriesBound | annot8-components-documents/src/main/java/io/annot8/components/documents/processors/PptxExtractor.java:206-240 | a slide yields at most three entries |
| PptxExtractor.SlideEntriesComplete | annot8-components-documents/src/main/java/io/annot8/components/documents/processors/PptxExtractor.java:210-239 | a kind whose text is not blank yields its entry |
| PptxExtractor.SlideEntriesOrigin | annot8-components-documents/src/main/java/io/annot8/components/documents/processors/PptxExtractor.java:210-239 | every entry of a slide is the entry of a kind whose text is not blank |
| PptxExtractor.SlideEntriesOrder | annot8-components-documents/src/main/java/io/annot8/components/documents/processors/PptxExtractor.java:206-240 | a slide's entries come in the order slide, note, comment |
| PptxExtractor.TextEntriesConcat | annot8-components-documents/src/main/java/io/annot8/components/documents/processors/PptxExtractor.java:206 | entries come slide by slide, in slide order |
| PptxExtractor.TextEntriesOrigin | annot8-components-documents/src/main/java/io/annot8/components/documents/processors/PptxExtractor.java:206-240 | every text entry belongs to some slide and some kind whose text is not blank, so no entry is blank |
| PptxExtractor.TextEntriesComplete | annot8-components-documents/src/main/java/io/annot8/components/documents/processors/PptxExtractor.java:206-240 | every non-blank slide, note or comment text of every slide is extracted |
| PptxExtractor.TextEntriesBound | annot8-components-documents/src/main/java/io/annot8/components/documents/processors/PptxExtractor.java:206-240 | at most three entries per slide |
| PptxExtractor.PictureProps | annot8-components-documents/src/main/java/io/annot8/components/documents/processors/PptxExtractor.java:264-276 | index+1, content type and file name are always present and override the metadata; every other key is present iff the metadata was read and holds it, with its value |
| PptxExtractor.ImageEntriesFrom | annot8-components-documents/src/main/java/io/annot8/components/documents/processors/PptxExtractor.java:250-279 | an image entry exists iff some picture decodes to that image with those properties; there are never more entries than pictures |
| PptxExtractor.AllDecoded | annot8-components-documents/src/main/java/io/annot8/components/documents/processors/PptxExtractor.java:250-279 | when every picture decodes, entry i is picture i's image with its properties |
| PptxExtractor.AcceptedIsReturned | annot8-components-documents/src/main/java/io/annot8/components/documents/processors/PptxExtractor.java:85-132 | a document accepted under an id is what later extraction returns for that id, whatever a reparse would give; other ids are unaffected; after a reset a fresh parse is used |
| PptxExtractor.Processor.constructor | annot8-components-documents/src/main/java/io/annot8/components/documents/processors/PptxExtractor.java:53-57 | a new processor has an empty cache |
| PptxExtractor.Processor.Reset | annot8-components-documents/src/main/java/io/annot8/components/documents/processors/PptxExtractor.java:60-62 | the cache is emptied |
| PptxExtractor.Processor.Accept | annot8-components-documents/src/main/java/io/annot8/components/documents/processors/PptxExtractor.java:85-114 | accepted iff the data parses; only then is the document cached under the id, and otherwise the cache is unchanged |
| PptxExtractor.Processor.ExtractDocument | annot8-components-documents/src/main/java/io/annot8/components/documents/processors/PptxExtractor.java:116-132 | the cached document when the id is cached, else the result of a fresh parse |
| PptxExtractor.Processor.ExtractMetadata | annot8-components-documents/src/main/java/io/annot8/components/documents/processors/PptxExtractor.java:134-179 | a key is present iff its property does not read as the integer -1, and its value is the property's value |
| PptxExtractor.Processor.SlideText | annot8-components-documents/src/main/java/io/annot8/components/documents/processors/PptxExtractor.java:207-239 | one slide's loop body yields exactly that slide's entries |
| PptxExtractor.Processor.ExtractText | annot8-components-documents/src/main/java/io/annot8/components/documents/processors/PptxExtractor.java:181-244 | the result is the entries of every slide, in slide order |
| PptxExtractor.Processor.ExtractImages | annot8-components-documents/src/main/java/io/annot8/components/documents/processors/PptxExtractor.java:246-282 | the result is the entries of every picture that decodes, in order |
| PptxExtractor.Processor.ExtractTables | annot8-components-documents/src/main/java/io/annot8/components/documents/processors/PptxExtractor.java:284-289 | no tables are extracted |
| Sentences.UpperFixedIff | annot8-components-opennlp/src/main/java/io/annot8/components/opennlp/processors/Sentences.java:89 | a string equals its upper case iff it has no lower-case letter |
| Sentences.LowerFixedIff | annot8-components-opennlp/src/main/java/io/annot8/components/opennlp/processors/Sentences.java:89 | a string equals its lower case iff it has no upper-case letter |
| Sentences.LowerIfUpperCase | annot8-components-opennlp/src/main/java/io/annot8/components/opennlp/processors/Sentences.java:88-92 | the input is returned unless it equals its own upper case. The length is kept; this holds for the model's one-to-one case map and not for Java's, see Left out |
| Sentences.AllCapsLowered | annot8-components-opennlp/src/main/java/io/annot8/components/opennlp/processors/Sentences.java:89 | text without a lower-case letter comes back lowercased, with no upper-case letter left |
| Sentences.MixedCaseUnchanged | annot8-components-opennlp/src/main/java/io/annot8/components/opennlp/processors/Sentences.java:91 | text with a lower-case letter comes back unchanged |
| Sentences.UncasedUnchanged | annot8-components-opennlp/src/main/java/io/annot8/components/opennlp/processors/Sentences.java:88-92 | text with no cased letter comes back unchanged |
| Sentences.SameUpToCase | annot8-components-opennlp/src/main/java/io/annot8/components/opennlp/processors/Sentences.java:88-92 | only letter case changes: the result's upper case is the input's |
| Sentences.LowerIfUpperCaseIdempotent | annot8-components-opennlp/src/main/java/io/annot8/components/opennlp/processors/Sentences.java:88-92 | applying it twice equals applying it once |
| Sentences.SentenceAnnotationsShape | annot8-components-opennlp/src/main/java/io/annot8/components/opennlp/processors/Sentences.java:72-80 | one sentence annotation per span, in span order, each with the span's bounds and its probability as its only property |
| Sentences.TextContent.Save | annot8-components-opennlp/src/main/java/io/annot8/components/opennlp/processors/Sentences.java:73-79 | saving appends the annotation to the store |
| Sentences.Processor.constructor | annot8-components-opennlp/src/main/java/io/annot8/components/opennlp/processors/Sentences.java:60-66 | a new processor holds the loaded detector |
| Sentences.Processor.Process | annot8-components-opennlp/src/main/java/io/annot8/components/opennlp/processors/Sentences.java:69-81 | with a detector, the store gains exactly the annotations of the spans detected in the possibly lowercased text, in order; on a closed processor it fails and nothing is added |
| Sentences.Processor.Close | annot8-components-opennlp/src/main/java/io/annot8/components/opennlp/processors/Sentences.java:84-86 | the detector is released |

## Left out

- **Network and preprocessing.** These are native library calls and one parameter
  of `Env`: loading the EAST network, `cvtColor`, `meanRGB`, `blobFromImage`, the
  forward pass and the reshape of its outputs. The conversion of the mask to three
  channels before `setTo` is also left out; the mask is applied per pixel.
- **Floating point.** `Math.cos`, `Math.sin`, non-maximum suppression, `scaleRotatedRect`,
  `boundingRect`, polygon filling and line drawing are floating-point geometry in
  libraries, taken as given functions of `Env`. The properties about filling and
  drawing hold for any coverage those functions define.
- **Rotation.** `rotateImageByDegrees` (`TextDetection.java:305-327`) is not defined
  by the model: its `Graphics2D` affine drawing is floating-point rendering. It is
  the unresolved function `rotate` of `Env`, so nothing is proved about the rotated
  crop beyond what `Trim` does with it.
- **Content types.** The model's `Item` holds only image contents. The
  `getContents(Image.class)` filter of `process` (`TextDetection.java:80`), which
  skips the item's other contents, is therefore not modelled.
- **Reals.** Scores, thresholds, ratios and box sizes are reals. `float` and
  `double` rounding is not modelled, including the `(float)` casts of the ratio and
  of each confidence.
- Imaging.Trunc: the `(int)` cast is modelled as rounding toward zero. Java's
  clamping of out-of-range doubles to the `int` range and NaN are not modelled.
- TextDetection.Pad: the source of `padRotatedRect` is not part of this model, so
  the model defines `Pad` by its stated effect: width and height grow by twice the
  padding, and centre and angle stay.
- TextDetection.ProcessImage: requires a positive network input size, which the
  code does not. `Settings` puts no limit on the size, and `validate()` returns true
  (`TextDetection.java:385-387`), so any `int` is accepted. The ratio at lines 177-178
  is a floating-point division, so a size of zero gives an infinite or NaN ratio
  rather than an error. The model excludes sizes of zero or less, because the ratio
  then has no real-number value.
- TextDetection.Decode: a score matrix smaller than the geometry grid makes the
  loop fail in one of two ways. A row past the last (`scores.row(y)`, line 336) is
  OpenCV's `CvException`. A column past the last makes `get(0, x)` return null, and
  the `[0]` at line 344 throws `NullPointerException`. The model reports both as
  `DecodeFailure` before the loop.
- TextDetection.Process: logging and the timing metrics are left out because they
  do not affect results. Every exception the model can raise is caught, as in the
  code.
- **Content descriptions.** The description strings ("EAST output (MODE) from id")
  are the datatype `EastOutput(mode, source)` rather than text.
- **Content ids.** Ids are consecutive naturals handed out by the item; the real
  store generates them.
- **Parsing and text libraries.**
  - Parsing slide shows (`XMLSlideShow`) is a given result.
  - The three `SlideShowExtractor` configurations give each slide's three texts as
    given strings.
  - Image decoding (`ImageIO.read`) is a given `Decoding`.
  - Reading image metadata (`ImageMetadataReader`, `toMap`) is a given optional map.
- **Dates and keys.**
  - `toTemporal` is not part of this model. A date becomes `Temporal(instant)` and
    an absent one `Null`.
  - The string values of the `PropertyKeys` and `DocumentProperties` constants are
    not part of this model. Keys are enumerations, taken to be pairwise distinct.
- PptxExtractor.PictureProps: `getIndex() + 1` is unbounded; 32-bit overflow of the
  index is not modelled.
- **File and stream contents.** `acceptFile` and `acceptInputStream` differ only in
  where the bytes come from, and so do the two `extractDocument` overloads. Each
  pair is one method taking the parse result.
- Sentences.LowerIfUpperCase: case mapping covers the ASCII letters and the Latin-1
  letters with a one-to-one partner. Other characters, including `ß`, `ÿ`, `µ`
  and all of the rest of Unicode, are treated as having no case, and locale rules
  are not modelled. For example, the model lowercases "STRAßE" to "straße", since it
  takes `ß` to be its own upper case. Java leaves the text unchanged, because its
  upper case is "STRASSE". Java's case mapping can also change a string's length.
  "İ" (U+0130) is its own upper case, and its lower case is "i̇" (U+0069 U+0307), two
  chars. The model's `|r| == |original|` is therefore a property of the model only.
  In Java the detector can run over a text longer than the content, and its span
  offsets (line 76) then index that text rather than the one the annotations are
  saved against. The model does not capture this shift.
- Sentences.Processor.Process: annotation ids and the builder's validation of
  bounds belong to the annotation store and are left out. The annotation type
  constant is an enumeration value.
- **Sentence detector.** Loading the sentence model (`createComponent`, the
  constructor's `BadConfigurationException`) is left out; the constructor takes
  the loaded detector.
