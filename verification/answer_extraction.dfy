/** The answer-extraction stage: the text of a submission, the images found in it (embedded
    images first, rendered pages as the fallback), a transcription of those images, and the
    mapping of the combined content onto the assignment's question ids. The document readers,
    the image library and the chat model are parameters. */
module AnswerExtraction {
  import opened Wrappers
  import opened Text
  import opened PyDict
  import opened Json
  import opened AssignmentConfig
  import opened Seqs

  /** An opaque image with its pixel size. */
  datatype Image = Image(id: nat, width: nat, height: nat)

  /** What the mapping call is told: each question's id with the first 200 characters of its text,
      and the first 10000 characters of the content. */
  datatype MappingRequest = MappingRequest(questions: seq<(string, string)>, content: string)

  /** The services extraction calls. Each returns None where the library call raises (or, for the
      text reader, a failure carrying the message). */
  datatype Services = Services(
    readText: string -> Result<string, string>,     // the document text ("" when unreadable)
    embedded: string -> seq<Option<Image>>,         // embedded images in page order; None: undecodable
    pageCount: string -> Option<nat>,               // None: the PDF cannot be opened
    renderPages: (string, nat) -> Option<seq<Image>>, // pages 1..last as images
    encode: Image -> Option<string>,                // PNG, base64
    transcribe: seq<string> -> Option<string>,      // the vision call on encoded images
    mapQuestions: MappingRequest -> Option<string>, // the mapping chat call
    decode: string -> Option<Json>,                 // json.loads
    errorText: Json -> string)                      // the message of the error raised on a malformed entry

  /** One question's extracted answer as the grading stage receives it. */
  datatype Answer = Answer(text: string, images: seq<string>, fromImage: bool, notes: Option<string>)

  // ----- Images -----

  /** Embedded images smaller than this in either direction are taken for icons. */
  const MinImageSide: nat := 100

  predicate Large(img: Image) {
    img.width > MinImageSide && img.height > MinImageSide
  }

  /** The decodable embedded images that are large in both directions, in document order. */
  function KeepLarge(cands: seq<Option<Image>>): (r: seq<Image>)
    ensures |r| <= |cands|
    ensures forall x :: x in r <==> Some(x) in cands && Large(x)
  {
    if |cands| == 0 then []
    else
      var rest := KeepLarge(cands[1..]);
      assert forall x :: Some(x) in cands <==> Some(x) == cands[0] || Some(x) in cands[1..];
      if cands[0].Some? && Large(cands[0].value) then [cands[0].value] + rest else rest
  }

  /** Documents longer than this are never rendered page by page. */
  const MaxRenderablePages: nat := 20

  /** The page budget of the fallback. */
  const FallbackPages: nat := 10

  /** The last page to render: `min(page_count, max_pages)` when a non-zero budget is given. */
  function LastPage(pageCount: nat, maxPages: Option<nat>): (last: nat)
    ensures last <= pageCount
    ensures maxPages.Some? && maxPages.value != 0 ==> last <= maxPages.value
    ensures maxPages.Some? && maxPages.value != 0 && pageCount <= maxPages.value ==> last == pageCount
    ensures (maxPages.None? || maxPages.value == 0) ==> last == pageCount
  {
    if maxPages.Some? && maxPages.value != 0 then
      (if pageCount <= maxPages.value then pageCount else maxPages.value)
    else pageCount
  }

  /** `_convert_pages_to_images`: nothing for an unopenable PDF or one of more than 20 pages,
      otherwise pages 1 to `LastPage` (nothing if rendering raises). */
  function ConvertPages(path: string, maxPages: Option<nat>, s: Services): (r: seq<Image>)
    ensures s.pageCount(path).None? ==> r == []
    ensures s.pageCount(path).Some? && s.pageCount(path).value > MaxRenderablePages ==> r == []
    ensures r != [] ==> exists n :: s.pageCount(path) == Some(n) && n <= MaxRenderablePages
                                   && s.renderPages(path, LastPage(n, maxPages)) == Some(r)
  {
    match s.pageCount(path)
    case None => []
    case Some(n) =>
      if n > MaxRenderablePages then []
      else
        match s.renderPages(path, LastPage(n, maxPages))
        case None => []
        case Some(imgs) => imgs
  }

  /** `_extract_images_hybrid`: the large embedded images if there are any, else at most ten
      rendered pages; the flag says whether anything was found. */
  function HybridImages(path: string, s: Services): (r: (seq<Image>, bool))
    ensures r.1 <==> |r.0| > 0
    ensures KeepLarge(s.embedded(path)) != [] ==> r.0 == KeepLarge(s.embedded(path))
    ensures KeepLarge(s.embedded(path)) == [] ==> r.0 == ConvertPages(path, Some(FallbackPages), s)
  {
    var embedded := KeepLarge(s.embedded(path));
    if |embedded| > 0 then (embedded, true)
    else
      var pages := ConvertPages(path, Some(FallbackPages), s);
      if |pages| > 0 then (pages, true) else ([], false)
  }

  /** The largest side an image may have when it is sent to the vision call. */
  const MaxSide: nat := 2000

  /** Images sent per vision call. */
  const MaxImages: nat := 10

  /** Shrinks an image over 2000 pixels in either direction to fit a 2000 by 2000 box, keeping
      its aspect ratio; smaller images are untouched. */
  function ShrinkToFit(img: Image): (r: Image)
    ensures r.id == img.id
    ensures r.width <= MaxSide && r.height <= MaxSide
    ensures img.width <= MaxSide && img.height <= MaxSide ==> r == img
    ensures img.width > 0 && img.height > 0 ==> r.width > 0 && r.height > 0
  {
    if img.width <= MaxSide && img.height <= MaxSide then img
    else
      var m := if img.width >= img.height then img.width else img.height;
      Image(img.id, Scaled(img.width, m), Scaled(img.height, m))
  }

  /** `side * 2000 / longest`, at least one pixel when the side is non-zero. */
  function Scaled(side: nat, longest: nat): (r: nat)
    requires side <= longest && longest > MaxSide
    ensures r <= MaxSide && (side > 0 ==> r > 0)
  {
    var v := side * MaxSide / longest;
    assert v * longest <= side * MaxSide;
    assert side <= longest ==> side * MaxSide <= longest * MaxSide;
    if v == 0 && side > 0 then 1 else v
  }

  /** The images that could be encoded, in order: an image whose encoding fails is skipped
      (`EncodeAllKeepsSuccesses`, `EncodeAllEveryImage`). */
  function EncodeAll(imgs: seq<Image>, s: Services): (r: seq<string>)
    ensures |r| <= |imgs|
  {
    if |imgs| == 0 then []
    else
      var e := s.encode(ShrinkToFit(imgs[0]));
      (if e.Some? then [e.value] else []) + EncodeAll(imgs[1..], s)
  }

  /** When every image encodes, the result holds each image's encoding at its own position; when
      none does, it is empty. */
  lemma {:induction false} EncodeAllEveryImage(imgs: seq<Image>, s: Services)
    ensures (forall i :: 0 <= i < |imgs| ==> Encoded(s)(imgs[i]).Some?) ==>
      |EncodeAll(imgs, s)| == |imgs| && forall i :: 0 <= i < |imgs| ==> EncodeAll(imgs, s)[i] == Encoded(s)(imgs[i]).value
    ensures (forall i :: 0 <= i < |imgs| ==> Encoded(s)(imgs[i]).None?) ==> EncodeAll(imgs, s) == []
  {
    if |imgs| > 0 {
      EncodeAllEveryImage(imgs[1..], s);
      assert forall i :: 1 <= i < |imgs| ==> imgs[1..][i - 1] == imgs[i];
    }
  }

  /** The encoding of one shrunk image. */
  function Encoded(s: Services): Image -> Option<string> {
    (img: Image) => s.encode(ShrinkToFit(img))
  }

  predicate IsEncoded(e: Option<string>) {
    e.Some?
  }

  function EncodedText(e: Option<string>): string {
    e.GetOr("")
  }

  /** Keeping the successful encodings of a list keeps its head's, if any, before the rest's. */
  lemma KeptSuccessesCons(e: Option<string>, rest: seq<Option<string>>)
    ensures Map(EncodedText, Filter([e] + rest, IsEncoded))
         == (if e.Some? then [e.value] else []) + Map(EncodedText, Filter(rest, IsEncoded))
  {
    FilterAppend([e], rest, IsEncoded);
    var head := Filter([e], IsEncoded);
    assert head == if e.Some? then [e] else [];
    MapAppend(EncodedText, head, Filter(rest, IsEncoded));
  }

  /** Encoding is the successful encodings of the shrunk images, in order. */
  lemma {:induction false} EncodeAllKeepsSuccesses(imgs: seq<Image>, s: Services)
    ensures EncodeAll(imgs, s) == Map(EncodedText, Filter(Map(Encoded(s), imgs), IsEncoded))
  {
    if |imgs| > 0 {
      var e := Encoded(s)(imgs[0]);
      assert e == s.encode(ShrinkToFit(imgs[0]));
      EncodeAllKeepsSuccesses(imgs[1..], s);
      MapCons(Encoded(s), imgs);
      KeptSuccessesCons(e, Map(Encoded(s), imgs[1..]));
    }
  }

  /** Encoding two runs of images encodes each in turn. */
  lemma {:induction false} EncodeAllAppend(a: seq<Image>, b: seq<Image>, s: Services)
    ensures EncodeAll(a + b, s) == EncodeAll(a, s) + EncodeAll(b, s)
  {
    if |a| == 0 {
      assert a + b == b;
    } else {
      assert (a + b)[0] == a[0] && (a + b)[1..] == a[1..] + b;
      EncodeAllAppend(a[1..], b, s);
      var head := if s.encode(ShrinkToFit(a[0])).Some? then [s.encode(ShrinkToFit(a[0])).value] else [];
      assert EncodeAll(a + b, s) == head + EncodeAll(a[1..] + b, s);
      assert EncodeAll(a, s) == head + EncodeAll(a[1..], s);
    }
  }

  /** `_extract_text_from_images`: the transcription of at most the first ten images and the images
      as sent. Nothing is sent when no image encodes; a failed call keeps the encoded images but
      yields no text. */
  function TranscribeImages(images: seq<Image>, s: Services): (r: (string, seq<string>))
    ensures |r.1| <= MaxImages && |r.1| <= |images|
    ensures r.1 == EncodeAll(Take(images, MaxImages), s)
    ensures r.1 == [] ==> r.0 == ""
    ensures r.1 != [] ==> r.0 == s.transcribe(r.1).GetOr("")
  {
    var encoded := EncodeAll(Take(images, MaxImages), s);
    if |encoded| == 0 then ("", [])
    else
      match s.transcribe(encoded)
      case None => ("", encoded)
      case Some(t) => (t, encoded)
  }

  const ImageHeader: string := "\n\n--- Content from Images ---\n"

  /** The document text, followed by the image transcription under its header when there is one. */
  function Combine(text: string, imageText: string): (r: string)
    ensures imageText == "" ==> r == text
    ensures imageText != "" ==> StartsWith(r, text) && EndsWith(r, imageText) && Contains(r, ImageHeader)
  {
    if imageText != "" then
      var r := text + ImageHeader + imageText;
      assert OccursAt(r, ImageHeader, |text|);
      r
    else text
  }

  // ----- Mapping onto questions -----

  /** The preview of each question the mapping call is shown. */
  function QuestionPreviews(qs: seq<Question>): (r: seq<(string, string)>)
    ensures |r| == |qs| && forall i :: 0 <= i < |qs| ==> r[i] == (qs[i].id, Take(qs[i].text, 200))
  {
    seq(|qs|, i requires 0 <= i < |qs| => (qs[i].id, Take(qs[i].text, 200)))
  }

  /** An entry the mapping falls back to: the given text with low confidence. */
  function LowEntry(text: string): Json {
    JObj([("text", JStr(text)), ("confidence", JStr("low"))])
  }

  /** Pairs listed question by question have exactly the question ids as keys. */
  lemma IdPairsKeys<V>(qs: seq<Question>, pairs: seq<(string, V)>)
    requires |pairs| == |qs| && forall i :: 0 <= i < |qs| ==> pairs[i].0 == qs[i].id
    ensures forall k :: HasKey(pairs, k) <==> exists i :: 0 <= i < |qs| && qs[i].id == k
  {
    forall k ensures HasKey(pairs, k) ==> exists i :: 0 <= i < |qs| && qs[i].id == k {
      if HasKey(pairs, k) {
        var i :| 0 <= i < |pairs| && pairs[i].0 == k;
        assert qs[i].id == k;
      }
    }
    forall k ensures (exists i :: 0 <= i < |qs| && qs[i].id == k) ==> HasKey(pairs, k) {
      if exists i :: 0 <= i < |qs| && qs[i].id == k {
        var i :| 0 <= i < |qs| && qs[i].id == k;
        assert pairs[i].0 == k;
      }
    }
  }

  /** One entry per question id, all holding `v` (a dict comprehension over the questions). */
  function PerQuestion<V>(qs: seq<Question>, v: V): (d: Dict<V>)
    ensures DistinctKeys(d)
    ensures forall k :: HasKey(d, k) <==> exists i :: 0 <= i < |qs| && qs[i].id == k
    ensures forall i :: 0 <= i < |d| ==> d[i].1 == v
  {
    var pairs := seq(|qs|, i requires 0 <= i < |qs| => (qs[i].id, v));
    FromPairsKeys(pairs);
    FromPairsValues(pairs, v);
    IdPairsKeys(qs, pairs);
    FromPairs(pairs)
  }

  /** The value for `id` in the decoded reply: the reply's own entry when `id in data` holds, the
      empty low-confidence entry when it does not, and a failure where the membership test or the
      lookup raises (a number, or a list or string that contains the id). */
  function Lookup(data: Json, id: string): (r: Option<Json>)
    ensures data.JObj? ==> r == Some(if HasKey(data.fields, id) then Get(data.fields, id).value else LowEntry(""))
  {
    match PyIn(id, data)
    case None => None
    case Some(found) => if found then PyIndex(data, id) else Some(LowEntry(""))
  }

  function LookupAll(data: Json, qs: seq<Question>): (r: Option<seq<(string, Json)>>)
    ensures r.Some? ==> |r.value| == |qs| && forall i :: 0 <= i < |qs| ==> r.value[i].0 == qs[i].id
    ensures data.JObj? ==> r.Some?
  {
    if |qs| == 0 then Some([])
    else
      var head := Lookup(data, qs[0].id);
      var tail := LookupAll(data, qs[1..]);
      if head.Some? && tail.Some? then Some([(qs[0].id, head.value)] + tail.value) else None
  }

  /** `_llm_map_to_questions`: asks the model, decodes the brace span of its reply (or the whole
      reply when it has none), and keeps exactly one entry per question id. When anything raises,
      a single-question assignment gets all the content and every other assignment gets empty
      entries. */
  function MapQuestions(content: string, qs: seq<Question>, s: Services): (d: Dict<Json>)
    ensures DistinctKeys(d)
    ensures forall k :: HasKey(d, k) <==> exists i :: 0 <= i < |qs| && qs[i].id == k
  {
    var reply := s.mapQuestions(MappingRequest(QuestionPreviews(qs), Take(content, 10000)));
    var data := if reply.None? then None
                else s.decode(if BraceSpan(reply.value).Some? then BraceSpan(reply.value).value else reply.value);
    var found := if data.Some? then LookupAll(data.value, qs) else None;
    if found.Some? then
      FromPairsKeys(found.value);
      IdPairsKeys(qs, found.value);
      FromPairs(found.value)
    else
      PerQuestion(qs, LowEntry(if |qs| == 1 then content else ""))
  }

  /** The notes attached to each answer: the image count when images were found, and a remark when
      the answer text is blank; None when there is neither. */
  function ExtractionNotes(imageCount: nat, text: string): (r: Option<string>)
    ensures r.None? <==> imageCount == 0 && !IsBlank(text)
    ensures imageCount > 0 ==> StartsWith(r.value, "Processed ")
    ensures imageCount == 0 && IsBlank(text) ==> r == Some("No text answer found")
  {
    var notes := (if imageCount > 0 then ["Processed " + NatToString(imageCount) + " images"] else [])
                 + (if IsBlank(text) then ["No text answer found"] else []);
    if |notes| == 0 then None else Some(Join(notes, "; "))
  }

  /** The metadata pass over one mapped entry: it must be an object, and its `text`, when present,
      a string; otherwise the pass raises on this entry. */
  function Attach(entry: Json, images: seq<Image>, encoded: seq<string>, s: Services): (r: Result<Answer, string>)
    ensures r.Success? <==> entry.JObj? && (Field(entry.fields, "text").None? || Field(entry.fields, "text").value.JStr?)
    ensures r.Success? ==> r.value.fromImage == (|images| > 0)
    ensures r.Success? ==> r.value.notes == ExtractionNotes(|images|, r.value.text)
    ensures r.Success? && |images| == 0 ==> r.value.images == []
  {
    if !entry.JObj? then Failure(s.errorText(entry))
    else
      match Field(entry.fields, "text")
      case None => Success(Answer("", if |images| > 0 then encoded else [], |images| > 0, ExtractionNotes(|images|, "")))
      case Some(t) =>
        if t.JStr? then
          Success(Answer(t.s, if |images| > 0 then encoded else [], |images| > 0, ExtractionNotes(|images|, t.s)))
        else Failure(s.errorText(t))
  }

  /** The message of the first entry the metadata pass raises on, if any. */
  function FirstAttachError(d: Dict<Json>, images: seq<Image>, encoded: seq<string>, s: Services): (r: Option<string>)
    ensures r.None? <==> forall i :: 0 <= i < |d| ==> Attach(d[i].1, images, encoded, s).Success?
  {
    if |d| == 0 then None
    else
      var head := Attach(d[0].1, images, encoded, s);
      if head.Failure? then Some(head.error)
      else
        var rest := FirstAttachError(d[1..], images, encoded, s);
        assert forall i :: 1 <= i < |d| ==> d[i] == d[1..][i - 1];
        rest
  }

  /** The metadata pass over every entry, keeping the keys and their order. */
  function AttachAll(d: Dict<Json>, images: seq<Image>, encoded: seq<string>, s: Services): (r: Result<Dict<Answer>, string>)
    ensures r.Success? <==> FirstAttachError(d, images, encoded, s).None?
    ensures r.Success? ==> Keys(r.value) == Keys(d)
    ensures r.Success? ==> forall i :: 0 <= i < |d| ==> Attach(d[i].1, images, encoded, s) == Success(r.value[i].1)
  {
    match FirstAttachError(d, images, encoded, s)
    case Some(m) => Failure(m)
    case None =>
      Success(seq(|d|, i requires 0 <= i < |d| => (d[i].0, Attach(d[i].1, images, encoded, s).value)))
  }

  /** The entries every error path produces: empty text, no images, the given note. */
  function ErrorEntries(qs: seq<Question>, note: string): (d: Dict<Answer>)
    ensures DistinctKeys(d)
    ensures forall k :: HasKey(d, k) <==> exists i :: 0 <= i < |qs| && qs[i].id == k
    ensures forall i :: 0 <= i < |d| ==> d[i].1 == Answer("", [], false, Some(note))
  {
    PerQuestion(qs, Answer("", [], false, Some(note)))
  }

  /** When the mapping call fails, a single-question assignment receives the whole content and
      every question of a larger one receives an empty low-confidence entry. */
  lemma MappingFailureFallback(content: string, qs: seq<Question>, s: Services, k: string)
    requires s.mapQuestions(MappingRequest(QuestionPreviews(qs), Take(content, 10000))).None?
    requires exists i :: 0 <= i < |qs| && qs[i].id == k
    ensures Get(MapQuestions(content, qs, s), k) == Some(LowEntry(if |qs| == 1 then content else ""))
  {
    var d := MapQuestions(content, qs, s);
    assert d == PerQuestion(qs, LowEntry(if |qs| == 1 then content else ""));
    var r := Get(d, k);
    assert r.Some?;
    var i :| 0 <= i < |d| && d[i] == (k, r.value);
  }

  /** `_map_content_to_questions`: transcribe the images (if any), combine, map, then attach the
      image metadata and notes to every entry; a malformed entry turns the whole result into
      mapping-error entries. */
  function MapContent(text: string, images: seq<Image>, qs: seq<Question>, s: Services): (d: Dict<Answer>)
    ensures DistinctKeys(d)
    ensures forall k :: HasKey(d, k) <==> exists i :: 0 <= i < |qs| && qs[i].id == k
    ensures forall i :: 0 <= i < |d| ==> d[i].1.fromImage ==> |images| > 0
  {
    var (imageText, encoded) := if |images| > 0 then TranscribeImages(images, s) else ("", []);
    var mapping := MapQuestions(Combine(text, imageText), qs, s);
    match AttachAll(mapping, images, encoded, s)
    case Success(d) =>
      SameKeys(d, mapping);
      d
    case Failure(m) => ErrorEntries(qs, "Mapping error: " + m)
  }

  /** The images sent for transcription are the successful encodings among the first ten images,
      in order; when each of those encodes, all of them are sent. */
  lemma TranscribeImagesSendsFirstTen(images: seq<Image>, s: Services)
    ensures TranscribeImages(images, s).1
         == Map(EncodedText, Filter(Map(Encoded(s), Take(images, MaxImages)), IsEncoded))
    ensures (forall i :: 0 <= i < |images| && i < MaxImages ==> Encoded(s)(images[i]).Some?) ==>
      |TranscribeImages(images, s).1| == (if |images| <= MaxImages then |images| else MaxImages)
  {
    var first := Take(images, MaxImages);
    EncodeAllKeepsSuccesses(first, s);
    EncodeAllEveryImage(first, s);
  }

  /** Image extraction runs only when enabled and the path names a PDF, in any letter case. */
  function ImagesFor(path: string, enableImages: bool, s: Services): (r: seq<Image>)
    ensures !enableImages || !EndsWith(Lower(path), ".pdf") ==> r == []
  {
    if enableImages && EndsWith(Lower(path), ".pdf") then HybridImages(path, s).0 else []
  }

  /** `extract_answers`: never raises, and whatever happens returns exactly one entry per question
      id. A failure before mapping gives every question an empty answer with the error noted. */
  function ExtractAnswers(path: string, a: Assignment, enableImages: bool, s: Services): (d: Dict<Answer>)
    ensures DistinctKeys(d)
    ensures forall k :: HasKey(d, k) <==> exists i :: 0 <= i < |a.questions| && a.questions[i].id == k
    ensures s.readText(path).Failure? ==>
      forall i :: 0 <= i < |d| ==> d[i].1 == Answer("", [], false, Some("Error during extraction: " + s.readText(path).error))
  {
    match s.readText(path)
    case Failure(m) => ErrorEntries(a.questions, "Error during extraction: " + m)
    case Success(text) => MapContent(text, ImagesFor(path, enableImages, s), a.questions, s)
  }
}
