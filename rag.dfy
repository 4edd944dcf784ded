/**
 * The retrieval and prompt-building helpers of agents/system_agents/papers_rag.py.
 * The embedder, the FAISS indexes, the image encoder and the language model are
 * outside the model: their outcomes are parameters.
 */
module Rag {
  import opened Wrappers
  import opened Records
  import opened Text
  import opened Lists
  import Indexing

  const DataImage: string := "data:image"
  const PngPrefix: string := "data:image/png;base64,"

  /**
   * `ImageProcessor.b64_to_url`: a data URL is kept, anything else gets the PNG
   * data-URL prefix. The payload always ends the result.
   */
  function B64ToUrl(b64: string): (r: string)
    ensures StartsWith(r, DataImage)
    ensures |b64| <= |r| && r[|r| - |b64|..] == b64
    ensures StartsWith(b64, DataImage) <==> r == b64
  {
    if StartsWith(b64, DataImage) then b64 else PngPrefix + b64
  }

  lemma B64ToUrlIdempotent(b64: string)
    ensures B64ToUrl(B64ToUrl(b64)) == B64ToUrl(b64)
  {
  }

  // ----- retrieve_images -----

  /**
   * `res.get("score", 0) > 0.5`. A missing score compares as 0; a score that is not a
   * number makes the comparison raise, which is `None` here.
   */
  function ScoreAbove(res: Record): (r: Option<bool>)
    ensures r == Some(true) <==> Indexing.ScoreKey in res && res[Indexing.ScoreKey].Num? && res[Indexing.ScoreKey].x > 0.5
    ensures r.None? <==> Indexing.ScoreKey in res && !res[Indexing.ScoreKey].Num?
  {
    match Get(res, Indexing.ScoreKey, Num(0.0))
    case Num(x) => Some(x > 0.5)
    case _ => None
  }

  /** The test `res.get("score", 0) > 0.5` when it does not raise. */
  predicate Retained(res: Record)
  {
    ScoreAbove(res) == Some(true)
  }

  /**
   * The results whose score exceeds 0.5, in order and each once (the list filter of
   * `Retained`); `None` when some comparison raises.
   */
  function FilterByScore(results: seq<Record>): (r: Option<seq<Record>>)
    ensures r.Some? <==> forall i :: 0 <= i < |results| ==> ScoreAbove(results[i]).Some?
    ensures r.Some? ==> r.value == Filter(results, Retained)
    ensures r.Some? ==> forall x :: x in r.value ==> x in results && ScoreAbove(x) == Some(true)
    ensures r.Some? ==> forall x :: x in results && ScoreAbove(x) == Some(true) ==> x in r.value
  {
    if |results| == 0 then Some([])
    else
      var init, last := results[..|results| - 1], results[|results| - 1];
      assert forall i :: 0 <= i < |init| ==> init[i] == results[i];
      assert results == init + [last];
      match (FilterByScore(init), ScoreAbove(last))
      case (Some(kept), Some(true)) => Some(kept + [last])
      case (Some(kept), Some(false)) => Some(kept)
      case _ => None
  }

  /**
   * `ScientificPaperRetriever.retrieve_images` given the outcome of the image-index
   * search: the filtered results, or [] when the search or a comparison raises.
   */
  method RetrieveImages(search: Result<seq<Record>>) returns (valid: seq<Record>)
    ensures search.Ok? && FilterByScore(search.value).Some? ==> valid == FilterByScore(search.value).value
    ensures search.Err? || FilterByScore(search.value).None? ==> valid == []
  {
    if search.Err? {
      return [];
    }
    var results := search.value;
    valid := [];
    var i := 0;
    while i < |results|
      invariant 0 <= i <= |results|
      invariant FilterByScore(results[..i]) == Some(valid)
    {
      assert results[..i + 1][..i] == results[..i];
      var above := ScoreAbove(results[i]);
      if above.None? {
        assert FilterByScore(results[..i + 1]).None?;
        NoneExtends(results, i + 1);
        return [];
      }
      if above.value {
        valid := valid + [results[i]];
      }
      i := i + 1;
    }
    assert results[..i] == results;
  }

  lemma NoneExtends(results: seq<Record>, j: nat)
    requires j <= |results| && FilterByScore(results[..j]).None?
    ensures FilterByScore(results).None?
  {
    var k :| 0 <= k < j && ScoreAbove(results[..j][k]).None?;
    assert results[k] == results[..j][k];
  }

  /**
   * The image index reports squared-L2 distances as `score`, so the `> 0.5` filter
   * drops an image that matches the query exactly and keeps distant ones.
   */
  lemma ExactMatchImageDropped(res: Record)
    requires Indexing.ScoreKey in res && res[Indexing.ScoreKey] == Num(0.0)
    ensures FilterByScore([res]) == Some([])
  {
  }

  // ----- retrieve_text_context -----

  const ContentKey: string := "content"
  const MetadataKey: string := "metadata"

  /** A LangChain `Document`: its page text and its metadata dictionary. */
  datatype Document = Document(pageContent: string, metadata: map<string, Value>)

  /**
   * One search result as `retrieve_text_context` treats it: skipped (`Ok(None)`)
   * without a `content` key, a document when the content is a string and the metadata
   * (default `{}`) a dictionary, and otherwise the validation error of `Document`.
   */
  function AsDocument(res: Record): (r: Result<Option<Document>>)
    ensures r == Ok(None) <==> ContentKey !in res
    ensures r.Ok? && r.value.Some? ==> res[ContentKey] == Str(r.value.value.pageContent)
    ensures r.Ok? && r.value.Some? && MetadataKey !in res ==> r.value.value.metadata == map[]
    ensures r.Ok? && r.value.Some? && MetadataKey in res ==> res[MetadataKey] == Dict(r.value.value.metadata)
  {
    if ContentKey !in res then Ok(None)
    else match (res[ContentKey], Get(res, MetadataKey, Dict(map[])))
      case (Str(s), Dict(m)) => Ok(Some(Document(s, m)))
      case _ => Err(ValueError("invalid Document fields"))
  }

  /** The documents of the results that carry content, in order; `None` if one is invalid. */
  function Documents(results: seq<Record>): (r: Option<seq<Document>>)
    ensures r.Some? <==> forall i :: 0 <= i < |results| ==> AsDocument(results[i]).Ok?
    ensures r.Some? ==> |r.value| <= |results|
    ensures r.Some? ==> forall d :: d in r.value ==> exists x :: x in results && AsDocument(x) == Ok(Some(d))
    ensures r.Some? ==> forall x :: x in results && ContentKey in x ==> AsDocument(x).value.value in r.value
  {
    if |results| == 0 then Some([])
    else
      var init, last := results[..|results| - 1], results[|results| - 1];
      assert forall i :: 0 <= i < |init| ==> init[i] == results[i];
      assert results == init + [last];
      match (Documents(init), AsDocument(last))
      case (Some(docs), Ok(Some(d))) => Some(docs + [d])
      case (Some(docs), Ok(None)) => Some(docs)
      case _ => None
  }

  /**
   * `docs[k]` is the document of result `idx[k]`, the positions increase, and they
   * are exactly the results that carry content: in order, each once.
   */
  ghost predicate DocumentsAt(results: seq<Record>, docs: seq<Document>, idx: seq<int>)
  {
    && Increasing(idx, |results|) && |idx| == |docs|
    && (forall k :: 0 <= k < |idx| ==> AsDocument(results[idx[k]]) == Ok(Some(docs[k])))
    && (forall i :: 0 <= i < |results| ==> (ContentKey in results[i] <==> i in idx))
  }

  /** A document selection of `init` extends to `init + [last]` when `last` converts. */
  lemma DocumentsExtend(init: seq<Record>, last: Record, docs: seq<Document>, docs': seq<Document>)
    requires exists idx :: DocumentsAt(init, docs, idx)
    requires AsDocument(last).Ok?
    requires docs' == docs + (if AsDocument(last).value.Some? then [AsDocument(last).value.value] else [])
    ensures exists idx :: DocumentsAt(init + [last], docs', idx)
  {
    var idx :| DocumentsAt(init, docs, idx);
    var d := AsDocument(last).value;
    var xs := init + [last];
    IncreasingExtend(idx, |init|);
    assert forall i :: 0 <= i < |init| ==> xs[i] == init[i];
    if d.Some? {
      var idx' := idx + [|init|];
      assert forall k :: 0 <= k < |idx| ==> docs'[k] == docs[k] && idx'[k] == idx[k];
      assert DocumentsAt(xs, docs', idx');
    } else {
      assert DocumentsAt(xs, docs', idx);
    }
  }

  /**
   * The documents are those of the results that carry content, in the order of the
   * results and one per such result.
   */
  lemma {:induction false} DocumentsInOrder(results: seq<Record>)
    requires Documents(results).Some?
    ensures exists idx :: DocumentsAt(results, Documents(results).value, idx)
  {
    if |results| == 0 {
      assert DocumentsAt(results, [], []);
    } else {
      var init, last := results[..|results| - 1], results[|results| - 1];
      assert results == init + [last];
      assert forall i :: 0 <= i < |init| ==> init[i] == results[i];
      DocumentsInOrder(init);
      DocumentsExtend(init, last, Documents(init).value, Documents(results).value);
    }
  }

  lemma DocumentsNoneExtends(results: seq<Record>, j: nat)
    requires j <= |results| && Documents(results[..j]).None?
    ensures Documents(results).None?
  {
    var k :| 0 <= k < j && AsDocument(results[..j][k]).Err?;
    assert results[k] == results[..j][k];
  }

  /**
   * `ScientificPaperRetriever.retrieve_text_context` given the outcome of the text-index
   * search: the documents, or [] when the search or a `Document` construction raises.
   */
  method RetrieveTextContext(search: Result<seq<Record>>) returns (documents: seq<Document>)
    ensures search.Ok? && Documents(search.value).Some? ==> documents == Documents(search.value).value
    ensures search.Err? || Documents(search.value).None? ==> documents == []
  {
    if search.Err? {
      return [];
    }
    var results := search.value;
    documents := [];
    var i := 0;
    while i < |results|
      invariant 0 <= i <= |results|
      invariant Documents(results[..i]) == Some(documents)
    {
      assert results[..i + 1][..i] == results[..i];
      var doc := AsDocument(results[i]);
      if doc.Err? {
        assert Documents(results[..i + 1]).None?;
        DocumentsNoneExtends(results, i + 1);
        return [];
      }
      if doc.value.Some? {
        documents := documents + [doc.value.value];
      }
      i := i + 1;
    }
    assert results[..i] == results;
  }

  // ----- retrieve_all -----

  /** `result.get('filename') or result.get('path') or result.get('content')`, when truthy. */
  function ImagePath(res: Record): (p: Option<Value>)
    ensures p.Some? ==> Truthy(p.value)
    ensures p.None? <==> !Truthy(Get(res, "filename", Null)) && !Truthy(Get(res, "path", Null)) && !Truthy(Get(res, ContentKey, Null))
    ensures Truthy(Get(res, "filename", Null)) ==> p == Some(res["filename"])
    ensures !Truthy(Get(res, "filename", Null)) && Truthy(Get(res, "path", Null)) ==> p == Some(res["path"])
    ensures !Truthy(Get(res, "filename", Null)) && !Truthy(Get(res, "path", Null)) && Truthy(Get(res, ContentKey, Null))
            ==> p == Some(res[ContentKey])
  {
    var f, q, c := Get(res, "filename", Null), Get(res, "path", Null), Get(res, ContentKey, Null);
    if Truthy(f) then Some(f) else if Truthy(q) then Some(q) else if Truthy(c) then Some(c) else None
  }

  datatype RetrievalResult = RetrievalResult(textDocuments: seq<Document>, imageBase64Data: seq<string>)

  /**
   * What the loop body of `retrieve_all` adds for one image result: the encoding of
   * its path when there is a path and the encoding is non-empty and valid.
   */
  function ImageData(res: Record, encode: Value -> string, validate: string -> bool): Option<string>
  {
    var p := ImagePath(res);
    if p.Some? && encode(p.value) != "" && validate(encode(p.value)) then Some(encode(p.value)) else None
  }

  /** The image data of each result, position by position. */
  ghost function ImageDatas(results: seq<Record>, encode: Value -> string, validate: string -> bool)
    : (ds: seq<Option<string>>)
    ensures |ds| == |results|
  {
    if |results| == 0 then []
    else ImageDatas(results[..|results| - 1], encode, validate) + [ImageData(results[|results| - 1], encode, validate)]
  }

  lemma {:induction false} ImageDatasAt(results: seq<Record>, encode: Value -> string, validate: string -> bool, i: nat)
    requires i < |results|
    ensures ImageDatas(results, encode, validate)[i] == ImageData(results[i], encode, validate)
  {
    var n := |results| - 1;
    if i < n {
      ImageDatasAt(results[..n], encode, validate, i);
    }
  }

  /**
   * The encoded images of the results with a path, in order, keeping only the
   * non-empty encodings the validator accepts.
   */
  function EncodedImages(results: seq<Record>, encode: Value -> string, validate: string -> bool): (r: seq<string>)
    ensures |r| <= |results|
    ensures forall b :: b in r ==> b != "" && validate(b)
  {
    if |results| == 0 then []
    else
      var init, last := results[..|results| - 1], results[|results| - 1];
      var rest := EncodedImages(init, encode, validate);
      var d := ImageData(last, encode, validate);
      if d.Some? then rest + [d.value] else rest
  }

  /**
   * The encoded images are the data of the results that have image data, in the
   * order of the results and one per such result.
   */
  lemma {:induction false} EncodedImagesInOrder(results: seq<Record>, encode: Value -> string, validate: string -> bool)
    ensures exists idx :: PicksSome(ImageDatas(results, encode, validate), EncodedImages(results, encode, validate), idx)
  {
    if |results| == 0 {
      assert PicksSome(ImageDatas(results, encode, validate), EncodedImages(results, encode, validate), []);
    } else {
      var init, last := results[..|results| - 1], results[|results| - 1];
      EncodedImagesInOrder(init, encode, validate);
      var idx :| PicksSome(ImageDatas(init, encode, validate), EncodedImages(init, encode, validate), idx);
      var d := ImageData(last, encode, validate);
      PicksSomeAppend(ImageDatas(init, encode, validate), EncodedImages(init, encode, validate), idx, d);
      assert ImageDatas(results, encode, validate) == ImageDatas(init, encode, validate) + [d];
      assert EncodedImages(results, encode, validate) ==
             EncodedImages(init, encode, validate) + (if d.Some? then [d.value] else []);
      assert PicksSome(ImageDatas(results, encode, validate), EncodedImages(results, encode, validate),
                       idx + (if d.Some? then [|init|] else []));
    }
  }

  /**
   * `ScientificPaperRetriever.retrieve_all`: the text documents, and the encoded images
   * of the retained image results. `encode` is `get_image_base64` ("" on failure) and
   * `validate` is `validate_image`.
   */
  method RetrieveAll(textSearch: Result<seq<Record>>, imageSearch: Result<seq<Record>>,
                     encode: Value -> string, validate: string -> bool)
    returns (r: RetrievalResult)
    ensures textSearch.Ok? && Documents(textSearch.value).Some? ==> r.textDocuments == Documents(textSearch.value).value
    ensures textSearch.Err? || Documents(textSearch.value).None? ==> r.textDocuments == []
    ensures imageSearch.Ok? && FilterByScore(imageSearch.value).Some? ==>
              r.imageBase64Data == EncodedImages(FilterByScore(imageSearch.value).value, encode, validate)
    ensures imageSearch.Err? || FilterByScore(imageSearch.value).None? ==> r.imageBase64Data == []
  {
    var textDocs := RetrieveTextContext(textSearch);
    var imageResults := RetrieveImages(imageSearch);
    var images := EncodeImages(imageResults, encode, validate);
    r := RetrievalResult(textDocs, images);
  }

  /** The loop of `retrieve_all` over the image hits: each usable path encoded and validated. */
  method EncodeImages(imageResults: seq<Record>, encode: Value -> string, validate: string -> bool)
    returns (images: seq<string>)
    ensures images == EncodedImages(imageResults, encode, validate)
  {
    images := [];
    var i := 0;
    while i < |imageResults|
      invariant 0 <= i <= |imageResults|
      invariant images == EncodedImages(imageResults[..i], encode, validate)
    {
      assert imageResults[..i + 1][..i] == imageResults[..i];
      var path := ImagePath(imageResults[i]);
      if path.Some? {
        var data := encode(path.value);
        if data != "" && validate(data) {
          images := images + [data];
        }
      }
      i := i + 1;
    }
    assert imageResults[..i] == imageResults;
  }

  // ----- format_context -----

  function SourceEntry(i: nat, content: string): string
  {
    "[Source " + NatToString(i) + "]: " + content + "\n\n"
  }

  /** The entries `[Source i]: content` for i = 1..n, concatenated in order. */
  function Sources(docs: seq<Document>): (r: string)
    ensures docs == [] <==> r == ""
  {
    if |docs| == 0 then ""
    else Sources(docs[..|docs| - 1]) + SourceEntry(|docs|, docs[|docs| - 1].pageContent)
  }

  /** Document `i` (from zero) appears as entry `i + 1` right after the entries before it. */
  lemma {:induction false} SourceEntryPlaced(docs: seq<Document>, i: nat)
    requires i < |docs|
    ensures OccursAt(Sources(docs), SourceEntry(i + 1, docs[i].pageContent), |Sources(docs[..i])|)
    decreases |docs|
  {
    var n := |docs|;
    var init := docs[..n - 1];
    var last := SourceEntry(n, docs[n - 1].pageContent);
    assert Sources(docs) == Sources(init) + last;
    if i < n - 1 {
      SourceEntryPlaced(init, i);
      assert init[..i] == docs[..i] && init[i] == docs[i];
      OccursBefore(Sources(init), last, |Sources(init[..i])|, SourceEntry(i + 1, docs[i].pageContent));
    } else {
      assert docs[..i] == init;
      OccursInMiddle(Sources(init), last, []);
      assert Sources(init) + last + [] == Sources(docs);
    }
  }

  function FigureEntry(i: nat): string
  {
    "[Figure " + NatToString(i) + "] included in the input.\n"
  }

  function FigureLines(n: nat): string
  {
    if n == 0 then "" else FigureLines(n - 1) + FigureEntry(n)
  }

  const NoImages: string := "No relevant images found for this query."

  function FiguresHeader(n: nat): string
  {
    "Retrieved " + NatToString(n) + " relevant figures/charts:\n"
  }

  /** The figure summary: a fixed sentence without images, else a header and one line per image. */
  function ImagesInfo(n: nat): (r: string)
    ensures n == 0 <==> r == NoImages
    ensures n > 0 ==> StartsWith(r, FiguresHeader(n))
  {
    if n == 0 then NoImages else FiguresHeader(n) + FigureLines(n)
  }

  /** Figure `i` appears right after the header and the lines of the figures before it. */
  lemma {:induction false} FigureEntryPlaced(n: nat, i: nat)
    requires 1 <= i <= n
    ensures OccursAt(ImagesInfo(n), FigureEntry(i), |FiguresHeader(n)| + |FigureLines(i - 1)|)
  {
    var h, lines := FiguresHeader(n), FigureLines(n);
    var p, e := FigureLines(i - 1), FigureEntry(i);
    assert FigureLines(i) == p + e;
    FigureLinesPrefix(n, i);
    PlacedAfterHeader(ImagesInfo(n), h, lines, p, e);
  }

  /** In `h + lines` where `lines` starts with `p + e`, the piece `e` sits at offset `|h| + |p|`. */
  lemma PlacedAfterHeader(s: string, h: string, lines: string, p: string, e: string)
    requires s == h + lines
    requires |p + e| <= |lines| && lines[..|p + e|] == p + e
    ensures OccursAt(s, e, |h| + |p|)
  {
    EndOfPrefix(lines, p, e);
    OccursAfter(h, lines, |p|, e);
  }

  /** When `s` starts with `p + e`, the piece `e` sits at offset `|p|`. */
  lemma EndOfPrefix(s: string, p: string, e: string)
    requires |p + e| <= |s| && s[..|p + e|] == p + e
    ensures OccursAt(s, e, |p|)
  {
    assert s[|p|..|p| + |e|] == (p + e)[|p|..];
  }

  /** A piece at offset `k` of `t` is at offset `|s| + k` of `s + t`. */
  lemma OccursAfter(s: string, t: string, k: nat, piece: string)
    requires OccursAt(t, piece, k)
    ensures OccursAt(s + t, piece, |s| + k)
  {
    assert (s + t)[|s| + k..|s| + k + |piece|] == t[k..k + |piece|];
  }

  /** A piece at offset `k` of `s` stays at offset `k` of `s + t`. */
  lemma OccursBefore(s: string, t: string, k: nat, piece: string)
    requires OccursAt(s, piece, k)
    ensures OccursAt(s + t, piece, k)
  {
    assert (s + t)[k..k + |piece|] == s[k..k + |piece|];
  }

  /** The middle of a three-part concatenation starts right after the first part. */
  lemma OccursInMiddle(pre: string, mid: string, post: string)
    ensures OccursAt(pre + mid + post, mid, |pre|)
  {
    assert (pre + mid + post)[|pre|..|pre| + |mid|] == mid;
  }

  lemma {:induction false} FigureLinesPrefix(n: nat, i: nat)
    requires i <= n
    ensures |FigureLines(i)| <= |FigureLines(n)| && FigureLines(n)[..|FigureLines(i)|] == FigureLines(i)
    decreases n
  {
    if i < n {
      FigureLinesPrefix(n - 1, i);
      assert FigureLines(n) == FigureLines(n - 1) + FigureEntry(n);
    }
  }

  /** The sources text, one entry appended per document. */
  method SourcesText(docs: seq<Document>) returns (textContext: string)
    ensures textContext == Sources(docs)
  {
    textContext := "";
    var i := 0;
    while i < |docs|
      invariant 0 <= i <= |docs|
      invariant textContext == Sources(docs[..i])
    {
      assert docs[..i + 1][..i] == docs[..i];
      textContext := textContext + SourceEntry(i + 1, docs[i].pageContent);
      i := i + 1;
    }
    assert docs[..i] == docs;
  }

  /** The figure lines, one appended per image. */
  method FigureLinesText(n: nat) returns (lines: string)
    ensures lines == FigureLines(n)
  {
    lines := "";
    for j := 0 to n
      invariant lines == FigureLines(j)
    {
      lines := lines + FigureEntry(j + 1);
    }
  }

  /** The figure summary: the fixed sentence, or the header followed by the figure lines. */
  method FigureSummary(n: nat) returns (imagesInfo: string)
    ensures imagesInfo == ImagesInfo(n)
  {
    if n == 0 {
      imagesInfo := NoImages;
    } else {
      var lines := FigureLinesText(n);
      imagesInfo := FiguresHeader(n) + lines;
    }
  }

  /** `GeminiProAgent.format_context`: the sources text and the figure summary. */
  method FormatContext(retrieval: RetrievalResult) returns (textContext: string, imagesInfo: string)
    ensures textContext == Sources(retrieval.textDocuments)
    ensures imagesInfo == ImagesInfo(|retrieval.imageBase64Data|)
  {
    textContext := SourcesText(retrieval.textDocuments);
    imagesInfo := FigureSummary(|retrieval.imageBase64Data|);
  }

  // ----- create_enhanced_prompt and generate_response -----

  const ContextHeading: string := "\n\nRETRIEVED CONTEXT:\n"
  const VisualHeading: string := "\n\nVISUAL MATERIALS:\n"
  const QuestionHeading: string := "\n\nRESEARCH QUESTION: "
  const Closing: string := "\n\nPlease provide a comprehensive answer based on the context and visual materials above. \nInclude relevant citations and explain your reasoning.\n"

  /**
   * `GeminiProAgent.create_enhanced_prompt`: the system prompt, then the context, the
   * figure summary and the question, each after its heading, then the fixed closing.
   */
  function CreateEnhancedPrompt(systemPrompt: string, query: string, contextText: string, imagesInfo: string): string
  {
    systemPrompt + (ContextHeading + contextText) + (VisualHeading + imagesInfo) + (QuestionHeading + query + Closing)
  }

  lemma PromptLayout(systemPrompt: string, query: string, contextText: string, imagesInfo: string)
    ensures var r := CreateEnhancedPrompt(systemPrompt, query, contextText, imagesInfo);
            && StartsWith(r, systemPrompt)
            && OccursAt(r, ContextHeading + contextText, |systemPrompt|)
            && OccursAt(r, VisualHeading + imagesInfo, |systemPrompt| + |ContextHeading| + |contextText|)
            && OccursAt(r, QuestionHeading + query + Closing, |r| - |QuestionHeading| - |query| - |Closing|)
  {
    PromptParts(systemPrompt, ContextHeading, contextText, VisualHeading, imagesInfo, QuestionHeading, query, Closing);
  }

  /** The layout of `sp + (h1 + x) + (h2 + y) + (h3 + q + cl)`, for any headings. */
  lemma PromptParts(sp: string, h1: string, x: string, h2: string, y: string, h3: string, q: string, cl: string)
    ensures var r := sp + (h1 + x) + (h2 + y) + (h3 + q + cl);
            && StartsWith(r, sp)
            && OccursAt(r, h1 + x, |sp|)
            && OccursAt(r, h2 + y, |sp| + |h1| + |x|)
            && OccursAt(r, h3 + q + cl, |r| - |h3| - |q| - |cl|)
  {
    var a, b, c := h1 + x, h2 + y, h3 + q + cl;
    FourParts(sp, a, b, c);
    var r := sp + a + b + c;
    assert |r| - |h3| - |q| - |cl| == |sp| + |a| + |b|;
  }

  /** Where each part of `p + a + b + c` starts. */
  lemma FourParts(p: string, a: string, b: string, c: string)
    ensures StartsWith(p + a + b + c, p)
    ensures OccursAt(p + a + b + c, a, |p|)
    ensures OccursAt(p + a + b + c, b, |p| + |a|)
    ensures OccursAt(p + a + b + c, c, |p| + |a| + |b|)
  {
    var r := p + a + b + c;
    assert r[..|p|] == p;
    assert r[|p|..|p| + |a|] == a;
    assert r[|p| + |a|..|p| + |a| + |b|] == b;
    assert r[|p| + |a| + |b|..] == c;
  }

  /** One entry of the multimodal message: the prompt text or an image URL. */
  datatype ContentPart = TextPart(text: string) | ImageUrlPart(url: string)

  /** The content parts: the prompt, then one image part per image, in order. */
  method ContentParts(prompt: string, images: seq<string>) returns (parts: seq<ContentPart>)
    ensures |parts| == |images| + 1 && parts[0] == TextPart(prompt)
    ensures forall i :: 0 <= i < |images| ==> parts[i + 1] == ImageUrlPart(images[i])
  {
    parts := [TextPart(prompt)];
    for i := 0 to |images|
      invariant |parts| == i + 1 && parts[0] == TextPart(prompt)
      invariant forall j :: 0 <= j < i ==> parts[j + 1] == ImageUrlPart(images[j])
    {
      parts := parts + [ImageUrlPart(images[i])];
    }
  }

  /** What the language model returns: the answer text, or the failure it raised. */
  datatype Reply = Answer(content: string) | Failure(description: string)

  datatype Response = Response(answer: string, contextUsed: nat, imagesUsed: nat)

  const ErrorPreamble: string := "I encountered an error while processing your question: "

  /**
   * `GeminiProAgent.generate_response`: the prompt and the images go to the model as
   * content parts; the counts report what was sent, and a failure is reported as an
   * answer with zero counts.
   */
  method GenerateResponse(systemPrompt: string, query: string, retrieval: RetrievalResult,
                          invoke: seq<ContentPart> -> Reply)
    returns (r: Response, parts: seq<ContentPart>)
    ensures |parts| == |retrieval.imageBase64Data| + 1
    ensures parts[0] == TextPart(CreateEnhancedPrompt(systemPrompt, query, Sources(retrieval.textDocuments),
                                                      ImagesInfo(|retrieval.imageBase64Data|)))
    ensures forall i :: 0 <= i < |retrieval.imageBase64Data| ==> parts[i + 1] == ImageUrlPart(retrieval.imageBase64Data[i])
    ensures invoke(parts).Answer? ==> r == Response(invoke(parts).content, |retrieval.textDocuments|, |retrieval.imageBase64Data|)
    ensures invoke(parts).Failure? ==> r == Response(ErrorPreamble + invoke(parts).description, 0, 0)
  {
    var textContext, imagesInfo := FormatContext(retrieval);
    var prompt := CreateEnhancedPrompt(systemPrompt, query, textContext, imagesInfo);
    parts := ContentParts(prompt, retrieval.imageBase64Data);
    match invoke(parts)
    case Answer(content) =>
      r := Response(content, |retrieval.textDocuments|, |retrieval.imageBase64Data|);
    case Failure(description) =>
      r := Response(ErrorPreamble + description, 0, 0);
  }
}
