/**
 * The string helpers of backend/app/routes/papers_api.py: the PDF file name built
 * from a paper title, the arXiv id taken from an entry URL, and the directories
 * `process_paper` works in.
 */
module PapersApi {
  import opened Text

  /** The characters of the class `[<>:"/\\|?*]`, which file names may not contain. */
  predicate Forbidden(c: char)
  {
    c == '<' || c == '>' || c == ':' || c == '"' || c == '/' || c == '\\' || c == '|' || c == '?' || c == '*'
  }

  const MaxTitleLength: nat := 100

  /** `re.sub(r'[<>:"/\\|?*]', '_', title)`: each forbidden character becomes `_`, one for one. */
  function ReplaceForbidden(title: string): (r: string)
    ensures |r| == |title|
    ensures forall i :: 0 <= i < |r| ==> !Forbidden(r[i])
    ensures forall i :: 0 <= i < |r| && !Forbidden(title[i]) ==> r[i] == title[i]
    ensures forall i :: 0 <= i < |r| && Forbidden(title[i]) ==> r[i] == '_'
  {
    seq(|title|, i requires 0 <= i < |title| => if Forbidden(title[i]) then '_' else title[i])
  }

  /**
   * The title part of the PDF name in `download_arxiv_paper_by_id`: forbidden
   * characters replaced, surrounding white space stripped, cut to 100 characters.
   */
  function SanitizeTitle(title: string): (r: string)
    ensures |r| <= MaxTitleLength
    ensures var n := |PyStrip(ReplaceForbidden(title))|; |r| == if n <= MaxTitleLength then n else MaxTitleLength
    ensures forall i :: 0 <= i < |r| ==> !Forbidden(r[i])
    ensures r != [] ==> !IsPySpace(r[0])
  {
    var stripped := PyStrip(ReplaceForbidden(title));
    if |stripped| <= MaxTitleLength then stripped else stripped[..MaxTitleLength]
  }

  /** Every kept character comes from the title at the same offset after the stripped prefix. */
  lemma SanitizeKeepsCharacters(title: string, i: nat)
    requires i < |SanitizeTitle(title)|
    ensures var r := ReplaceForbidden(title);
            var lead := |r| - |TrimStart(r, IsPySpace)|;
            lead + i < |title| &&
            SanitizeTitle(title)[i] == (if Forbidden(title[lead + i]) then '_' else title[lead + i])
  {
    var r := ReplaceForbidden(title);
    assert SanitizeTitle(title)[i] == PyStrip(r)[i];
    StrippedIndex(r, IsPySpace, i);
  }

  /**
   * Sanitising is not idempotent: cutting at 100 characters can leave trailing white
   * space, which a second pass strips.
   */
  lemma SanitizeNotIdempotent()
    ensures exists t :: SanitizeTitle(SanitizeTitle(t)) != SanitizeTitle(t)
  {
    var a := seq(99, _ => 'a');
    assert forall i :: 0 <= i < |a| ==> !Forbidden(a[i]);
    CutLeavesSpace(a);
    SecondPassStrips(a);
    assert SanitizeTitle(SanitizeTitle(a + " b")) == a;
    assert |a| != |a + " "|;
  }

  lemma CutLeavesSpace(a: string)
    requires |a| == MaxTitleLength - 1 && !IsPySpace(a[0])
    requires forall i :: 0 <= i < |a| ==> !Forbidden(a[i])
    ensures SanitizeTitle(a + " b") == a + " "
  {
    var t := a + " b";
    NoForbiddenAppend(a, " b");
    CleanTitleUnchanged(t);
    assert |t| > MaxTitleLength;
    assert SanitizeTitle(t) == t[..MaxTitleLength];
    assert t[..MaxTitleLength] == a + " " by {
      assert t == (a + " ") + "b";
    }
  }

  lemma NoForbiddenAppend(a: string, b: string)
    requires forall i :: 0 <= i < |a| ==> !Forbidden(a[i])
    requires forall i :: 0 <= i < |b| ==> !Forbidden(b[i])
    ensures forall i :: 0 <= i < |a + b| ==> !Forbidden((a + b)[i])
  {
  }

  /** A second pass strips that space again. */
  lemma SecondPassStrips(a: string)
    requires |a| == MaxTitleLength - 1 && !IsPySpace(a[0]) && !IsPySpace(a[|a| - 1])
    requires forall i :: 0 <= i < |a| ==> !Forbidden(a[i])
    ensures SanitizeTitle(a + " ") == a
  {
    var s := a + " ";
    NoForbiddenFixed(s);
    assert TrimStart(s, IsPySpace) == s;
    assert s[..|s| - 1] == a;
    assert TrimEnd(s, IsPySpace) == a;
  }

  /** A title with nothing to replace or strip reaches the cut unchanged. */
  lemma CleanTitleUnchanged(t: string)
    requires t != [] && !IsPySpace(t[0]) && !IsPySpace(t[|t| - 1])
    requires forall i :: 0 <= i < |t| ==> !Forbidden(t[i])
    ensures PyStrip(ReplaceForbidden(t)) == t
  {
    NoForbiddenFixed(t);
    assert TrimStart(t, IsPySpace) == t;
  }

  lemma NoForbiddenFixed(t: string)
    requires forall i :: 0 <= i < |t| ==> !Forbidden(t[i])
    ensures ReplaceForbidden(t) == t
  {
  }

  /** `os.path.join(a, b)` for two components. */
  function PathJoin(a: string, b: string): (r: string)
    ensures StartsWith(b, "/") ==> r == b
    ensures !StartsWith(b, "/") ==> |a| + |b| <= |r| <= |a| + |b| + 1 && StartsWith(r, a) && r[|r| - |b|..] == b
  {
    if StartsWith(b, "/") then b
    else if a == "" || a[|a| - 1] == '/' then a + b
    else a + "/" + b
  }

  predicate NoSlash(s: string)
  {
    forall i :: 0 <= i < |s| ==> s[i] != '/'
  }

  lemma NoSlashAppend(a: string, b: string)
    requires NoSlash(a) && NoSlash(b)
    ensures NoSlash(a + b)
  {
  }

  /** The PDF file name: the sanitised title and ".pdf". It holds no slash. */
  function PdfName(title: string): (name: string)
    ensures NoSlash(name) && |name| == |SanitizeTitle(title)| + 4
  {
    var safe := SanitizeTitle(title);
    assert NoSlash(safe);
    NoSlashAppend(safe, ".pdf");
    safe + ".pdf"
  }

  /**
   * The full path of the downloaded PDF: the download directory joined with the
   * PDF name, which therefore never escapes the directory.
   */
  function PdfPath(downloadDir: string, title: string): (r: string)
    ensures StartsWith(r, downloadDir)
    ensures |PdfName(title)| <= |r| && r[|r| - |PdfName(title)|..] == PdfName(title)
  {
    var name := PdfName(title);
    assert !StartsWith(name, "/") by {
      assert name[0] != '/';
    }
    PathJoin(downloadDir, name)
  }

  /** The last path segment: everything after the final `/`. */
  function LastSegment(s: string): (r: string)
    ensures |r| <= |s| && r == s[|s| - |r|..]
    ensures forall i :: 0 <= i < |r| ==> r[i] != '/'
    ensures |r| < |s| ==> s[|s| - |r| - 1] == '/'
  {
    if s == [] || s[|s| - 1] == '/' then []
    else LastSegment(s[..|s| - 1]) + [s[|s| - 1]]
  }

  /**
   * `url.split("/")[-1]` in `crawl_papers`: the entry id after its last slash, and
   * the whole id when it has no slash.
   */
  function ArxivId(url: string): (r: string)
    ensures forall i :: 0 <= i < |r| ==> r[i] != '/'
    ensures NoSlash(url) ==> r == url
    ensures |r| <= |url| && r == url[|url| - |r|..]
  {
    LastSegment(url)
  }

  /** The id ends a URL: whatever precedes it, a slash and the id give back the id. */
  lemma {:induction false} ArxivIdOfJoinedUrl(prefix: string, id: string)
    requires NoSlash(id)
    ensures ArxivId(prefix + "/" + id) == id
  {
    var u := prefix + "/" + id;
    if id != [] {
      var init := id[..|id| - 1];
      assert u[..|u| - 1] == prefix + "/" + init;
      ArxivIdOfJoinedUrl(prefix, init);
      assert id == init + [id[|id| - 1]];
    }
  }

  const PapersDir: string := "./storage/papers/"
  const ProcessedPrefix: string := "./storage/processed/paper_"

  /** What `process_paper` does before handing the PDF to the preprocessor. */
  datatype ProcessOutcome =
    | ErrorResponse(status: nat, message: string)
    | Preprocess(pdfPath: string, outputDir: string)

  /** `processed_dir` as written: the raw title, not the sanitised one, after the prefix. */
  function ProcessedDir(title: string): (r: string)
    ensures StartsWith(r, ProcessedPrefix) && r[|ProcessedPrefix|..] == title
  {
    ConcatParts(ProcessedPrefix, title);
    ProcessedPrefix + title
  }

  /** A title with a slash puts the processed output in a nested directory. */
  lemma RawTitleNestsDirectory()
    ensures exists title :: !NoSlash(ProcessedDir(title)[|ProcessedPrefix|..])
  {
    var title := "A/B";
    assert title[1] == '/';
    assert !NoSlash(ProcessedDir(title)[|ProcessedPrefix|..]);
  }

  /** The directory built from the sanitised title, as the PDF name is: one level, no slash. */
  function SafeProcessedDir(title: string): (r: string)
    ensures StartsWith(r, ProcessedPrefix)
    ensures r[|ProcessedPrefix|..] == SanitizeTitle(title) && NoSlash(r[|ProcessedPrefix|..])
  {
    var t := SanitizeTitle(title);
    ConcatParts(ProcessedPrefix, t);
    ProcessedPrefix + t
  }

  /**
   * `process_paper` given the title `download_arxiv_paper_by_id` returns (`""` when the
   * download failed): an empty id is a 400, a failed download a 500, otherwise the PDF
   * under ./storage/papers/ is preprocessed into the per-paper directory.
   */
  function ProcessPaper(arxivId: string, downloadedTitle: string): (r: ProcessOutcome)
    ensures arxivId == "" <==> r == ErrorResponse(400, "No arxiv ID provided")
    ensures arxivId != "" && downloadedTitle == "" <==> r == ErrorResponse(500, "Failed to download paper")
    ensures r.Preprocess? ==> r.pdfPath == PdfPath(PapersDir, downloadedTitle)
    ensures r.Preprocess? ==> r.outputDir == SafeProcessedDir(downloadedTitle)
  {
    if arxivId == "" then ErrorResponse(400, "No arxiv ID provided")
    else if downloadedTitle == "" then ErrorResponse(500, "Failed to download paper")
    else Preprocess(PdfPath(PapersDir, downloadedTitle), SafeProcessedDir(downloadedTitle))
  }
}
