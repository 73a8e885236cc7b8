/**
 * The document-preparation rules of backend/utils.py: joining the text of
 * PDF pages, choosing a reader by file extension, and the guard and
 * truncation in front of the summary request. The PDF parser, the file
 * system and the hosted model are parameters.
 */
module Documents {
  import opened Wrappers
  import opened Text
  import opened Filtering

  /** What `page.extract_text()` did for one page: returned a text (possibly `None`) or raised. */
  datatype PageResult = Extracted(text: Option<string>) | Failed

  /** `page.extract_text() or ""` for a page that did not raise; nothing for one that did. */
  function PageText(p: PageResult): (r: Option<string>)
    ensures p.Failed? <==> r.None?
    ensures p.Extracted? ==> r == Some(p.text.GetOr(""))
  {
    match p
    case Failed => None
    case Extracted(t) => Some(t.GetOr(""))
  }

  /** The loop of `get_text_from_pdf`: collect the page texts, skipping failed pages, and join them. */
  method GetTextFromPdf(pages: seq<PageResult>) returns (text: string)
    ensures text == Join("\n", FilterMap(pages, PageText))
  {
    var chunks: seq<string> := [];
    for i := 0 to |pages|
      invariant chunks == FilterMap(pages[..i], PageText)
    {
      FilterMapPrefix(pages, i, PageText);
      match pages[i]
      case Failed =>
      case Extracted(t) =>
        chunks := chunks + [t.GetOr("")];
    }
    FilterMapWhole(pages, PageText);
    text := Join("\n", chunks);
  }

  /**
   * One segment is joined per page that did not fail, in page order, and each
   * segment is that page's text ("" when the page had none).
   */
  lemma PdfSegments(pages: seq<PageResult>)
    ensures |FilterMap(pages, PageText)| == Count(pages, (p: PageResult) => p.Extracted?)
    ensures var idx := Origins(pages, PageText);
            forall k :: 0 <= k < |idx| ==>
              idx[k] < |pages| && pages[idx[k]].Extracted? &&
              FilterMap(pages, PageText)[k] == pages[idx[k]].text.GetOr("")
  {
    FilterMapCount(pages, PageText, (p: PageResult) => p.Extracted?);
  }

  /** When no page fails, the pages are joined one segment each. */
  lemma PdfAllPagesRead(pages: seq<PageResult>)
    requires forall k :: 0 <= k < |pages| ==> pages[k].Extracted?
    ensures |FilterMap(pages, PageText)| == |pages|
  {
    FilterMapCount(pages, PageText, (p: PageResult) => p.Extracted?);
    CountAll(pages, (p: PageResult) => p.Extracted?);
  }

  /** When every page fails the extracted text is empty. */
  lemma PdfAllPagesFail(pages: seq<PageResult>)
    requires forall k :: 0 <= k < |pages| ==> pages[k].Failed?
    ensures Join("\n", FilterMap(pages, PageText)) == ""
  {
    FilterMapEmptyIff(pages, PageText);
  }

  /**
   * The extension `os.path.splitext` splits off a POSIX path: from the last '.'
   * of the final component, unless that component has only dots before it.
   */
  function Extension(path: string): (ext: string)
    ensures ext == "" || (ext[0] == '.' && '/' !in ext)
    ensures |ext| <= |path| && ext == path[|path| - |ext|..]
  {
    var sep := LastIndex(path, '/');
    var dot := LastIndex(path, '.');
    if dot > sep && exists k | sep < k < dot :: path[k] != '.'
    then path[dot..]
    else ""
  }

  /** An extension is the whole rest of the path after its last '.'; it holds no other '.'. */
  lemma ExtensionHasOneDot(path: string)
    ensures Extension(path) != "" ==> '.' !in Extension(path)[1..]
  {
    var dot := LastIndex(path, '.');
    if Extension(path) != "" {
      assert Extension(path) == path[dot..];
      forall j | 1 <= j < |path| - dot ensures path[dot..][j] != '.' {
        assert path[dot..][j] == path[dot + j];
      }
    }
  }

  /**
   * A stem that does not end in '.' or '/' followed by '.' and characters
   * with neither: the extension is exactly that tail.
   */
  lemma ExtensionOfName(stem: string, suffix: string)
    requires stem != "" && stem[|stem| - 1] != '.' && stem[|stem| - 1] != '/'
    requires '.' !in suffix && '/' !in suffix
    ensures Extension(stem + ("." + suffix)) == "." + suffix
  {
    var ext := "." + suffix;
    var path := stem + ext;
    forall k | |stem| < k < |path| ensures path[k] != '.' && path[k] != '/' {
      assert path[k] == suffix[k - |stem| - 1];
    }
    LastIndexUnique(path, '.', |stem|);
    var sep := LastIndex(stem, '/');
    forall k | sep < k < |path| ensures path[k] != '/' {
      if k < |stem| {
        assert path[k] == stem[k];
      }
    }
    LastIndexUnique(path, '/', sep);
    assert sep < |stem| - 1 && path[|stem| - 1] != '.';
    assert path[|stem|..] == ext;
  }

  /** Paths without a '.' have no extension. */
  lemma NoDotNoExtension(path: string)
    requires '.' !in path
    ensures Extension(path) == ""
  {
    LastIndexUnique(path, '.', -1);
  }

  /** The reader `get_text_from_file` picks. */
  datatype Reader = PdfReader | TextReader | NoReader

  /** The reader for a path: by its extension, compared in lower case. */
  function ReaderFor(path: string): (r: Reader)
    ensures r == PdfReader <==> Lower(Extension(path)) == ".pdf"
    ensures r == TextReader <==> Lower(Extension(path)) == ".txt"
  {
    var ext := Lower(Extension(path));
    if ext == ".pdf" then PdfReader
    else if ext == ".txt" then TextReader
    else NoReader
  }

  /** Lowering a path lowers its extension. */
  lemma ExtensionLower(path: string)
    ensures Extension(Lower(path)) == Lower(Extension(path))
  {
    var low := Lower(path);
    LastIndexLower(path, '/');
    LastIndexLower(path, '.');
    var sep := LastIndex(path, '/');
    var dot := LastIndex(path, '.');
    if dot > sep {
      LowerKeepsOther(path, '.', sep, dot);
      LowerSuffix(path, dot);
    }
  }

  /** The reader does not depend on the case of the path. */
  lemma ReaderIgnoresCase(path: string)
    ensures ReaderFor(Lower(path)) == ReaderFor(path)
  {
    ExtensionLower(path);
    LowerIdempotent(Extension(path));
  }

  /** A name whose extension is "." followed by `suffix` is read by the reader that `suffix` names in any case. */
  lemma ReaderOfName(stem: string, suffix: string)
    requires stem != "" && stem[|stem| - 1] != '.' && stem[|stem| - 1] != '/'
    requires '.' !in suffix && '/' !in suffix
    ensures ReaderFor(stem + ("." + suffix)) == PdfReader <==> Lower(suffix) == "pdf"
    ensures ReaderFor(stem + ("." + suffix)) == TextReader <==> Lower(suffix) == "txt"
  {
    ExtensionOfName(stem, suffix);
    LowerCons('.', suffix);
    ConsEqual('.', Lower(suffix), "pdf");
    ConsEqual('.', Lower(suffix), "txt");
    assert ".pdf" == "." + "pdf" && ".txt" == "." + "txt";
  }

  /** A path with no '.' is read by no reader. */
  lemma NoExtension(path: string)
    requires '.' !in path
    ensures ReaderFor(path) == NoReader
  {
    NoDotNoExtension(path);
  }

  /**
   * `get_text_from_file`: the PDF pages are joined, a text file is read as
   * it is, and any other file gives "".
   */
  method GetTextFromFile(path: string, pdfPages: string -> seq<PageResult>, readText: string -> string)
    returns (text: string)
    ensures ReaderFor(path) == PdfReader ==> text == Join("\n", FilterMap(pdfPages(path), PageText))
    ensures ReaderFor(path) == TextReader ==> text == readText(path)
    ensures ReaderFor(path) == NoReader ==> text == ""
  {
    var ext := Lower(Extension(path));
    if ext == ".pdf" {
      text := GetTextFromPdf(pdfPages(path));
    } else if ext == ".txt" {
      text := readText(path);
    } else {
      text := "";
    }
  }

  /** The answer for a document with no readable text. */
  const NoReadableText := "No readable text extracted from this document."

  /** How many characters of a document go into the summary prompt. */
  const SummaryLimit := 6000

  /** `text[:6000]`. */
  function Truncate(text: string): (t: string)
    ensures t <= text
    ensures |t| == if |text| <= SummaryLimit then |text| else SummaryLimit
  {
    if |text| <= SummaryLimit then text else text[..SummaryLimit]
  }

  /** The fixed texts of the summary prompt around the file name and the text. */
  const SummaryIntro: string := "\nYou are summarizing an internal company document.\n\nFile name: "

  const SummaryInstructions: string :=
    "\n\n1. Give a 5\U{2013}7 line summary.\n2. List 5 key bullet points.\n"
    + "3. Suggest which roles should read this document (e.g., HR, Support, Managers, Engineers).\n\n"
    + "Document text:\n"

  /** The pieces of the summary prompt around the file name and the truncated text. */
  function SummaryPromptPieces(filename: string, truncated: string): seq<string>
  {
    [SummaryIntro, filename, SummaryInstructions, truncated, "\n"]
  }

  function SummaryPrompt(filename: string, truncated: string): string
  {
    Join("", SummaryPromptPieces(filename, truncated))
  }

  /** The prompt `summarize_document` sends, or None when the text is blank and nothing is sent. */
  function SummaryRequest(text: string, filename: string): (r: Option<string>)
    ensures r.None? <==> Strip(text) == ""
    ensures r.Some? ==> r.value == SummaryPrompt(filename, Truncate(text))
  {
    if Strip(text) == "" then None else Some(SummaryPrompt(filename, Truncate(text)))
  }

  /** `summarize_document`, with the hosted model as `complete`. */
  function SummarizeDocument(text: string, filename: string, complete: string -> string): string
  {
    match SummaryRequest(text, filename)
    case None => NoReadableText
    case Some(prompt) => Strip(complete(prompt))
  }

  /** A document of whitespace only is answered with the fixed message, whatever the model would say. */
  lemma BlankDocument(text: string, filename: string, complete: string -> string)
    requires forall k :: 0 <= k < |text| ==> IsSpace(text[k])
    ensures SummaryRequest(text, filename).None?
    ensures SummarizeDocument(text, filename, complete) == NoReadableText
  {
    StripEmptyIff(text);
  }

  /**
   * A document with readable text is summarized by the model's stripped reply
   * to a prompt that names the file and holds the first 6000 characters.
   */
  lemma ReadableDocument(text: string, filename: string, complete: string -> string)
    requires exists k :: 0 <= k < |text| && !IsSpace(text[k])
    ensures SummaryRequest(text, filename).Some?
    ensures var prompt := SummaryRequest(text, filename).value;
            Occurs(filename, prompt) && Occurs(Truncate(text), prompt)
            && SummarizeDocument(text, filename, complete) == Strip(complete(prompt))
  {
    StripEmptyIff(text);
    OccursInJoin("", SummaryPromptPieces(filename, Truncate(text)), 1);
    OccursInJoin("", SummaryPromptPieces(filename, Truncate(text)), 3);
  }

  /** A document within the limit is sent whole. */
  lemma ShortDocumentSentWhole(text: string)
    requires |text| <= SummaryLimit
    ensures Truncate(text) == text
  {
  }
}
