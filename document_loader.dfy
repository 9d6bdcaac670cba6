/** `load_pdfs` of `src/document_loader.py`: read every `.pdf` entry of a directory into page
    documents, skipping files that fail to load. The filesystem and the PDF parser are inputs:
    whether the directory exists, its listing in the order the system returns it, and an oracle
    that gives, for a file path, either the pages the parser extracts or a failure. */
module DocumentLoader {
  import opened Text
  import Paths
  import opened Documents

  /** Extension a directory entry must end with (case-sensitive) to be loaded. */
  const PdfSuffix := ".pdf"

  /** Defaults of `split_documents`, which hands them to the text splitter (not modelled). */
  const DefaultChunkSize := 1000
  const DefaultChunkOverlap := 200

  /** What loading one file gives: its pages in the parser's order, or the exception it raised. */
  datatype LoadOutcome = Loaded(pages: seq<Document>) | Failed(reason: string)

  /** Parsing the file at a path, as the PDF parser would. */
  type PdfParser = string -> LoadOutcome

  /** The listing entries whose names end with ".pdf", in listing order. */
  function PdfFiles(listing: seq<string>): (r: seq<string>)
    ensures forall f :: f in r <==> f in listing && EndsWith(f, PdfSuffix)
    ensures |r| <= |listing|
  {
    if listing == [] then []
    else if EndsWith(listing[0], PdfSuffix) then [listing[0]] + PdfFiles(listing[1..])
    else PdfFiles(listing[1..])
  }

  /** The pages one directory entry contributes: those of the file at `join(directory, name)`,
      or none when loading it fails. */
  function PagesOf(directory: string, name: string, parse: PdfParser): seq<Document> {
    match parse(Paths.JoinPath(directory, name))
    case Loaded(pages) => pages
    case Failed(_) => []
  }

  /** The pages of `files`, file after file, each file's pages in the parser's order. */
  function Gathered(directory: string, files: seq<string>, parse: PdfParser): seq<Document> {
    if files == [] then [] else PagesOf(directory, files[0], parse) + Gathered(directory, files[1..], parse)
  }

  /** What `load_pdfs` returns: nothing for a missing directory, otherwise the pages of its
      PDF entries in listing order. */
  function LoadedPages(directory: string, dirExists: bool, listing: seq<string>, parse: PdfParser): seq<Document> {
    if !dirExists then [] else Gathered(directory, PdfFiles(listing), parse)
  }

  /** `load_pdfs(directory)`: checks the directory, filters the listing, then loads each PDF in
      turn, appending its pages and carrying on past a file that fails. */
  method LoadPdfs(directory: string, dirExists: bool, listing: seq<string>, parse: PdfParser)
    returns (documents: seq<Document>)
    ensures documents == LoadedPages(directory, dirExists, listing, parse)
    ensures !dirExists ==> documents == []
  {
    documents := [];
    if !dirExists {
      return;
    }
    var pdfFiles := PdfFiles(listing);
    if |pdfFiles| == 0 {
      return;
    }
    for k := 0 to |pdfFiles|
      invariant documents == Gathered(directory, pdfFiles[..k], parse)
    {
      var pdfPath := Paths.JoinPath(directory, pdfFiles[k]);
      var outcome := parse(pdfPath);
      match outcome {
        case Loaded(docs) =>
          documents := documents + docs;
        case Failed(_) =>
      }
      assert pdfFiles[..k + 1] == pdfFiles[..k] + [pdfFiles[k]];
      GatheredAppend(directory, pdfFiles[..k], [pdfFiles[k]], parse);
    }
    assert pdfFiles[..|pdfFiles|] == pdfFiles;
  }

  // ---------------------------------------------------------------------------
  // Properties of the filter
  // ---------------------------------------------------------------------------

  /** Filtering two listings one after the other is filtering their concatenation:
      the filter keeps the listing order. */
  lemma {:induction false} PdfFilesAppend(a: seq<string>, b: seq<string>)
    ensures PdfFiles(a + b) == PdfFiles(a) + PdfFiles(b)
    decreases |a|
  {
    if a == [] {
      assert a + b == b;
    } else {
      assert (a + b)[0] == a[0];
      assert (a + b)[1..] == a[1..] + b;
      PdfFilesAppend(a[1..], b);
    }
  }

  /** The suffix test is case-sensitive: an upper-case ".PDF" entry is not loaded. */
  lemma UpperCaseExtensionIgnored(stem: string)
    ensures PdfFiles([stem + ".PDF"]) == []
  {
    var name := stem + ".PDF";
    assert name[|name| - 1] == 'F';
  }

  // ---------------------------------------------------------------------------
  // Properties of the accumulation
  // ---------------------------------------------------------------------------

  /** Loading two runs of files one after the other gives their pages one after the other. */
  lemma {:induction false} GatheredAppend(directory: string, a: seq<string>, b: seq<string>, parse: PdfParser)
    ensures Gathered(directory, a + b, parse) == Gathered(directory, a, parse) + Gathered(directory, b, parse)
    decreases |a|
  {
    if a == [] {
      assert a + b == b;
    } else {
      assert (a + b)[0] == a[0];
      assert (a + b)[1..] == a[1..] + b;
      GatheredAppend(directory, a[1..], b, parse);
    }
  }

  /** A file that fails contributes nothing, and the files after it are still loaded. */
  lemma FailedFileSkipped(directory: string, before: seq<string>, name: string, after: seq<string>, parse: PdfParser)
    requires parse(Paths.JoinPath(directory, name)).Failed?
    ensures Gathered(directory, before + [name] + after, parse)
      == Gathered(directory, before, parse) + Gathered(directory, after, parse)
  {
    GatheredAppend(directory, before + [name], after, parse);
    GatheredAppend(directory, before, [name], parse);
  }

  /** A file that loads contributes all its pages, in the parser's order, between the pages of
      the files before it and those of the files after it. */
  lemma LoadedFileInPlace(directory: string, before: seq<string>, name: string, after: seq<string>, parse: PdfParser)
    requires parse(Paths.JoinPath(directory, name)).Loaded?
    ensures Gathered(directory, before + [name] + after, parse)
      == Gathered(directory, before, parse) + parse(Paths.JoinPath(directory, name)).pages
         + Gathered(directory, after, parse)
  {
    GatheredAppend(directory, before + [name], after, parse);
    GatheredAppend(directory, before, [name], parse);
  }

  /** Total page count of the files that load; a failing file counts zero. */
  function PageCount(directory: string, files: seq<string>, parse: PdfParser): nat {
    if files == [] then 0
    else
      var here := match parse(Paths.JoinPath(directory, files[0]))
        case Loaded(pages) => |pages|
        case Failed(_) => 0;
      here + PageCount(directory, files[1..], parse)
  }

  /** The number of pages loaded is the sum of the page counts of the files that load. */
  lemma {:induction false} GatheredLength(directory: string, files: seq<string>, parse: PdfParser)
    ensures |Gathered(directory, files, parse)| == PageCount(directory, files, parse)
    decreases |files|
  {
    if files != [] {
      GatheredLength(directory, files[1..], parse);
    }
  }

  /** A page is in the result exactly when some file in the run loaded and has it among its pages. */
  lemma {:induction false} GatheredMembership(directory: string, files: seq<string>, parse: PdfParser, d: Document)
    ensures d in Gathered(directory, files, parse) <==>
      exists k :: 0 <= k < |files| && parse(Paths.JoinPath(directory, files[k])).Loaded? &&
        d in parse(Paths.JoinPath(directory, files[k])).pages
    decreases |files|
  {
    if files != [] {
      GatheredMembership(directory, files[1..], parse, d);
      var rest := files[1..];
      if d in Gathered(directory, rest, parse) {
        var k :| 0 <= k < |rest| && parse(Paths.JoinPath(directory, rest[k])).Loaded? &&
          d in parse(Paths.JoinPath(directory, rest[k])).pages;
        assert files[k + 1] == rest[k];
      }
      if exists k :: 0 <= k < |files| && parse(Paths.JoinPath(directory, files[k])).Loaded? &&
          d in parse(Paths.JoinPath(directory, files[k])).pages
      {
        var k :| 0 <= k < |files| && parse(Paths.JoinPath(directory, files[k])).Loaded? &&
          d in parse(Paths.JoinPath(directory, files[k])).pages;
        if k > 0 {
          assert rest[k - 1] == files[k];
        }
      }
    }
  }

  /** Each file is read only through the path `join(directory, name)`: two parsers that agree on
      those paths give the same result. */
  lemma {:induction false} GatheredReadsOnlyJoinedPaths(directory: string, files: seq<string>, parse: PdfParser, other: PdfParser)
    requires forall k :: 0 <= k < |files| ==>
      parse(Paths.JoinPath(directory, files[k])) == other(Paths.JoinPath(directory, files[k]))
    ensures Gathered(directory, files, parse) == Gathered(directory, files, other)
    decreases |files|
  {
    if files != [] {
      assert forall k :: 0 <= k < |files[1..]| ==> files[1..][k] == files[k + 1];
      GatheredReadsOnlyJoinedPaths(directory, files[1..], parse, other);
    }
  }

  // ---------------------------------------------------------------------------
  // The whole of load_pdfs
  // ---------------------------------------------------------------------------

  /** With no ".pdf" entry in the listing, the filtered list is empty, so no file is loaded
      and the result is empty. */
  lemma {:induction false} NoPdfNothingLoaded(directory: string, dirExists: bool, listing: seq<string>, parse: PdfParser)
    requires forall k :: 0 <= k < |listing| ==> !EndsWith(listing[k], PdfSuffix)
    ensures PdfFiles(listing) == []
    ensures LoadedPages(directory, dirExists, listing, parse) == []
    decreases |listing|
  {
    if listing != [] {
      assert !EndsWith(listing[0], PdfSuffix);
      assert forall k :: 0 <= k < |listing[1..]| ==> listing[1..][k] == listing[k + 1];
      NoPdfNothingLoaded(directory, dirExists, listing[1..], parse);
    }
  }

  /** A directory holding one PDF that loads gives exactly that file's pages, in order. */
  lemma SinglePdf(directory: string, name: string, others: seq<string>, parse: PdfParser)
    requires EndsWith(name, PdfSuffix)
    requires forall k :: 0 <= k < |others| ==> !EndsWith(others[k], PdfSuffix)
    requires parse(Paths.JoinPath(directory, name)).Loaded?
    ensures LoadedPages(directory, true, [name] + others, parse) == parse(Paths.JoinPath(directory, name)).pages
  {
    PdfFilesAppend([name], others);
    NoPdfNothingLoaded(directory, true, others, parse);
    assert [name][1..] == [];
    assert PdfFiles([name]) == [name];
    assert Gathered(directory, [name], parse) == parse(Paths.JoinPath(directory, name)).pages + [];
  }
}
