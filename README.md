# Crop advisory bot: context formatting, prompt assembly and PDF ingestion

The crop advisory bot answers farmers' questions from a fixed set of agricultural PDF
documents. It loads the PDFs into page documents, splits and embeds them into a vector
index, and at question time retrieves the nearest chunks and asks a language model to
answer from them. Most of that pipeline is library calls. This project models the two
pieces of self-contained logic and proves what they promise:

- **Context block and grounding prompt** (`src/chain.py`). `format_docs` turns the retrieved
  documents into numbered, source-labelled entries joined by a visible separator. The block
  and the farmer's question then fill the fixed grounding template. Modules `Chain`, `Text`
  (the `str` operations involved) and `Paths` (POSIX `os.path.basename` and `os.path.join`).
- **PDF directory ingestion** (`load_pdfs` in `src/document_loader.py`). The filesystem and the
  PDF parser are inputs: a flag saying whether the directory exists, the directory listing in
  the order the system returns it, and a parser that gives, for a path, either the file's
  pages or a failure. Module `DocumentLoader`.

`Documents` holds the document record shared by both: the page text, an optional `source`
and an optional `page`, the page kept as the text it prints as. `Wrappers` holds `Option`
and `Result`.

`format_docs` and `load_pdfs` build their results step by step in loops. They are methods
(`Chain.FormatDocs`, `DocumentLoader.LoadPdfs`) whose loops are proved against specification
functions (`Chain.FormattedContext`, `DocumentLoader.LoadedPages`). The properties the source
promises are lemmas about those functions. Filling the template is pure substitution and is
modelled by functions (`Chain.Render`, `Chain.BuildPrompt`). The chain step that formats the
retrieved documents and fills the template is the method `Chain.AssemblePrompt`, because it
calls `Chain.FormatDocs`.

What the code does, and the model follows:

- `format_docs` prints the stored `page` value unchanged and adds nothing to it, so the model
  treats it as opaque text.
- `src/embeddings.py:34-37` embeds all chunks in one `FAISS.from_documents` call, with no
  batching and no retry.
- The parser receives `os.path.join(directory, name)`, which is absolute only when the
  directory is. The model uses that join.

## Model

| member | source | states |
|---|---|---|
| `Chain.PageLabel` | src/chain.py:28 | Definition (no contract of its own): the stored page value, or "Unknown" when the key is missing; its effect on the entry is stated by `Chain.EntryTail` |
| `Chain.FileLabel` | src/chain.py:29-30 | Definition (no contract of its own): "Unknown" when the source is missing or is "Unknown", otherwise the basename of the source; characterised by `Chain.FileLabelIsBasename` |
| `Chain.Entry` | src/chain.py:31 | Definition (no contract of its own): the f-string "[Source i - file, Page p]\n" followed by the page content; its shape is stated by `Chain.EntryPrefix`, `Chain.EntryNumber` and `Chain.EntryTail` |
| `Chain.FormattedContext` | src/chain.py:32 | Definition (no contract of its own): the entries numbered from 1 joined by "\n\n---\n\n"; specifies `Chain.FormatDocs` and is characterised by the `FormattedContext*` and `EntryPlacement` lemmas |
| `Text.Join` | src/chain.py:32 | Definition (no contract of its own): `sep.join(parts)`; characterised by `Text.JoinAppend`, `Text.JoinLength` and `Text.JoinPartAt` |
| `Text.EndsWith` | src/document_loader.py:18 | Definition (no contract of its own): `s.endswith(suffix)`, case-sensitive; used by `DocumentLoader.PdfFiles` and `DocumentLoader.UpperCaseExtensionIgnored` |
| `Paths.JoinPath` | src/document_loader.py:28 | Definition (no contract of its own): `os.path.join(a, b)` under POSIX rules (an absolute `b` wins; no '/' added after an empty `a` or one ending in '/'); stated by `Paths.JoinPathBasename` |
| `DocumentLoader.PagesOf` | src/document_loader.py:28-37 | Definition (no contract of its own): the pages the parser gives for join(directory, name), or none when it fails |
| `DocumentLoader.Gathered` | src/document_loader.py:27-37 | Definition (no contract of its own): the pages of the listed files, file after file; characterised by the `Gathered*`, `FailedFileSkipped` and `LoadedFileInPlace` lemmas |
| `DocumentLoader.LoadedPages` | src/document_loader.py:13-37 | Definition (no contract of its own): nothing when the directory is missing, otherwise `Gathered` over the ".pdf" entries; specifies `DocumentLoader.LoadPdfs` |
| `Chain.FormatDocs` | src/chain.py:24-32 | The loop that appends one entry per document and then joins the list yields exactly the specified context block; the block is empty exactly when there are no documents |
| `Chain.FormattedContextEmpty` | src/chain.py:26-32 | An empty document list gives the empty string, and a non-empty one gives a non-empty block |
| `Chain.EntryPlacement` | src/chain.py:27-32 | Entry k+1 (numbered from 1) appears verbatim at its offset in the block, and the next entry starts exactly one separator after it ends: one entry per document, in input order |
| `Chain.FormattedContextLength` | src/chain.py:31-32 | For n >= 1 documents the block is the n entries plus n-1 copies of the separator, nothing more |
| `Chain.FormattedContextAppend` | src/chain.py:27-32 | Appending a document to a non-empty list appends one separator and that document's entry, numbered one past the previous last |
| `Chain.FormattedContextSingle` | src/chain.py:31-32 | One document gives its entry alone, numbered 1, with no separator |
| `Chain.EntryPrefix` | src/chain.py:27-31 | Entry i begins with "[Source ", the number i in decimal, and " - " |
| `Chain.EntryNumber` | src/chain.py:27-31 | The entry number can be read back from the digits after "[Source ": the header identifies its entry |
| `Chain.EntryTail` | src/chain.py:28-31 | An entry ends with ", Page ", then "Unknown" when the page is missing or the stored page text otherwise, then "]", one newline and the page content verbatim |
| `Chain.FileLabelIsBasename` | src/chain.py:29-30 | The file label is "Unknown" when the source is missing and otherwise the basename of the source; the explicit test against "Unknown" changes nothing, since "Unknown" is its own basename |
| `Chain.FileLabelOfJoinedPath` | src/chain.py:29-30 | A page whose source is join(directory, name) for a directory entry name is labelled with that name |
| `Chain.Render` | src/chain.py:62-73 | Filling a template succeeds exactly when every replacement field has a value; otherwise the error names a field of the template that has no value |
| `Chain.RenderGrounding` | src/chain.py:43-60 | The grounding template with both fields supplied renders to the preamble, the context, the middle text, the question and the trailer |
| `Chain.BuildPrompt` | src/chain.py:43-60 | The prompt is the fixed template text with {context} replaced by the context and {question} by the question, both verbatim |
| `Chain.PromptLayout` | src/chain.py:53-58 | The prompt starts with the fixed preamble and ends with "HELPFUL ANSWER:"; the context sits right after the preamble and the question after the context and the middle text |
| `Chain.InstructionsAlwaysPresent` | src/chain.py:46-51 | Each of the five instruction lines appears, with its line break, at the same fixed offset in every prompt, whatever the documents and the question |
| `Chain.AssemblePrompt` | src/chain.py:68-73 | The chain's prompt step puts format_docs of the retrieved documents into {context} and the question unchanged into {question}; the context occurs before the question |
| `Text.JoinAppend` | src/chain.py:32 | Joining two non-empty lists puts exactly one separator at the seam |
| `Text.JoinLength` | src/chain.py:32 | Joining n >= 1 parts adds n-1 separators to the parts' total length |
| `Text.JoinPartAt` | src/chain.py:32 | Each part appears verbatim in the join at its offset, and the next part starts one separator after it |
| `Text.Decimal` | src/chain.py:31 | The printed entry number is a non-empty string of decimal digits without a leading zero |
| `Text.ParseDecimalOfDecimal` | src/chain.py:31 | Reading back the printed number gives the number |
| `Paths.Basename` | src/chain.py:30 | The basename has no '/', is a suffix of the path, and is either the whole path or preceded by a '/'; it is empty when the path ends with '/' |
| `Paths.BasenameUnique` | src/chain.py:30 | Those three properties determine the basename: any suffix that has them is it |
| `Paths.JoinPathBasename` | src/document_loader.py:28 | The basename of join(directory, name) is name for any directory entry name, which never contains '/' |
| `DocumentLoader.LoadPdfs` | src/document_loader.py:6-40 | The loop returns the specified pages: nothing when the directory is missing, otherwise the pages of the PDF entries that load, in listing order |
| `DocumentLoader.PdfFiles` | src/document_loader.py:18 | A listing entry is kept exactly when its name ends with ".pdf", and no more entries come out than went in |
| `DocumentLoader.PdfFilesAppend` | src/document_loader.py:18 | The filter keeps listing order: filtering a concatenation is concatenating the filtered parts |
| `DocumentLoader.UpperCaseExtensionIgnored` | src/document_loader.py:18 | The suffix test is case-sensitive: an entry ending with ".PDF" is not loaded |
| `DocumentLoader.NoPdfNothingLoaded` | src/document_loader.py:18-22 | With no ".pdf" entry in the listing the filtered list is empty and nothing is loaded |
| `DocumentLoader.GatheredAppend` | src/document_loader.py:27-34 | Loading two runs of files one after the other gives their pages one after the other |
| `DocumentLoader.FailedFileSkipped` | src/document_loader.py:31-37 | A file whose load fails contributes no pages, and the files after it are still loaded |
| `DocumentLoader.LoadedFileInPlace` | src/document_loader.py:31-34 | A file that loads contributes all its pages, in the parser's order, between the pages of earlier and later files |
| `DocumentLoader.GatheredLength` | src/document_loader.py:34-39 | The number of pages loaded is the sum of the page counts of the files that load |
| `DocumentLoader.GatheredMembership` | src/document_loader.py:27-37 | A page is in the result exactly when some listed PDF loaded and has it among its pages |
| `DocumentLoader.GatheredReadsOnlyJoinedPaths` | src/document_loader.py:28-33 | Each file is read only through the path join(directory, name): two parsers that agree on those paths give the same result |
| `DocumentLoader.SinglePdf` | src/document_loader.py:18-34 | A directory whose only PDF loads gives exactly that file's pages, in order |

The grounding template itself is the constants `Chain.GroundingTemplate` and `Chain.Preamble`,
with `Chain.Intro`, `Chain.InstructionsHeading`, `Chain.InstructionLines`,
`Chain.ContextHeading`, `Chain.Middle` and `Chain.Trailer`: together they are the template text
at src/chain.py:43-60, character for character, including the trailing space after "provide".
`Chain.RenderGrounding`, `Chain.BuildPrompt` and `Chain.InstructionsAlwaysPresent` state how
that text ends up in the prompt.

## Left out

- `get_llm`, the retriever with `k=4`, the language-model call, the output parser and `ask`
  (src/chain.py:13-21, 35-40, 74-85) are network and model calls. The retrieved documents are
  a parameter of `Chain.AssemblePrompt`, and the prompt it returns is where the model stops.
- `ChatPromptTemplate` wraps the rendered text in a single chat message. The model keeps only
  the message text. The library's own wording of a missing-variable error is not modelled;
  `Chain.Render` reports the missing field's name. Escaped braces (`{{`) are not modelled
  because the template has none.
- The loaded vector store and `src/embeddings.py` as a whole (embedding client, FAISS build,
  save and load) are foreign calls over floating-point vectors.
- `split_documents` (src/document_loader.py:43-56) is a thin wrapper over a library text
  splitter. Only its defaults, 1000 and 200, are recorded, as `DocumentLoader.DefaultChunkSize`
  and `DocumentLoader.DefaultChunkOverlap`.
- PDF page extraction is the parser input of `DocumentLoader.LoadPdfs`. What metadata the
  parser stores is the parser's business. `Chain.FileLabelOfJoinedPath` therefore takes
  "the page's source is the joined path" as a hypothesis.
- `os.path.exists` is the `dirExists` input and `os.listdir` is the `listing` input, in any
  order. A path that exists but is not a directory makes `os.listdir` raise; the model
  does not cover this, because the listing is given.
- Metadata keys other than `source` and `page` are ignored by `format_docs` and are not
  modelled. The page value is modelled as the text Python prints for it.
- All `print` logging, and the Streamlit interface in app.py.
