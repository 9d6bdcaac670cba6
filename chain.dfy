/** The self-contained logic of `src/chain.py`: formatting the retrieved documents into a
    numbered, source-labelled context block (`format_docs`), and filling the fixed grounding
    template with that block and the farmer's question. Retrieval and the language-model call
    are outside this model: the retrieved documents are a parameter and the prompt is the result. */
module Chain {
  import opened Wrappers
  import opened Text
  import Paths
  import opened Documents

  /** Default printed for a missing `page` or `source` metadata key. */
  const Unknown := "Unknown"

  /** What `format_docs` puts between two entries. */
  const Separator := "\n\n---\n\n"

  /** Opening of every entry header, before the entry's number. */
  const SourceTag := "[Source "

  // ---------------------------------------------------------------------------
  // format_docs
  // ---------------------------------------------------------------------------

  /** The page shown in an entry header: the stored value, or "Unknown" when there is none. */
  function PageLabel(d: Document): string {
    d.page.GetOr(Unknown)
  }

  /** The file name shown in an entry header: "Unknown" when the source is missing or is
      literally "Unknown", otherwise the basename of the source path. */
  function FileLabel(d: Document): string {
    var source := d.source.GetOr(Unknown);
    if source != Unknown then Paths.Basename(source) else Unknown
  }

  /** Entry number `i`: the header "[Source i - file, Page p]", a newline, and the document
      text verbatim. */
  function Entry(i: nat, d: Document): string {
    SourceTag + Decimal(i) + " - " + FileLabel(d) + ", Page " + PageLabel(d) + "]\n" + d.pageContent
  }

  /** One entry per document, in order, numbered from 1. */
  function Entries(docs: seq<Document>): seq<string> {
    seq(|docs|, k requires 0 <= k < |docs| => Entry(k + 1, docs[k]))
  }

  /** The context block: the entries joined by the separator. */
  function FormattedContext(docs: seq<Document>): string {
    Join(Separator, Entries(docs))
  }

  /** `format_docs(docs)`: builds the list of entries one document at a time, then joins it. */
  method FormatDocs(docs: seq<Document>) returns (r: string)
    ensures r == FormattedContext(docs)
    ensures r == "" <==> docs == []
  {
    var formatted: seq<string> := [];
    for i := 0 to |docs|
      invariant |formatted| == i
      invariant forall k :: 0 <= k < i ==> formatted[k] == Entry(k + 1, docs[k])
    {
      formatted := formatted + [Entry(i + 1, docs[i])];
    }
    assert formatted == Entries(docs);
    r := Join(Separator, formatted);
    FormattedContextEmpty(docs);
  }

  /** Offset at which entry `k` (0-based) starts in the context block. */
  function EntryOffset(docs: seq<Document>, k: nat): nat
    requires k <= |docs|
  {
    PartOffset(Separator, Entries(docs), k)
  }

  /** No documents give the empty string, and any document gives a non-empty block. */
  lemma FormattedContextEmpty(docs: seq<Document>)
    ensures FormattedContext(docs) == "" <==> docs == []
  {
    if docs != [] {
      JoinPartAt(Separator, Entries(docs), 0);
      assert Entries(docs)[0][0] == '[';
    }
  }

  /** Each document's entry appears verbatim at its offset, numbered by its position from 1,
      and the next entry starts one separator after it ends: one entry per document, in input order. */
  lemma EntryPlacement(docs: seq<Document>, k: nat)
    requires k < |docs|
    ensures Occurs(Entry(k + 1, docs[k]), FormattedContext(docs), EntryOffset(docs, k))
    ensures k + 1 < |docs| ==>
      EntryOffset(docs, k + 1) == EntryOffset(docs, k) + |Entry(k + 1, docs[k])| + |Separator|
  {
    JoinPartAt(Separator, Entries(docs), k);
  }

  /** For n >= 1 documents the block is the n entries and n - 1 separators, nothing else. */
  lemma FormattedContextLength(docs: seq<Document>)
    requires docs != []
    ensures |FormattedContext(docs)| == TotalLength(Entries(docs)) + (|docs| - 1) * |Separator|
  {
    JoinLength(Separator, Entries(docs));
  }

  /** Adding a document to a non-empty list adds one separator and its entry, numbered next. */
  lemma FormattedContextAppend(docs: seq<Document>, d: Document)
    requires docs != []
    ensures FormattedContext(docs + [d]) == FormattedContext(docs) + Separator + Entry(|docs| + 1, d)
  {
    assert Entries(docs + [d]) == Entries(docs) + [Entry(|docs| + 1, d)];
    JoinAppend(Separator, Entries(docs), [Entry(|docs| + 1, d)]);
  }

  /** A single document gives its entry alone, numbered 1. */
  lemma FormattedContextSingle(d: Document)
    ensures FormattedContext([d]) == Entry(1, d)
  {
    assert Entries([d]) == [Entry(1, d)];
  }

  /** Entry `i` begins with "[Source ", then `i` in decimal, then " - ". */
  lemma EntryPrefix(i: nat, d: Document)
    ensures Occurs(SourceTag + Decimal(i) + " - ", Entry(i, d), 0)
  {
    var prefix := SourceTag + Decimal(i) + " - ";
    var rest := FileLabel(d) + ", Page " + PageLabel(d) + "]\n" + d.pageContent;
    assert Entry(i, d) == prefix + rest;
  }

  /** The entry number can be read back from the digits that follow "[Source ". */
  lemma EntryNumber(i: nat, d: Document)
    ensures |SourceTag| <= |Entry(i, d)|
    ensures ParseDecimal(LeadingDigits(Entry(i, d)[|SourceTag|..])) == i
  {
    var rest := " - " + FileLabel(d) + ", Page " + PageLabel(d) + "]\n" + d.pageContent;
    assert Entry(i, d) == SourceTag + (Decimal(i) + rest);
    assert Entry(i, d)[|SourceTag|..] == Decimal(i) + rest;
    LeadingDigitsOfDecimal(Decimal(i), rest);
    ParseDecimalOfDecimal(i);
  }

  /** Entry `i` ends with the page label, the header's closing bracket, one newline and the
      page text verbatim; the page label is "Unknown" when the page is missing and the stored
      value otherwise. */
  lemma EntryTail(i: nat, d: Document)
    ensures d.page.None? ==> EndsWith(Entry(i, d), ", Page " + Unknown + "]\n" + d.pageContent)
    ensures d.page.Some? ==> EndsWith(Entry(i, d), ", Page " + d.page.value + "]\n" + d.pageContent)
  {
    var front := SourceTag + Decimal(i) + " - " + FileLabel(d);
    EndsWithLastFour(front, ", Page ", PageLabel(d), "]\n", d.pageContent);
  }

  /** The file label is the basename of the source, with a missing source read as "Unknown":
      the explicit "Unknown" test changes nothing, because "Unknown" is its own basename. */
  lemma FileLabelIsBasename(d: Document)
    ensures FileLabel(d) == Paths.Basename(d.source.GetOr(Unknown))
    ensures d.source.None? ==> FileLabel(d) == Unknown
  {
    Paths.BasenameUnique(Unknown, Unknown);
  }

  /** A page whose source is `join(directory, name)` for a directory entry `name` is labelled `name`. */
  lemma FileLabelOfJoinedPath(d: Document, directory: string, name: string)
    requires d.source == Some(Paths.JoinPath(directory, name))
    requires Paths.Sep !in name
    ensures FileLabel(d) == name
  {
    FileLabelIsBasename(d);
    Paths.JoinPathBasename(directory, name);
  }

  // ---------------------------------------------------------------------------
  // The grounding prompt
  // ---------------------------------------------------------------------------

  /** A template as `str.format` sees it: literal text and `{name}` replacement fields. */
  datatype Segment = Lit(text: string) | Field(name: string)

  /** Every replacement field of `template` has a value. */
  predicate FieldsBound(template: seq<Segment>, values: map<string, string>) {
    forall k :: 0 <= k < |template| && template[k].Field? ==> template[k].name in values
  }

  /** Fill the replacement fields of `template` from `values`; a field without a value is a
      `KeyError` naming the first such field. */
  function Render(template: seq<Segment>, values: map<string, string>): (r: Result<string, string>)
    ensures r.Success? <==> FieldsBound(template, values)
    ensures r.Failure? ==>
      (r.error !in values && exists k :: 0 <= k < |template| && template[k] == Field(r.error))
  {
    if template == [] then Success("")
    else
      var head := SegmentValue(template[0], values);
      var tail := Render(template[1..], values);
      if head.Failure? then head
      else if tail.Failure? then tail
      else Success(head.value + tail.value)
  }

  /** The text one segment stands for, or the name of a field without a value. */
  function SegmentValue(s: Segment, values: map<string, string>): Result<string, string> {
    match s
    case Lit(text) => Success(text)
    case Field(name) => if name in values then Success(values[name]) else Failure(name)
  }

  const Intro := "You are an expert agricultural advisor for Kenyan farmers. Your role is to provide \naccurate, practical advice based on the agricultural documents provided.\n"
  const InstructionsHeading := "IMPORTANT INSTRUCTIONS:\n"
  /** The five fixed instruction lines, each with its line break. */
  const InstructionLines: seq<string> := [
    "1. Base your answer ONLY on the provided context below\n",
    "2. If the context doesn't contain enough information to answer, say so clearly\n",
    "3. Always mention which source(s) your information comes from\n",
    "4. Give practical, actionable advice when possible\n",
    "5. Use simple language that farmers can understand\n"
  ]
  const ContextHeading := "CONTEXT FROM AGRICULTURAL DOCUMENTS:\n"

  const BeforeInstructions := Intro + "\n" + InstructionsHeading
  const AfterInstructions := "\n" + ContextHeading
  /** Template text up to the `{context}` field. */
  const Preamble := BeforeInstructions + Join("", InstructionLines) + AfterInstructions
  /** Template text between `{context}` and `{question}`. */
  const Middle := "\n\n---\n\nFARMER'S QUESTION: "
  /** Template text after `{question}`. */
  const Trailer := "\n\nHELPFUL ANSWER:"

  /** The grounding template of `create_rag_chain`. */
  const GroundingTemplate: seq<Segment> :=
    [Lit(Preamble), Field("context"), Lit(Middle), Field("question"), Lit(Trailer)]

  /** The prompt sent to the model: the template with `{context}` and `{question}` filled in.
      The context comes right after the fixed instructions and before the question. */
  function BuildPrompt(context: string, question: string): (prompt: string)
    ensures prompt == Preamble + context + Middle + question + Trailer
  {
    RenderGrounding(context, question);
    Render(GroundingTemplate, PromptValues(context, question)).value
  }

  /** The values the chain supplies for the template's two fields. */
  function PromptValues(context: string, question: string): map<string, string> {
    map["context" := context, "question" := question]
  }

  /** Rendering the grounding template with both fields supplied succeeds, segment by segment. */
  lemma RenderGrounding(context: string, question: string)
    ensures Render(GroundingTemplate, PromptValues(context, question)).Success?
    ensures Render(GroundingTemplate, PromptValues(context, question)).value
      == Preamble + context + Middle + question + Trailer
  {
    var values := PromptValues(context, question);
    assert Render([], values).value == "";
    RenderCons(Lit(Trailer), [], values);
    RenderCons(Field("question"), [Lit(Trailer)], values);
    RenderCons(Lit(Middle), [Field("question"), Lit(Trailer)], values);
    RenderCons(Field("context"), [Lit(Middle), Field("question"), Lit(Trailer)], values);
    RenderCons(Lit(Preamble), [Field("context"), Lit(Middle), Field("question"), Lit(Trailer)], values);
    Regroup(Preamble, context, Middle, question, Trailer);
  }

  /** Rendering a segment followed by more template is the segment's text followed by the rest's. */
  lemma RenderCons(s: Segment, rest: seq<Segment>, values: map<string, string>)
    requires SegmentValue(s, values).Success? && Render(rest, values).Success?
    ensures Render([s] + rest, values).Success?
    ensures Render([s] + rest, values).value == SegmentValue(s, values).value + Render(rest, values).value
  {
    assert ([s] + rest)[0] == s;
    assert ([s] + rest)[1..] == rest;
  }

  /** The chain's input mapping and prompt step: the retrieved documents go through
      `format_docs` into `{context}`, and the question passes through unchanged into `{question}`. */
  method AssemblePrompt(retrieved: seq<Document>, question: string) returns (prompt: string)
    ensures prompt == BuildPrompt(FormattedContext(retrieved), question)
    ensures Occurs(FormattedContext(retrieved), prompt, |Preamble|)
    ensures Occurs(question, prompt, |Preamble| + |FormattedContext(retrieved)| + |Middle|)
  {
    var context := FormatDocs(retrieved);
    prompt := BuildPrompt(context, question);
    PromptLayout(context, question);
  }

  /** The prompt opens with the fixed preamble and closes with the trailer; the context sits
      right after the preamble and the question after the context and the middle text. */
  lemma PromptLayout(context: string, question: string)
    ensures Occurs(Preamble, BuildPrompt(context, question), 0)
    ensures Occurs(context, BuildPrompt(context, question), |Preamble|)
    ensures Occurs(question, BuildPrompt(context, question), |Preamble| + |context| + |Middle|)
    ensures EndsWith(BuildPrompt(context, question), Trailer)
  {
    OccursPrefix(Preamble, context);
    OccursExtend(Preamble, Preamble + context, 0, Middle);
    OccursExtend(Preamble, Preamble + context + Middle, 0, question);
    OccursExtend(Preamble, Preamble + context + Middle + question, 0, Trailer);
    OccursAfter(Preamble, context);
    OccursExtend(context, Preamble + context, |Preamble|, Middle);
    OccursExtend(context, Preamble + context + Middle, |Preamble|, question);
    OccursExtend(context, Preamble + context + Middle + question, |Preamble|, Trailer);
    var before := Preamble + context + Middle;
    OccursAfter(before, question);
    OccursExtend(question, before + question, |before|, Trailer);
    assert |before| == |Preamble| + |context| + |Middle|;
    EndsWithConcat(Preamble + context + Middle + question, Trailer);
  }

  /** Offset of instruction line `k` in every prompt. */
  function InstructionOffset(k: nat): nat
    requires k < |InstructionLines|
  {
    |BeforeInstructions| + PartOffset("", InstructionLines, k)
  }

  /** The five instruction lines appear, each with its line break, at the same place in every
      prompt, whatever the documents and the question. */
  lemma InstructionsAlwaysPresent(context: string, question: string, k: nat)
    requires k < |InstructionLines|
    ensures Occurs(InstructionLines[k], BuildPrompt(context, question), InstructionOffset(k))
  {
    var line, at := InstructionLines[k], InstructionOffset(k);
    JoinPartAt("", InstructionLines, k);
    OccursShift(line, Join("", InstructionLines), PartOffset("", InstructionLines, k), BeforeInstructions, AfterInstructions);
    OccursExtend(line, Preamble, at, context);
    OccursExtend(line, Preamble + context, at, Middle);
    OccursExtend(line, Preamble + context + Middle, at, question);
    OccursExtend(line, Preamble + context + Middle + question, at, Trailer);
  }
}
