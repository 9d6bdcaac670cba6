/** The document record that flows from the PDF loader to the context formatter. */
module Documents {
  import opened Wrappers

  /** A LangChain `Document`: the page text and the two metadata keys the core reads.
      `source` is the file path the loader was given; `page` is kept as the text it prints as,
      since the formatter prints whatever value is stored without interpreting it. */
  datatype Document = Document(pageContent: string, source: Option<string>, page: Option<string>)
}
