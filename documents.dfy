/** The parsed-document shape shared by the two parsers, the chunker and
    ingestion: a list of sections, each with its position, detected type,
    number, title, heading level, page range and accumulated text. */
module Documents {
  import opened Wrappers

  /** One detected section. `index` is the section's position among the
      document's sections (optional because consumers read it with a
      default); `endPage` is set only by the PDF parser. */
  datatype Section = Section(
    index: Option<int>,
    sectionType: string,
    sectionNumber: Option<string>,
    title: string,
    level: int,
    startPage: Option<int>,
    endPage: Option<int>,
    rawText: string)
}
