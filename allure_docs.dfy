/**
 Allure result documents as the two parsers see them once Jackson has read
 them. Reading a directory and parsing JSON are I/O; each parser is given
 the directory listing, in listing order, with each file's parsed document
 or `None` when `readTree` threw.
 */
module AllureDocs {
  import opened Common

  /** One entry of a document's `labels` array, as `path("name").asText()` and `path("value").asText()` give it. */
  datatype Label = Label(name: string, value: string)

  /** A parsed result document: the text of its `status` field and its labels. */
  datatype Document = Document(status: string, labels: seq<Label>)

  /** A directory entry: the name the filter is applied to, and its parse. */
  datatype ResultFile = ResultFile(name: string, parsed: Option<Document>)

  /** `TestCaseResult(id, status)`, the record `AllureParser` produces. */
  datatype TestCaseResult = TestCaseResult(id: string, status: string)
}
