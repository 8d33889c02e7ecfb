/** The records of the application: workflow steps, sources, uploaded files, the case document. */
module Types {
  import opened Wrappers

  /** The workflow's steps, in the order the successful path visits them, and the error state. */
  datatype GenerationStep =
    | Idle
    | Researching
    | SelectingObjective
    | ReviewFramework
    | Drafting
    | Completed
    | Error

  datatype SearchSource = SearchSource(title: string, uri: string, snippet: Option<string>)

  /** `data` holds the text of a text file and the Base64 payload of a PDF. */
  datatype UploadedFile = UploadedFile(name: string, mimeType: string, data: string, isText: bool)

  /** The case document; the optional fields of the record are `Option`s. */
  datatype CaseStudyData = CaseStudyData(
    topic: string,
    sources: seq<SearchSource>,
    context: string,
    objectives: seq<string>,
    selectedObjective: Option<string>,
    framework: Option<string>,
    caseContent: Option<string>,
    teachingNotes: Option<string>)

  /** `progress` is a percentage, 0 to 100. */
  datatype GenerationState = GenerationState(step: GenerationStep, progress: int, message: string)

  /** A service call that either returns a value or throws an error with a message. */
  type Reply<T> = Result<T, string>

  /** The message of the error a stop request makes the pipeline throw. */
  const Stopped: string := "STOPPED"

  /** JavaScript truthiness of an optional string: present and not empty. */
  predicate Truthy(s: Option<string>) {
    s.Some? && s.value != ""
  }

  /** `s || ''` */
  function OrEmpty(s: Option<string>): string {
    if s.Some? then s.value else ""
  }
}
