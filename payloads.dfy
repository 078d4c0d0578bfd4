/**
  The payload record that both payload builders emit (a Python dict with a
  fixed set of keys), and the view of the file system they read from.
*/
module Payloads {
  import opened PyText

  datatype Option<+T> = None | Some(value: T)

  /** The `"type"` key of a payload. */
  datatype UnitKind = FileUnit | FunctionUnit | ClassUnit | AsyncFunctionUnit | ArrowFunctionComponent
  {
    function Label(): (r: string)
    {
      match this
      case FileUnit => "file"
      case FunctionUnit => "function"
      case ClassUnit => "class"
      case AsyncFunctionUnit => "async_function"
      case ArrowFunctionComponent => "arrow_function_component"
    }
  }

  /** A payload. `Unit` carries the keys `file_path`, `type`, `name`,
      `lines_of_code`, `raw_code`, `language` and, when present, `ast_dump`
      and `parsing_error`; `ReadError` is the two-key record
      `{file_path, error}` produced for a file that could not be read. */
  datatype Record =
    | Unit(filePath: string, kind: UnitKind, name: string, linesOfCode: int,
           rawCode: string, astDump: Option<string>, language: string,
           parsingError: Option<string>)
    | ReadError(filePath: string, error: string)

  /** What `Path.read_text` gives: the decoded text, or the exception raised
      (its class name and its message). */
  datatype ReadOutcome = Content(text: string) | ReadFailure(exceptionType: string, message: string)

  /** One input path with what the file system says about it:
      whether `Path.is_file()` holds and what reading it gives. */
  datatype SourceFile = SourceFile(path: string, isFile: bool, read: ReadOutcome)

  /** `file_path.suffix.lower()`. */
  function Language(path: string): (r: string)
  {
    Lower(Suffix(BaseName(path)))
  }

  /** A record of kind "file" covering the whole text of a file. */
  function WholeFileUnit(path: string, code: string, astDump: Option<string>,
                         language: string, parsingError: Option<string>): (r: Record)
  {
    Unit(path, FileUnit, BaseName(path), |Lines(code)|, code, astDump, language, parsingError)
  }

  /** A whole-file record holds the full text and counts its lines. */
  predicate IsWholeFileOf(r: Record, path: string, code: string)
  {
    && r.Unit?
    && r.filePath == path
    && r.kind == FileUnit
    && r.name == BaseName(path)
    && r.rawCode == code
    && r.linesOfCode == |Lines(code)|
  }
}
