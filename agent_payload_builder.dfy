/**
  `AgentPayloadBuilder`: turns `.py` and `.js` files into function/class-level
  payloads, falling back to one whole-file payload when the file does not
  parse.

  The parsers are not modelled: a Python parse (`ast.parse`) is a `PyParse`,
  either a syntax error with its message or the module's top-level
  statements; a JavaScript parse (`esprima.parseModule` / `parseScript`) is a
  `JsParse`. `astor.dump_tree` output is carried as an opaque string on each
  parsed node.
*/
module AgentPayloadBuilder {
  import opened PyText
  import opened Payloads
  import opened Seqs

  const PyExt := ".py"
  const JsExt := ".js"
  const Anonymous := "<anonymous>"

  // -----------------------------------------------------------------------
  // What the parsers report

  datatype PyStmtKind = ClassDef | FunctionDef | AsyncFunctionDef | OtherPyStmt

  /** A top-level statement of a Python module: its class, `name` (for
      definitions), `lineno`, `end_lineno` (which may be missing) and its
      `astor.dump_tree` text. */
  datatype PyStmt = PyStmt(kind: PyStmtKind, name: string, lineno: int,
                           endLineno: Option<int>, dump: string)

  datatype PyParse = PySyntaxError(message: string) | PyModule(body: seq<PyStmt>, dump: string)

  datatype JsInit = ArrowFunctionExpression | FunctionExpression | OtherExpression

  /** A declarator of a `VariableDeclaration`: the identifier it binds (when
      it has one) and the kind of its initialiser (when it has one). */
  datatype JsDeclarator = JsDeclarator(id: Option<string>, init: Option<JsInit>)

  datatype JsStmtKind =
    | FunctionDeclaration(id: Option<string>)
    | ClassDeclaration(id: Option<string>)
    | VariableDeclaration(declarations: seq<JsDeclarator>)
    | OtherJsStmt

  /** A top-level node of an esprima program with its `loc` line span. */
  datatype JsStmt = JsStmt(kind: JsStmtKind, startLine: int, endLine: int)

  datatype JsParse = JsSyntaxError(message: string) | JsProgram(body: seq<JsStmt>)

  /** The three parsers, as functions of the file text. */
  datatype Parsers = Parsers(python: string -> PyParse, jsModule: string -> JsParse,
                             jsScript: string -> JsParse)

  // -----------------------------------------------------------------------
  // Shared pieces

  /** `_create_file_fallback_payload`. */
  function FileFallback(path: string, code: string, error: string): (r: Record)
  {
    WholeFileUnit(path, code, None, Language(path), Some(error))
  }

  /** `"\n".join(code.splitlines()[start - 1:end])`. */
  function LineSpan(code: string, start: int, end: int): (r: string)
  {
    JoinLines(Slice(Lines(code), start - 1, end))
  }

  /** A declaration's text, taken from lines `start..end` of a file that has
      them, is a verbatim piece of the file and spans `end - start + 1` lines. */
  lemma LineSpanIsVerbatim(code: string, start: int, end: int)
    requires 1 <= start <= end <= |Lines(code)|
    ensures LineSpan(code, start, end) == JoinLines(Lines(code)[start - 1..end])
    ensures |Lines(code)[start - 1..end]| == end - start + 1
    ensures Contains(code, LineSpan(code, start, end))
  {
    SliceOfLineSpan(Lines(code), start, end);
    JoinedLineRangeIsContained(code, start - 1, end);
  }

  // -----------------------------------------------------------------------
  // Python

  predicate IsPyDecl(s: PyStmt)
  {
    s.kind != OtherPyStmt
  }

  function PyUnitKind(k: PyStmtKind): (r: UnitKind)
  {
    match k
    case ClassDef => ClassUnit
    case AsyncFunctionDef => AsyncFunctionUnit
    case _ => FunctionUnit
  }

  /** `getattr(node, 'end_lineno', start_line)`. */
  function PyEndLine(s: PyStmt): (r: int)
  {
    if s.endLineno.Some? then s.endLineno.value else s.lineno
  }

  /** The payload of one top-level definition. */
  function PyDeclRecord(path: string, code: string, s: PyStmt): (r: Record)
  {
    Unit(path, PyUnitKind(s.kind), s.name, PyEndLine(s) - s.lineno + 1,
         LineSpan(code, s.lineno, PyEndLine(s)), Some(s.dump), PyExt, None)
  }

  /** The top-level definitions among `body`, in order. */
  function PyDecls(body: seq<PyStmt>): (r: seq<PyStmt>)
  {
    ConcatMap(body, (s: PyStmt) => if IsPyDecl(s) then [s] else [])
  }

  /** The records one top-level statement contributes. */
  function PyStmtRecords(path: string, code: string, s: PyStmt): (r: seq<Record>)
  {
    if IsPyDecl(s) then [PyDeclRecord(path, code, s)] else []
  }

  /** The records the loop over `tree.body` appends. */
  function PyBodyRecords(path: string, code: string, body: seq<PyStmt>): (r: seq<Record>)
  {
    ConcatMap(body, (s: PyStmt) => PyStmtRecords(path, code, s))
  }

  /** What `_python_payload` returns. */
  function PythonPayloads(path: string, code: string, parse: PyParse): (r: seq<Record>)
  {
    match parse
    case PySyntaxError(msg) => [FileFallback(path, code, "Python parse error: " + msg)]
    case PyModule(body, dump) =>
      var decls := PyBodyRecords(path, code, body);
      if decls == [] && !IsBlank(code) then [WholeFileUnit(path, code, Some(dump), PyExt, None)]
      else decls
  }

  /** `_python_payload`. */
  method PythonPayload(path: string, code: string, parse: PyParse) returns (payloads: seq<Record>)
    ensures payloads == PythonPayloads(path, code, parse)
  {
    if parse.PySyntaxError? {
      return [FileFallback(path, code, "Python parse error: " + parse.message)];
    }
    var body := parse.body;
    payloads := [];
    var i := 0;
    while i < |body|
      invariant 0 <= i <= |body|
      invariant payloads == PyBodyRecords(path, code, body[..i])
    {
      var node := body[i];
      if IsPyDecl(node) {
        var startLine := node.lineno;
        var endLine := if node.endLineno.Some? then node.endLineno.value else startLine;
        var rawCode := JoinLines(Slice(Lines(code), startLine - 1, endLine));
        var nodeType := FunctionUnit;
        if node.kind == ClassDef {
          nodeType := ClassUnit;
        } else if node.kind == AsyncFunctionDef {
          nodeType := AsyncFunctionUnit;
        }
        payloads := payloads + [Unit(path, nodeType, node.name, endLine - startLine + 1,
                                     rawCode, Some(node.dump), PyExt, None)];
      }
      assert body[..i + 1][..i] == body[..i];
      i := i + 1;
    }
    assert body[..i] == body;
    if payloads == [] && !IsBlank(code) {
      payloads := payloads + [WholeFileUnit(path, code, Some(parse.dump), PyExt, None)];
    }
  }

  /** The definitions kept are exactly the top-level class, function and
      async-function statements. */
  lemma PyDeclsAreTheDefinitions(body: seq<PyStmt>)
    ensures forall s | s in PyDecls(body) :: s in body && IsPyDecl(s)
    ensures forall s | s in body && IsPyDecl(s) :: s in PyDecls(body)
    ensures PyDecls(body) == [] <==> forall s | s in body :: !IsPyDecl(s)
  {
    var f := (s: PyStmt) => if IsPyDecl(s) then [s] else [];
    ConcatMapOrigin(body, f);
    ConcatMapComplete(body, f);
    if PyDecls(body) != [] {
      assert PyDecls(body)[0] in PyDecls(body);
    }
  }

  /** One record per top-level definition, in body order, and nothing for
      any other statement. */
  lemma {:induction false} PyBodyRecordsPerDefinition(path: string, code: string, body: seq<PyStmt>)
    ensures |PyBodyRecords(path, code, body)| == |PyDecls(body)|
    ensures forall i | 0 <= i < |PyDecls(body)| ::
              PyBodyRecords(path, code, body)[i] == PyDeclRecord(path, code, PyDecls(body)[i])
  {
    if body != [] {
      PyBodyRecordsPerDefinition(path, code, body[..|body| - 1]);
    }
  }

  /** A definition's record: its type label, its name, a line count of
      `end - start + 1` with the end defaulting to the start, and the
      text of exactly those lines. */
  lemma PyDeclRecordContents(path: string, code: string, s: PyStmt)
    requires IsPyDecl(s)
    ensures var r := PyDeclRecord(path, code, s);
      && r.Unit? && r.filePath == path && r.name == s.name
      && r.kind.Label() == (match s.kind
                            case ClassDef => "class"
                            case FunctionDef => "function"
                            case _ => "async_function")
      && r.linesOfCode == (if s.endLineno.Some? then s.endLineno.value else s.lineno) - s.lineno + 1
      && r.language == ".py" && r.astDump == Some(s.dump) && r.parsingError == None
      && (1 <= s.lineno <= PyEndLine(s) <= |Lines(code)| ==>
            && r.rawCode == JoinLines(Lines(code)[s.lineno - 1..PyEndLine(s)])
            && r.linesOfCode == |Lines(code)[s.lineno - 1..PyEndLine(s)]|
            && Contains(code, r.rawCode))
  {
    if 1 <= s.lineno <= PyEndLine(s) <= |Lines(code)| {
      LineSpanIsVerbatim(code, s.lineno, PyEndLine(s));
    }
  }

  /** A Python syntax error yields exactly one whole-file fallback record. */
  lemma PythonParseFailure(path: string, code: string, msg: string)
    ensures var r := PythonPayloads(path, code, PySyntaxError(msg));
      && |r| == 1
      && IsWholeFileOf(r[0], path, code)
      && r[0].language == Language(path)
      && r[0].astDump == None
      && r[0].parsingError == Some("Python parse error: " + msg)
  {
  }

  /** A successful parse without top-level definitions yields one whole-file
      record without a parse error, or nothing for a blank file. */
  lemma PythonNoDefinitions(path: string, code: string, body: seq<PyStmt>, dump: string)
    requires forall s | s in body :: !IsPyDecl(s)
    ensures var r := PythonPayloads(path, code, PyModule(body, dump));
      && (IsBlank(code) ==> r == [])
      && (!IsBlank(code) ==>
            && |r| == 1 && IsWholeFileOf(r[0], path, code)
            && r[0].parsingError == None && r[0].astDump == Some(dump) && r[0].language == ".py")
  {
    PyDeclsAreTheDefinitions(body);
    PyBodyRecordsPerDefinition(path, code, body);
  }

  /** With at least one top-level definition the result is exactly the
      definitions' records; no whole-file record is added. */
  lemma PythonWithDefinitions(path: string, code: string, body: seq<PyStmt>, dump: string)
    requires exists s | s in body :: IsPyDecl(s)
    ensures PythonPayloads(path, code, PyModule(body, dump)) == PyBodyRecords(path, code, body)
    ensures |PythonPayloads(path, code, PyModule(body, dump))| == |PyDecls(body)| > 0
  {
    PyDeclsAreTheDefinitions(body);
    PyBodyRecordsPerDefinition(path, code, body);
  }

  // -----------------------------------------------------------------------
  // JavaScript

  predicate IsFunctionInit(d: JsDeclarator)
  {
    d.init == Some(ArrowFunctionExpression) || d.init == Some(FunctionExpression)
  }

  predicate IsNamedFunctionInit(d: JsDeclarator)
  {
    IsFunctionInit(d) && d.id.Some?
  }

  /** The pair (`node_type_str`, `node_name`) worked out for one node;
      `None` stands for the empty type string. */
  datatype Classified = Classified(kind: Option<UnitKind>, name: string)

  /** The declarator loop: each declarator with a function-valued initialiser
      sets the type, and also the name when it binds an identifier. */
  function ScanDeclarators(ds: seq<JsDeclarator>): (r: Classified)
  {
    if ds == [] then Classified(None, Anonymous)
    else
      var prev := ScanDeclarators(ds[..|ds| - 1]);
      var d := ds[|ds| - 1];
      if IsFunctionInit(d) then
        Classified(Some(ArrowFunctionComponent), if d.id.Some? then d.id.value else prev.name)
      else prev
  }

  function ClassifyJs(s: JsStmt): (r: Classified)
  {
    match s.kind
    case FunctionDeclaration(id) => Classified(Some(FunctionUnit), if id.Some? then id.value else Anonymous)
    case ClassDeclaration(id) => Classified(Some(ClassUnit), if id.Some? then id.value else Anonymous)
    case VariableDeclaration(ds) => ScanDeclarators(ds)
    case OtherJsStmt => Classified(None, Anonymous)
  }

  /** The records one top-level node contributes (none or one). */
  function JsStmtRecords(path: string, code: string, s: JsStmt): (r: seq<Record>)
  {
    var c := ClassifyJs(s);
    if c.kind.None? then []
    else [Unit(path, c.kind.value, c.name, s.endLine - s.startLine + 1,
               LineSpan(code, s.startLine, s.endLine), None, JsExt, None)]
  }

  function JsBodyRecords(path: string, code: string, body: seq<JsStmt>): (r: seq<Record>)
  {
    ConcatMap(body, (s: JsStmt) => JsStmtRecords(path, code, s))
  }

  /** What `_js_payload` returns: the module parse is used when it succeeds,
      otherwise the script parse. */
  function JsPayloads(path: string, code: string, moduleParse: JsParse, scriptParse: JsParse): (r: seq<Record>)
  {
    var parse := if moduleParse.JsProgram? then moduleParse else scriptParse;
    match parse
    case JsSyntaxError(msg) => [FileFallback(path, code, "JS parse error: " + msg)]
    case JsProgram(body) =>
      var recs := JsBodyRecords(path, code, body);
      if recs == [] && !IsBlank(code) then [WholeFileUnit(path, code, None, JsExt, None)]
      else recs
  }

  /** The classification part of the loop body of `_js_payload`. */
  method ClassifyJsNode(node: JsStmt) returns (nodeType: Option<UnitKind>, nodeName: string)
    ensures Classified(nodeType, nodeName) == ClassifyJs(node)
  {
    nodeType, nodeName := None, Anonymous;
    match node.kind {
      case FunctionDeclaration(id) =>
        nodeType := Some(FunctionUnit);
        if id.Some? { nodeName := id.value; }
      case ClassDeclaration(id) =>
        nodeType := Some(ClassUnit);
        if id.Some? { nodeName := id.value; }
      case VariableDeclaration(ds) =>
        var j := 0;
        while j < |ds|
          invariant 0 <= j <= |ds|
          invariant Classified(nodeType, nodeName) == ScanDeclarators(ds[..j])
        {
          if IsFunctionInit(ds[j]) {
            nodeType := Some(ArrowFunctionComponent);
            if ds[j].id.Some? { nodeName := ds[j].id.value; }
          }
          assert ds[..j + 1][..j] == ds[..j];
          j := j + 1;
        }
        assert ds[..j] == ds;
      case OtherJsStmt =>
    }
  }

  /** `_js_payload`. `scriptParse` is consulted only when `moduleParse` failed. */
  method JsPayload(path: string, code: string, moduleParse: JsParse, scriptParse: JsParse)
    returns (payloads: seq<Record>)
    ensures payloads == JsPayloads(path, code, moduleParse, scriptParse)
  {
    var tree := moduleParse;
    if tree.JsSyntaxError? {
      tree := scriptParse;
      if tree.JsSyntaxError? {
        return [FileFallback(path, code, "JS parse error: " + tree.message)];
      }
    }
    var body := tree.body;
    payloads := [];
    var i := 0;
    while i < |body|
      invariant 0 <= i <= |body|
      invariant payloads == JsBodyRecords(path, code, body[..i])
    {
      var node := body[i];
      var nodeType, nodeName := ClassifyJsNode(node);
      if nodeType.Some? {
        var start := node.startLine;
        var end := node.endLine;
        var rawCode := JoinLines(Slice(Lines(code), start - 1, end));
        payloads := payloads + [Unit(path, nodeType.value, nodeName, end - start + 1,
                                     rawCode, None, JsExt, None)];
      }
      assert body[..i + 1][..i] == body[..i];
      i := i + 1;
    }
    assert body[..i] == body;
    if payloads == [] && !IsBlank(code) {
      payloads := payloads + [WholeFileUnit(path, code, None, JsExt, None)];
    }
  }

  /** The declarator loop yields the component type exactly when some
      declarator is initialised with a function, and then the name bound by the
      last such declarator that binds one (or "<anonymous>"). */
  lemma {:induction false} ScanDeclaratorsNamesLast(ds: seq<JsDeclarator>)
    ensures ScanDeclarators(ds).kind.Some? <==> exists i | 0 <= i < |ds| :: IsFunctionInit(ds[i])
    ensures ScanDeclarators(ds).kind.Some? ==> ScanDeclarators(ds).kind == Some(ArrowFunctionComponent)
    ensures (forall i | 0 <= i < |ds| :: !IsNamedFunctionInit(ds[i])) ==> ScanDeclarators(ds).name == Anonymous
    ensures forall i | 0 <= i < |ds| && IsNamedFunctionInit(ds[i]) ::
              (forall j | i < j < |ds| :: !IsNamedFunctionInit(ds[j])) ==> ScanDeclarators(ds).name == ds[i].id.value
  {
    if ds != [] {
      var init := ds[..|ds| - 1];
      ScanDeclaratorsNamesLast(init);
      var n := |ds| - 1;
      assert forall i | 0 <= i < n :: ds[i] == init[i];
      if !IsFunctionInit(ds[n]) {
        assert (exists i | 0 <= i < |ds| :: IsFunctionInit(ds[i])) ==> exists i | 0 <= i < |init| :: IsFunctionInit(init[i]);
      }
    }
  }

  /** What one top-level node contributes: a function or class declaration
      gives one record named by its identifier or "<anonymous>"; a variable
      declaration gives one component record exactly when some declarator is
      function-valued; any other node gives nothing. */
  lemma JsStmtContribution(path: string, code: string, s: JsStmt)
    ensures var r := JsStmtRecords(path, code, s);
      && |r| <= 1
      && (forall x | x in r :: x.Unit? && x.filePath == path && x.language == ".js"
                                && x.parsingError == None && x.astDump == None
                                && x.linesOfCode == s.endLine - s.startLine + 1
                                && x.rawCode == LineSpan(code, s.startLine, s.endLine))
      && (s.kind.FunctionDeclaration? ==>
            |r| == 1 && r[0].kind.Label() == "function"
            && r[0].name == (if s.kind.id.Some? then s.kind.id.value else "<anonymous>"))
      && (s.kind.ClassDeclaration? ==>
            |r| == 1 && r[0].kind.Label() == "class"
            && r[0].name == (if s.kind.id.Some? then s.kind.id.value else "<anonymous>"))
      && (s.kind.VariableDeclaration? ==>
            (|r| == 1 <==> exists i | 0 <= i < |s.kind.declarations| :: IsFunctionInit(s.kind.declarations[i]))
            && (|r| == 1 ==> r[0].kind.Label() == "arrow_function_component"
                             && r[0].name == ScanDeclarators(s.kind.declarations).name))
      && (s.kind.OtherJsStmt? ==> r == [])
  {
    if s.kind.VariableDeclaration? {
      ScanDeclaratorsNamesLast(s.kind.declarations);
    }
  }

  lemma {:induction false} JsBodyRecordsHaveNoParseError(path: string, code: string, body: seq<JsStmt>)
    ensures forall r | r in JsBodyRecords(path, code, body) ::
              r.Unit? && r.filePath == path && r.parsingError == None
              && r.astDump == None && r.language == ".js"
  {
    if body != [] {
      JsBodyRecordsHaveNoParseError(path, code, body[..|body| - 1]);
      JsStmtContribution(path, code, body[|body| - 1]);
    }
  }

  /** A "JS parse error: " fallback record appears exactly when both the
      module parse and the script parse fail, and then it is the only record. */
  lemma JsFallbackOnlyWhenBothParsesFail(path: string, code: string, moduleParse: JsParse, scriptParse: JsParse)
    ensures var r := JsPayloads(path, code, moduleParse, scriptParse);
      && ((exists x | x in r :: x.Unit? && x.parsingError.Some?)
            <==> moduleParse.JsSyntaxError? && scriptParse.JsSyntaxError?)
      && (moduleParse.JsSyntaxError? && scriptParse.JsSyntaxError? ==>
            && |r| == 1 && IsWholeFileOf(r[0], path, code)
            && r[0].language == Language(path)
            && r[0].parsingError == Some("JS parse error: " + scriptParse.message))
  {
    var parse := if moduleParse.JsProgram? then moduleParse else scriptParse;
    if parse.JsProgram? {
      JsProgramRecordsHaveNoParseError(path, code, parse.body);
    }
  }

  lemma JsProgramRecordsHaveNoParseError(path: string, code: string, body: seq<JsStmt>)
    ensures var recs := JsBodyRecords(path, code, body);
      var r := if recs == [] && !IsBlank(code) then [WholeFileUnit(path, code, None, JsExt, None)] else recs;
      forall x | x in r :: x.Unit? && x.parsingError == None
  {
    JsBodyRecordsHaveNoParseError(path, code, body);
  }

  /** A successful JavaScript parse that yields no records gives one
      whole-file record without a parse error, or nothing for a blank file. */
  lemma JsNoDeclarations(path: string, code: string, moduleParse: JsParse, scriptParse: JsParse)
    requires moduleParse.JsProgram? || scriptParse.JsProgram?
    requires JsBodyRecords(path, code, (if moduleParse.JsProgram? then moduleParse else scriptParse).body) == []
    ensures var r := JsPayloads(path, code, moduleParse, scriptParse);
      && (IsBlank(code) ==> r == [])
      && (!IsBlank(code) ==>
            |r| == 1 && IsWholeFileOf(r[0], path, code) && r[0].parsingError == None
            && r[0].astDump == None && r[0].language == ".js")
  {
  }

  // -----------------------------------------------------------------------
  // build_payloads

  predicate IsSupported(ext: string)
  {
    ext == PyExt || ext == JsExt
  }

  /** The records one input path contributes. */
  function FilePayloads(f: SourceFile, parsers: Parsers): (r: seq<Record>)
  {
    var ext := Language(f.path);
    if !f.isFile || !IsSupported(ext) then []
    else
      match f.read
      case ReadFailure(t, m) => [ReadError(f.path, "Could not read file due to error: " + t + " - " + m)]
      case Content(code) =>
        if ext == PyExt then PythonPayloads(f.path, code, parsers.python(code))
        else JsPayloads(f.path, code, parsers.jsModule(code), parsers.jsScript(code))
  }

  function AgentPayloads(files: seq<SourceFile>, parsers: Parsers): (r: seq<Record>)
  {
    ConcatMap(files, (f: SourceFile) => FilePayloads(f, parsers))
  }

  /** `AgentPayloadBuilder.build_payloads`. */
  method BuildPayloads(files: seq<SourceFile>, parsers: Parsers) returns (payloads: seq<Record>)
    ensures payloads == AgentPayloads(files, parsers)
  {
    payloads := [];
    var i := 0;
    while i < |files|
      invariant 0 <= i <= |files|
      invariant payloads == AgentPayloads(files[..i], parsers)
    {
      var f := files[i];
      assert files[..i + 1][..i] == files[..i];
      i := i + 1;
      if !f.isFile {
        continue;
      }
      var ext := Language(f.path);
      if ext != PyExt && ext != JsExt {
        continue;
      }
      if f.read.ReadFailure? {
        payloads := payloads + [ReadError(f.path, "Could not read file due to error: "
                                                  + f.read.exceptionType + " - " + f.read.message)];
        continue;
      }
      var content := f.read.text;
      if ext == PyExt {
        var p := PythonPayload(f.path, content, parsers.python(content));
        payloads := payloads + p;
      } else if ext == JsExt {
        var p := JsPayload(f.path, content, parsers.jsModule(content), parsers.jsScript(content));
        payloads := payloads + p;
      }
    }
    assert files[..i] == files;
  }

  /** The output is the concatenation, in input order, of what each path
      contributes. */
  lemma AgentPayloadsAppend(a: seq<SourceFile>, b: seq<SourceFile>, parsers: Parsers)
    ensures AgentPayloads(a + b, parsers) == AgentPayloads(a, parsers) + AgentPayloads(b, parsers)
  {
    ConcatMapAppend(a, b, (f: SourceFile) => FilePayloads(f, parsers));
  }

  lemma {:induction false} PyBodyRecordsPath(path: string, code: string, body: seq<PyStmt>)
    ensures forall r | r in PyBodyRecords(path, code, body) :: r.filePath == path
  {
    if body != [] {
      PyBodyRecordsPath(path, code, body[..|body| - 1]);
    }
  }

  lemma FilePayloadsPath(f: SourceFile, parsers: Parsers)
    ensures forall r | r in FilePayloads(f, parsers) :: r.filePath == f.path
    ensures FilePayloads(f, parsers) != [] ==> f.isFile && IsSupported(Language(f.path))
  {
    if f.isFile && IsSupported(Language(f.path)) && f.read.Content? {
      var code := f.read.text;
      var py := parsers.python(code);
      if py.PyModule? {
        PyBodyRecordsPath(f.path, code, py.body);
      }
      var parse := if parsers.jsModule(code).JsProgram? then parsers.jsModule(code) else parsers.jsScript(code);
      if parse.JsProgram? {
        JsBodyRecordsHaveNoParseError(f.path, code, parse.body);
      }
    }
  }

  /** Every record comes from a regular input file whose lower-cased suffix
      is ".py" or ".js". */
  lemma AgentPayloadsOrigin(files: seq<SourceFile>, parsers: Parsers)
    ensures forall r | r in AgentPayloads(files, parsers) ::
              exists f | f in files :: f.isFile && IsSupported(Language(f.path)) && r.filePath == f.path
  {
    ConcatMapOrigin(files, (f: SourceFile) => FilePayloads(f, parsers));
    forall f | f in files {
      FilePayloadsPath(f, parsers);
    }
  }

  /** Whatever one path contributes sits between the records of the paths
      before it and those of the paths after it. */
  lemma FileContribution(a: seq<SourceFile>, f: SourceFile, b: seq<SourceFile>, parsers: Parsers)
    ensures AgentPayloads(a + [f] + b, parsers)
              == AgentPayloads(a, parsers) + FilePayloads(f, parsers) + AgentPayloads(b, parsers)
  {
    var g := (x: SourceFile) => FilePayloads(x, parsers);
    ConcatMapAppend(a + [f], b, g);
    ConcatMapAppend(a, [f], g);
    ConcatMapSingle(f, g);
  }

  /** A path that is not a regular file, or whose lower-cased suffix is
      neither ".py" nor ".js", contributes nothing. */
  lemma SkippedFile(f: SourceFile, parsers: Parsers)
    requires !f.isFile || !IsSupported(Language(f.path))
    ensures FilePayloads(f, parsers) == []
  {
  }

  /** A file that cannot be read contributes exactly one `{file_path, error}`
      record (and, by `FileContribution`, the files after it are still
      processed). */
  lemma UnreadableFile(f: SourceFile, parsers: Parsers)
    requires f.isFile && IsSupported(Language(f.path)) && f.read.ReadFailure?
    ensures FilePayloads(f, parsers)
              == [ReadError(f.path, "Could not read file due to error: "
                                    + f.read.exceptionType + " - " + f.read.message)]
  {
  }
}
