/**
  `RAGPayloadBuilder`: one whole-file payload per readable regular file,
  whatever its extension, for the retrieval index.
*/
module RagPayloadBuilder {
  import opened PyText
  import opened Payloads
  import opened Seqs

  /** The records one input path contributes: none for a path that is not a
      regular file, otherwise exactly one. */
  function FileRecord(f: SourceFile): (r: seq<Record>)
  {
    if !f.isFile then []
    else
      match f.read
      case ReadFailure(_, m) => [ReadError(f.path, "File read error: " + m)]
      case Content(content) => [WholeFileUnit(f.path, content, None, Language(f.path), None)]
  }

  function RagPayloads(files: seq<SourceFile>): (r: seq<Record>)
  {
    ConcatMap(files, FileRecord)
  }

  /** `RAGPayloadBuilder.build_payloads`. */
  method BuildPayloads(files: seq<SourceFile>) returns (payloads: seq<Record>)
    ensures payloads == RagPayloads(files)
    ensures |payloads| <= |files|
  {
    payloads := [];
    var i := 0;
    while i < |files|
      invariant 0 <= i <= |files|
      invariant payloads == RagPayloads(files[..i])
      invariant |payloads| <= i
    {
      var f := files[i];
      assert files[..i + 1][..i] == files[..i];
      i := i + 1;
      if !f.isFile {
        continue;
      }
      if f.read.ReadFailure? {
        payloads := payloads + [ReadError(f.path, "File read error: " + f.read.message)];
        continue;
      }
      var content := f.read.text;
      payloads := payloads + [Unit(f.path, FileUnit, BaseName(f.path), |Lines(content)|,
                                   content, None, Lower(Suffix(BaseName(f.path))), None)];
    }
    assert files[..i] == files;
  }

  /** The regular files among the inputs, in order. */
  function RegularFiles(files: seq<SourceFile>): (r: seq<SourceFile>)
  {
    ConcatMap(files, (f: SourceFile) => if f.isFile then [f] else [])
  }

  /** The k-th record belongs to the k-th regular file: one record per
      regular file, in input order. A readable file's record holds its whole
      text, its line count, its name and its lower-cased suffix; an
      unreadable one's holds only the path and a "File read error: " message. */
  lemma {:induction false} OneRecordPerRegularFile(files: seq<SourceFile>)
    ensures |RagPayloads(files)| == |RegularFiles(files)| <= |files|
    ensures forall k | 0 <= k < |RegularFiles(files)| ::
              var f, r := RegularFiles(files)[k], RagPayloads(files)[k];
              && r.filePath == f.path
              && (f.read.ReadFailure? ==> r == ReadError(f.path, "File read error: " + f.read.message))
              && (f.read.Content? ==>
                    && IsWholeFileOf(r, f.path, f.read.text)
                    && r.language == Lower(Suffix(BaseName(f.path)))
                    && r.astDump == None && r.parsingError == None)
  {
    if files != [] {
      var init, last := files[..|files| - 1], files[|files| - 1];
      OneRecordPerRegularFile(init);
      var n := |RegularFiles(init)|;
      assert RagPayloads(files) == RagPayloads(init) + FileRecord(last);
      assert RegularFiles(files) == RegularFiles(init) + (if last.isFile then [last] else []);
      forall k | 0 <= k < |RegularFiles(files)|
        ensures RagPayloads(files)[k].filePath == RegularFiles(files)[k].path
      {
        if k < n {
          assert RagPayloads(files)[k] == RagPayloads(init)[k];
          assert RegularFiles(files)[k] == RegularFiles(init)[k];
        }
      }
    }
  }

  /** Input order is kept: the records of a list of paths are those of its
      first part followed by those of the rest. */
  lemma RagPayloadsAppend(a: seq<SourceFile>, b: seq<SourceFile>)
    ensures RagPayloads(a + b) == RagPayloads(a) + RagPayloads(b)
  {
    ConcatMapAppend(a, b, FileRecord);
  }
}
