/**
  The pieces of Python's string and path builtins that the ingestion and
  payload-building code relies on: `str.splitlines`, `"\n".join`, `str.strip`
  used as a truth value, `str.lower`, list slicing, `in` on strings,
  `pathlib.PurePath.name` / `.suffix` and `os.path.basename` / `os.path.splitext`.

  Simplifications (stated once here):
  - line boundaries are '\n' only (Python's `splitlines` also splits on
    '\r', '\x0b', '\x0c', '\x1c'-'\x1e', '\x85', U+2028 and U+2029);
  - `lower()` folds ASCII letters only;
  - a path is a normalised '/'-separated string (no trailing '/').
*/
module PyText {

  /** The characters `str.strip()` removes (Python's `str.isspace` set). */
  predicate IsSpace(c: char)
  {
    var n := c as int;
    || (0x09 <= n <= 0x0D) || (0x1C <= n <= 0x20) || n == 0x85 || n == 0xA0
    || n == 0x1680 || (0x2000 <= n <= 0x200A) || n == 0x2028 || n == 0x2029
    || n == 0x202F || n == 0x205F || n == 0x3000
  }

  /** `not s.strip()`: the string is empty or made only of whitespace. */
  predicate IsBlank(s: string)
  {
    forall i | 0 <= i < |s| :: IsSpace(s[i])
  }

  function LowerChar(c: char): (r: char)
  {
    if 'A' <= c <= 'Z' then (c as int + 32) as char else c
  }

  /** `s.lower()` (ASCII letters only). */
  function Lower(s: string): (r: string)
    ensures |r| == |s|
    ensures forall i | 0 <= i < |s| :: r[i] == LowerChar(s[i])
  {
    seq(|s|, i requires 0 <= i < |s| => LowerChar(s[i]))
  }

  /** `lower()` leaves no upper-case ASCII letter, changes no other
      character, and a second `lower()` changes nothing. */
  lemma LowerNormalises(s: string)
    ensures forall i | 0 <= i < |s| :: !('A' <= Lower(s)[i] <= 'Z')
    ensures forall i | 0 <= i < |s| :: !('A' <= s[i] <= 'Z') ==> Lower(s)[i] == s[i]
    ensures forall i | 0 <= i < |s| :: 'A' <= s[i] <= 'Z' ==> 'a' <= Lower(s)[i] <= 'z'
    ensures Lower(Lower(s)) == Lower(s)
  {
  }

  /** `sub in s` for strings. */
  predicate Contains(s: string, sub: string)
  {
    sub <= s || (s != [] && Contains(s[1..], sub))
  }

  // ---------------------------------------------------------------------
  // Lines

  /** Index of the first '\n' in `s`, or `|s|` when there is none. */
  function LineEnd(s: string): (k: nat)
    ensures k <= |s|
  {
    if s == [] || s[0] == '\n' then 0 else 1 + LineEnd(s[1..])
  }

  /** `LineEnd` finds the first terminator. */
  lemma {:induction false} LineEndIsFirstNewline(s: string)
    ensures forall j | 0 <= j < LineEnd(s) :: s[j] != '\n'
    ensures LineEnd(s) < |s| ==> s[LineEnd(s)] == '\n'
  {
    if s != [] && s[0] != '\n' {
      LineEndIsFirstNewline(s[1..]);
    }
  }

  /** `s.splitlines()`: the lines of `s` without their terminators; a final
      '\n' does not start an extra empty line. */
  function Lines(s: string): (r: seq<string>)
    decreases |s|, 1
  {
    if s == [] then [] else LinesFrom(s, LineEnd(s))
  }

  /** The lines of `s` whose first line ends at `k`. */
  function LinesFrom(s: string, k: nat): (r: seq<string>)
    requires k <= |s|
    decreases |s|, 0
  {
    if k == |s| then [s] else [s[..k]] + Lines(s[k + 1..])
  }

  /** `"\n".join(ls)`. */
  function JoinLines(ls: seq<string>): (r: string)
  {
    if ls == [] then ""
    else if |ls| == 1 then ls[0]
    else ls[0] + "\n" + JoinLines(ls[1..])
  }

  function CountChar(s: string, c: char): (r: nat)
  {
    if s == [] then 0 else (if s[0] == c then 1 else 0) + CountChar(s[1..], c)
  }

  predicate EndsWithNewline(s: string)
  {
    |s| > 0 && s[|s| - 1] == '\n'
  }

  /** One step of `Lines`: the first line, then the lines of what follows
      its terminator. */
  lemma LinesStep(s: string)
    requires s != []
    ensures LineEnd(s) == |s| ==> Lines(s) == [s] && !EndsWithNewline(s)
    ensures LineEnd(s) < |s| ==> Lines(s) == [s[..LineEnd(s)]] + Lines(s[LineEnd(s) + 1..])
    ensures Lines(s) != []
  {
    if LineEnd(s) == |s| {
      LinesWhole(s);
    } else {
      LinesCut(s);
    }
  }

  lemma LinesWhole(s: string)
    requires s != [] && LineEnd(s) == |s|
    ensures Lines(s) == [s] && !EndsWithNewline(s)
  {
    LineEndIsFirstNewline(s);
    assert s[|s| - 1] != '\n';
  }

  lemma LinesCut(s: string)
    requires s != [] && LineEnd(s) < |s|
    ensures Lines(s) == [s[..LineEnd(s)]] + Lines(s[LineEnd(s) + 1..])
  {
    var k := LineEnd(s);
    LinesOpen(s);
    LinesFromCut(s, k);
  }

  lemma LinesOpen(s: string)
    requires s != []
    ensures Lines(s) == LinesFrom(s, LineEnd(s))
  {
  }

  lemma LinesFromCut(s: string, k: nat)
    requires k < |s|
    ensures LinesFrom(s, k) == [s[..k]] + Lines(s[k + 1..])
  {
  }

  /** A text cut around one of its '\n' characters. */
  lemma SplitAtNewline(s: string, k: nat)
    requires k < |s| && s[k] == '\n'
    ensures s == s[..k] + "\n" + s[k + 1..]
    ensures s[k + 1..] == [] <==> k == |s| - 1
    ensures s[k + 1..] == [] ==> EndsWithNewline(s)
    ensures s[k + 1..] != [] ==> EndsWithNewline(s) == EndsWithNewline(s[k + 1..])
  {
    var rest := s[k + 1..];
    assert s == s[..k] + [s[k]] + rest;
    if rest != [] {
      assert s[|s| - 1] == rest[|rest| - 1];
    }
  }

  /** The text around its first terminator. */
  lemma SplitAtLineEnd(s: string)
    requires LineEnd(s) < |s|
    ensures s == s[..LineEnd(s)] + "\n" + s[LineEnd(s) + 1..]
    ensures s[LineEnd(s) + 1..] == [] <==> LineEnd(s) == |s| - 1
    ensures s[LineEnd(s) + 1..] == [] ==> EndsWithNewline(s)
    ensures s[LineEnd(s) + 1..] != [] ==> EndsWithNewline(s) == EndsWithNewline(s[LineEnd(s) + 1..])
  {
    LineEndIsFirstNewline(s);
    SplitAtNewline(s, LineEnd(s));
  }

  /** No line produced by `Lines` contains a line terminator. */
  lemma {:induction false} LinesHaveNoNewline(s: string)
    ensures forall i | 0 <= i < |Lines(s)| :: '\n' !in Lines(s)[i]
    decreases |s|
  {
    if s != [] {
      LinesStep(s);
      LineEndIsFirstNewline(s);
      var k := LineEnd(s);
      assert '\n' !in s[..k];
      if k < |s| {
        var rest := s[k + 1..];
        LinesHaveNoNewline(rest);
        forall i | 0 <= i < |Lines(s)| ensures '\n' !in Lines(s)[i] {
          if i > 0 {
            assert Lines(s)[i] == Lines(rest)[i - 1];
          }
        }
      } else {
        assert s[..k] == s;
      }
    }
  }

  lemma {:induction false} CountCharAppend(a: string, b: string, c: char)
    ensures CountChar(a + b, c) == CountChar(a, c) + CountChar(b, c)
  {
    if a != [] {
      assert (a + b)[0] == a[0];
      assert (a + b)[1..] == a[1..] + b;
      CountCharAppend(a[1..], b, c);
    } else {
      assert a + b == b;
    }
  }

  lemma {:induction false} CountCharNone(s: string, c: char)
    requires forall j | 0 <= j < |s| :: s[j] != c
    ensures CountChar(s, c) == 0
  {
    if s != [] {
      CountCharNone(s[1..], c);
    }
  }

  lemma CountCharAround(s: string, k: nat, c: char)
    requires k < |s| && s[k] == c
    ensures CountChar(s, c) == CountChar(s[..k], c) + 1 + CountChar(s[k + 1..], c)
  {
    assert s == s[..k] + ([s[k]] + s[k + 1..]);
    CountCharAppend(s[..k], [s[k]] + s[k + 1..], c);
    CountCharAppend([s[k]], s[k + 1..], c);
  }

  /** `len(s.splitlines())` is the number of line terminators, plus one when
      the text does not end with a terminator (and is not empty). */
  lemma {:induction false} LinesCount(s: string)
    ensures |Lines(s)| == CountChar(s, '\n') + (if s != [] && !EndsWithNewline(s) then 1 else 0)
    decreases |s|
  {
    if s != [] {
      LinesStep(s);
      LineEndIsFirstNewline(s);
      var k := LineEnd(s);
      CountCharNone(s[..k], '\n');
      if k == |s| {
        assert s[..k] == s;
      } else {
        SplitAtLineEnd(s);
        CountCharAround(s, k, '\n');
        LinesCount(s[k + 1..]);
      }
    }
  }

  lemma JoinLinesCons(x: string, ls: seq<string>)
    requires ls != []
    ensures JoinLines([x] + ls) == x + "\n" + JoinLines(ls)
  {
    assert ([x] + ls)[1..] == ls;
  }

  lemma JoinLinesStep(first: string, lrest: seq<string>, tail: string, rest: string)
    requires lrest != [] && JoinLines(lrest) + tail == rest
    ensures JoinLines([first] + lrest) + tail == first + "\n" + rest
  {
    JoinLinesCons(first, lrest);
    assert (first + "\n" + JoinLines(lrest)) + tail == first + "\n" + (JoinLines(lrest) + tail);
  }

  /** Joining the lines back together gives the text, minus a final '\n'. */
  lemma {:induction false} JoinLinesOfLines(s: string)
    ensures JoinLines(Lines(s)) + (if EndsWithNewline(s) then "\n" else "") == s
    decreases |s|
  {
    if s != [] {
      var k := LineEnd(s);
      LinesStep(s);
      if k < |s| {
        SplitAtLineEnd(s);
        var first, rest := s[..k], s[k + 1..];
        if rest != [] {
          LinesStep(rest);
          JoinLinesOfLines(rest);
          JoinLinesStep(first, Lines(rest), if EndsWithNewline(rest) then "\n" else "", rest);
        }
      }
    }
  }

  lemma TakeCons<T>(x: T, xs: seq<T>, m: nat)
    requires 1 <= m <= |xs| + 1
    ensures ([x] + xs)[..m] == [x] + xs[..m - 1]
  {
  }

  lemma DropCons<T>(x: T, xs: seq<T>, a: nat, b: nat)
    requires 1 <= a <= b <= |xs| + 1
    ensures ([x] + xs)[a..b] == xs[a - 1..b - 1]
  {
  }

  /** The inductive step of `JoinedLeadingLinesArePrefix`, stated on the
      pieces of a text split at its first terminator. */
  lemma LeadingLinesStep(s: string, first: string, rest: string, ls: seq<string>,
                         lrest: seq<string>, m: nat, t: string)
    requires s == first + "\n" + rest && ls == [first] + lrest
    requires 2 <= m <= |ls| && JoinLines(lrest[..m - 1]) + t == rest
    ensures JoinLines(ls[..m]) + t == s
  {
    TakeCons(first, lrest, m);
    var j := JoinLines(lrest[..m - 1]);
    JoinLinesCons(first, lrest[..m - 1]);
    assert JoinLines(ls[..m]) == first + "\n" + j;
    assert (first + "\n" + j) + t == first + "\n" + (j + t);
  }

  lemma FirstLineStep(s: string, first: string, rest: string, ls: seq<string>, lrest: seq<string>)
    requires s == first + "\n" + rest && ls == [first] + lrest
    ensures JoinLines(ls[..1]) + ("\n" + rest) == s
  {
    assert ls[..1] == [first];
    assert first + ("\n" + rest) == first + "\n" + rest;
  }

  lemma WholeLineStep(s: string, ls: seq<string>)
    requires ls == [s]
    ensures JoinLines(ls[..1]) + [] == s
  {
    assert ls[..1] == [s];
    assert s + [] == s;
  }

  /** Joining the first `m` lines gives a prefix of the text: what is
      returned is the remainder `t` after it. */
  lemma {:induction false} JoinedLeadingLinesArePrefix(s: string, m: nat) returns (t: string)
    requires m <= |Lines(s)|
    ensures JoinLines(Lines(s)[..m]) + t == s
    decreases |s|
  {
    if m == 0 {
      t := s;
      assert Lines(s)[..m] == [];
      assert [] + s == s;
    } else {
      LinesStep(s);
      var k := LineEnd(s);
      if k == |s| {
        WholeLineStep(s, Lines(s));
        t := [];
      } else {
        SplitAtLineEnd(s);
        var first, rest := s[..k], s[k + 1..];
        if m == 1 {
          FirstLineStep(s, first, rest, Lines(s), Lines(rest));
          t := "\n" + rest;
        } else {
          t := JoinedLeadingLinesArePrefix(rest, m - 1);
          LeadingLinesStep(s, first, rest, Lines(s), Lines(rest), m, t);
        }
      }
    }
  }

  lemma PrefixIsContained(p: string, t: string, s: string)
    requires p + t == s
    ensures Contains(s, p)
  {
    assert p <= s;
  }

  lemma {:induction false} ContainedAfter(p: string, t: string, r: string)
    requires Contains(r, t)
    ensures Contains(p + r, t)
  {
    if p == [] {
      assert p + r == r;
    } else {
      ContainedAfter(p[1..], t, r);
      assert (p + r)[1..] == p[1..] + r;
    }
  }

  /** The lines after the first one are the lines of what follows the
      first terminator. */
  lemma LaterLines(s: string)
    requires |Lines(s)| >= 2
    ensures LineEnd(s) < |s|
    ensures Lines(s) == [s[..LineEnd(s)]] + Lines(s[LineEnd(s) + 1..])
  {
    LinesStep(s);
  }

  lemma LaterLineRangeStep(s: string, a: nat, b: nat)
    requires 1 <= a <= b <= |Lines(s)| && 2 <= |Lines(s)|
    requires LineEnd(s) < |s| && |Lines(s)| == 1 + |Lines(s[LineEnd(s) + 1..])|
    requires Contains(s[LineEnd(s) + 1..], JoinLines(Lines(s[LineEnd(s) + 1..])[a - 1..b - 1]))
    ensures Contains(s, JoinLines(Lines(s)[a..b]))
  {
    LaterLines(s);
    SplitAtLineEnd(s);
    var k := LineEnd(s);
    var first, rest, lrest := s[..k], s[k + 1..], Lines(s[k + 1..]);
    DropCons(first, lrest, a, b);
    ContainedAfter(first + "\n", JoinLines(lrest[a - 1..b - 1]), rest);
  }

  lemma LeadingLineRangeStep(s: string, b: nat)
    requires b <= |Lines(s)|
    ensures Contains(s, JoinLines(Lines(s)[0..b]))
  {
    var t := JoinedLeadingLinesArePrefix(s, b);
    assert Lines(s)[0..b] == Lines(s)[..b];
    PrefixIsContained(JoinLines(Lines(s)[..b]), t, s);
  }

  /** Joining any contiguous run of lines gives a piece of the original text
      taken verbatim. */
  lemma {:induction false} JoinedLineRangeIsContained(s: string, a: nat, b: nat)
    requires a <= b <= |Lines(s)|
    ensures Contains(s, JoinLines(Lines(s)[a..b]))
    decreases |s|
  {
    if a == 0 {
      LeadingLineRangeStep(s, b);
    } else if a == b {
      assert JoinLines(Lines(s)[a..b]) <= s;
    } else {
      LaterLines(s);
      var rest := s[LineEnd(s) + 1..];
      JoinedLineRangeIsContained(rest, a - 1, b - 1);
      LaterLineRangeStep(s, a, b);
    }
  }

  // ---------------------------------------------------------------------
  // Slicing

  /** A Python slice bound normalised against a sequence of length `n`. */
  function SliceIndex(i: int, n: nat): (r: nat)
    ensures r <= n
  {
    if i < 0 then (if i + n < 0 then 0 else i + n)
    else if i > n then n
    else i
  }

  /** `xs[start:stop]` with Python's rules for negative and out-of-range bounds. */
  function Slice<T>(xs: seq<T>, start: int, stop: int): (r: seq<T>)
  {
    var a := SliceIndex(start, |xs|);
    var b := SliceIndex(stop, |xs|);
    if a < b then xs[a..b] else []
  }

  /** Line numbers `start..end` (1-based, inclusive) of a text that has at
      least `end` lines select exactly `end - start + 1` consecutive lines. */
  lemma SliceOfLineSpan<T>(xs: seq<T>, start: int, end: int)
    requires 1 <= start <= end <= |xs|
    ensures Slice(xs, start - 1, end) == xs[start - 1..end]
    ensures |Slice(xs, start - 1, end)| == end - start + 1
  {
  }

  // ---------------------------------------------------------------------
  // Paths

  /** Index of the last occurrence of `c` in `s`, or -1 (`str.rfind`). */
  function RFind(s: string, c: char): (i: int)
    ensures -1 <= i < |s|
    ensures i >= 0 ==> s[i] == c
    ensures forall j | i < j < |s| :: s[j] != c
  {
    if s == [] then -1
    else if s[|s| - 1] == c then |s| - 1
    else RFind(s[..|s| - 1], c)
  }

  lemma RFindAt(s: string, c: char, i: nat)
    requires i < |s| && s[i] == c && c !in s[i + 1..]
    ensures RFind(s, c) == i
  {
    assert forall j | i < j < |s| :: s[j] == s[i + 1..][j - i - 1];
  }

  lemma RFindAbsent(s: string, c: char)
    requires c !in s
    ensures RFind(s, c) == -1
  {
  }

  /** `os.path.basename(p)`, and `PurePath(p).name` for a normalised path:
      what follows the last '/'. */
  function BaseName(p: string): (b: string)
    ensures '/' !in b
    ensures b == p[RFind(p, '/') + 1..]
  {
    p[RFind(p, '/') + 1..]
  }

  /** `PurePath.suffix` of a file name: from the last '.', provided that dot
      is neither the first nor the last character. */
  function Suffix(name: string): (r: string)
  {
    var i := RFind(name, '.');
    if 0 < i < |name| - 1 then name[i..] else ""
  }

  /** The extension part of `os.path.splitext(name)` for a name without '/':
      from the last '.', provided some character before it is not a '.'. */
  function Extension(name: string): (r: string)
  {
    var d := RFind(name, '.');
    if d >= 0 && exists j | 0 <= j < d :: name[j] != '.' then name[d..] else ""
  }

  /** A non-empty suffix or extension is the name's last '.' and what
      follows it, and where both are non-empty they agree. They can differ
      in emptiness (`SuffixAndExtensionDiffer`). */
  lemma SuffixAndExtension(name: string)
    ensures var x := Suffix(name);
      x != [] ==> x[0] == '.' && '.' !in x[1..] && name == name[..|name| - |x|] + x
    ensures var x := Extension(name);
      x != [] ==> x[0] == '.' && '.' !in x[1..] && name == name[..|name| - |x|] + x
    ensures Suffix(name) != [] && Extension(name) != [] ==> Suffix(name) == Extension(name)
  {
    var i := RFind(name, '.');
    if i >= 0 {
      TailAfterLastDot(name, i);
    }
  }

  lemma TailAfterLastDot(name: string, i: nat)
    requires i == RFind(name, '.')
    ensures var x := name[i..];
      x[0] == '.' && '.' !in x[1..] && name == name[..|name| - |x|] + x
  {
    var x := name[i..];
    assert forall j | 0 <= j < |x| - 1 :: x[1..][j] == name[i + 1 + j];
    assert name == name[..i] + x;
  }

  /** "a." has the extension "." and no suffix; "..x" has the suffix ".x"
      and no extension. */
  lemma SuffixAndExtensionDiffer()
    ensures Suffix("a.") == "" && Extension("a.") == "."
    ensures Suffix("..x") == ".x" && Extension("..x") == ""
  {
    assert RFind("a.", '.') == 1;
    assert "a."[0] != '.';
    assert RFind("..x", '.') == 1;
    assert "..x"[1..] == ".x";
  }

  /** A name whose characters before its last '.' are all dots, such as
      ".gitignore" or "..", has no extension. */
  lemma DotStemHasNoExtension(name: string)
    requires forall j | 0 <= j < RFind(name, '.') :: name[j] == '.'
    ensures Extension(name) == ""
  {
  }
}
