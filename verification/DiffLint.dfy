/** antislop_lint.py: the one-pass diff parser, against a printer of diffs, and the lint built on it. */
module DiffLint {
  import opened Models
  import Redaction

  // ------------------------------------------------------------------ text

  /** Where `str.splitlines` breaks a text. */
  predicate Boundary(c: char) {
    '\n' <= c <= '\r' || '\U{1C}' <= c <= '\U{1E}' || c == '\U{85}' || c == '\U{2028}' || c == '\U{2029}'
  }

  /** What `str.strip` removes and `\s` matches, Unicode blanks included. */
  predicate Space(c: char) {
    || c == ' ' || c == '\t' || c == '\U{1F}' || Boundary(c) || c == '\U{A0}' || c == '\U{1680}'
    || '\U{2000}' <= c <= '\U{200A}' || c == '\U{202F}' || c == '\U{205F}' || c == '\U{3000}'
  }

  predicate OneLine(s: string) { forall i :: 0 <= i < |s| ==> !Boundary(s[i]) }

  predicate Wordy(s: string) { forall i :: 0 <= i < |s| ==> !Space(s[i]) }

  function BreakAt(t: string): (k: nat)
    ensures k <= |t| && OneLine(t[..k]) && (k < |t| ==> Boundary(t[k]))
  {
    if t == "" || Boundary(t[0]) then 0
    else
      var k := BreakAt(t[1..]) + 1;
      assert forall i :: 0 < i < k ==> t[..k][i] == t[1..][..k - 1][i - 1];
      k
  }

  function SplitLines(t: string): seq<string> {
    if t == "" then []
    else
      var k := BreakAt(t);
      if k == |t| then [t]
      else if t[k] == '\r' && k + 1 < |t| && t[k + 1] == '\n' then [t[..k]] + SplitLines(t[k + 2..])
      else [t[..k]] + SplitLines(t[k + 1..])
  }

  function Text(lines: seq<string>): string {
    if lines == [] then "" else lines[0] + "\n" + Text(lines[1..])
  }

  lemma {:induction false} BreakAfter(line: string, rest: string)
    requires OneLine(line)
    ensures BreakAt(line + "\n" + rest) == |line|
  {
    if line != "" {
      assert (line + "\n" + rest)[1..] == line[1..] + "\n" + rest;
      BreakAfter(line[1..], rest);
    } else {
      assert line + "\n" + rest == "\n" + rest;
    }
  }

  lemma {:induction false} SplitText(lines: seq<string>)
    requires forall i :: 0 <= i < |lines| ==> OneLine(lines[i])
    ensures SplitLines(Text(lines)) == lines
  {
    if lines != [] {
      var rest := Text(lines[1..]);
      BreakAfter(lines[0], rest);
      assert Text(lines)[..|lines[0]|] == lines[0] && Text(lines)[|lines[0]| + 1..] == rest;
      SplitText(lines[1..]);
    }
  }

  function StripLeft(s: string): string { if s != "" && Space(s[0]) then StripLeft(s[1..]) else s }

  function StripRight(s: string): string {
    if s != "" && Space(s[|s| - 1]) then StripRight(s[..|s| - 1]) else s
  }

  function Strip(s: string): string { StripRight(StripLeft(s)) }

  predicate Starts(s: string, p: string) { |p| <= |s| && s[..|p|] == p }

  // ------------------------------------------------------------------ numbers and hunk headers

  predicate Digit(c: char) { '0' <= c <= '9' }

  function Decimal(n: nat): (s: string)
    ensures s != "" && Digit(s[0]) && forall i :: 0 <= i < |s| ==> Digit(s[i])
  {
    var last := ['0' + (n % 10) as char];
    if n < 10 then last else Decimal(n / 10) + last
  }

  /** The longest run of digits, read after `acc`, and what follows it. */
  function ReadDigits(s: string, acc: nat): (nat, string) {
    if s != "" && Digit(s[0]) then ReadDigits(s[1..], acc * 10 + (s[0] as int - '0' as int)) else (acc, s)
  }

  lemma {:induction false} DecimalReads(n: nat, rest: string)
    ensures ReadDigits(Decimal(n) + rest, 0) == ReadDigits(rest, n)
  {
    var last := ['0' + (n % 10) as char];
    if n < 10 {
      assert (last + rest)[1..] == rest;
    } else {
      DecimalReads(n / 10, last + rest);
      assert Decimal(n) + rest == Decimal(n / 10) + (last + rest);
      assert (last + rest)[1..] == rest;
    }
  }

  /** `(\d+)(?:,(\d+))?`: start, count, and what follows. */
  function ReadRange(s: string): Option<(nat, nat, string)> {
    if s == "" || !Digit(s[0]) then None
    else
      var (start, more) := ReadDigits(s, 0);
      if |more| >= 2 && more[0] == ',' && Digit(more[1])
      then var (count, rest) := ReadDigits(more[1..], 0); Some((start, count, rest))
      else Some((start, 1, more))
  }

  function Range(start: nat, count: nat): string {
    if count == 1 then Decimal(start) else Decimal(start) + "," + Decimal(count)
  }

  lemma RangeReads(start: nat, count: nat, rest: string)
    requires rest != "" && rest[0] == ' '
    ensures ReadRange(Range(start, count) + rest) == Some((start, count, rest))
  {
    hide Decimal;
    if count == 1 {
      DecimalReads(start, rest);
    } else {
      var tail := Decimal(count) + rest;
      DecimalReads(start, "," + tail);
      DecimalReads(count, rest);
      assert Range(start, count) + rest == Decimal(start) + ("," + tail);
      assert ("," + tail)[1..] == tail;
    }
  }

  datatype Header = Header(oldStart: nat, oldCount: nat, newStart: nat)

  function ParseHunk(raw: string): Option<Header> {
    if !Starts(raw, "@@ -") then None
    else
      var left := ReadRange(raw[4..]);
      if left.None? || !Starts(left.value.2, " +") then None
      else
        var right := ReadRange(left.value.2[2..]);
        if right.None? || !Starts(right.value.2, " @@") then None
        else Some(Header(left.value.0, left.value.1, right.value.0))
  }

  function PrintHeader(oldStart: nat, oldCount: nat, newStart: nat, newCount: nat, section: string): string {
    "@@ -" + (Range(oldStart, oldCount) + (" +" + (Range(newStart, newCount) + (" @@" + section))))
  }

  lemma HeaderReads(oldStart: nat, oldCount: nat, newStart: nat, newCount: nat, section: string)
    ensures ParseHunk(PrintHeader(oldStart, oldCount, newStart, newCount, section))
            == Some(Header(oldStart, oldCount, newStart))
  {
    hide ReadRange, Range;
    var end := " @@" + section;
    var right := Range(newStart, newCount) + end;
    var mid := " +" + right;
    var left := Range(oldStart, oldCount) + mid;
    RangeReads(oldStart, oldCount, mid);
    RangeReads(newStart, newCount, end);
    assert ("@@ -" + left)[4..] == left && mid[2..] == right;
  }

  // ------------------------------------------------------------------ the parser

  datatype AddedLine = AddedLine(file: string, line: nat, content: string, isTest: bool)

  datatype Scan = Scan(file: string, lineno: nat, inHunk: bool, isNew: bool, lines: seq<AddedLine>, files: set<string>)

  function StripGitPrefix(path: string): string {
    if Starts(path, "a/") || Starts(path, "b/") then path[2..] else path
  }

  function BaseName(path: string): string {
    if path == "" || path[|path| - 1] == '/' then "" else BaseName(path[..|path| - 1]) + [path[|path| - 1]]
  }

  /** What follows the last slash. */
  lemma {:induction false} BaseNameIs(dir: string, name: string)
    requires '/' !in name && (dir == "" || dir[|dir| - 1] == '/')
    ensures BaseName(dir + name) == name
  {
    if name == "" {
      assert dir + name == dir;
    } else {
      assert (dir + name)[..|dir + name| - 1] == dir + name[..|name| - 1];
      BaseNameIs(dir, name[..|name| - 1]);
    }
  }

  /** A path is a test path if it lies in a directory `tests`, or if its file name says so. */
  lemma TestPaths(dir: string, rest: string)
    requires '/' !in rest && (dir == "" || dir[|dir| - 1] == '/')
    ensures IsTestPath("tests/" + rest) && IsTestPath(dir + "/tests/" + rest)
    ensures IsTestPath(dir + ("test_" + rest + ".py")) && IsTestPath(dir + (rest + "_test.py"))
  {
    var inner := dir + "/tests/" + rest;
    assert inner[|dir|..|dir| + 7] == "/tests/";
    assert Redaction.At(inner, "/tests/", |dir|);
    assert ("tests/" + rest)[..6] == "tests/";
    BaseNameIs(dir, "test_" + rest + ".py");
    BaseNameIs(dir, rest + "_test.py");
    assert ("test_" + rest + ".py")[..5] == "test_" && ("test_" + rest + ".py")[5 + |rest|..] == ".py";
    assert (rest + "_test.py")[|rest|..] == "_test.py";
  }

  predicate Ends(s: string, p: string) { |p| <= |s| && s[|s| - |p|..] == p }

  predicate IsTestPath(path: string) {
    Redaction.Find(path, "/tests/") != -1 || Starts(path, "tests/")
    || (Starts(BaseName(path), "test_") && Ends(BaseName(path), ".py")) || Ends(BaseName(path), "_test.py")
  }

  /** The last word of a line: what follows its last whitespace. */
  function LastWord(s: string): string {
    if s == "" || Space(s[|s| - 1]) then "" else LastWord(s[..|s| - 1]) + [s[|s| - 1]]
  }

  /** `re.search(r" b/(\S+)$", raw)`. */
  function GitPath(raw: string): Option<string> {
    var w := LastWord(raw);
    if |w| < |raw| && raw[|raw| - |w| - 1] == ' ' && Starts(w, "b/") && |w| > 2 then Some(w[2..]) else None
  }

  function Insert(files: set<string>, file: string): set<string> { if file == "" then files else files + {file} }

  lemma {:induction false} LastWordEnds(s: string)
    ensures var (w, n) := (LastWord(s), |s| - |LastWord(s)|);
            n >= 0 && s[n..] == w && Wordy(w) && (n > 0 ==> Space(s[n - 1]))
  {
    hide Space;
    if s != "" && !Space(s[|s| - 1]) {
      LastWordEnds(s[..|s| - 1]);
      var n := |s| - |LastWord(s)|;
      assert s[n..] == s[..|s| - 1][n..] + [s[|s| - 1]];
    }
  }

  /** One line of the diff. */
  function Step(s: Scan, raw: string): Scan {
    if raw == "" then s.(inHunk := false)
    else if Starts(raw, "diff --git") then
      var m := GitPath(raw);
      s.(inHunk := false, isNew := false, file := if m.Some? then StripGitPrefix(m.value) else s.file)
    else if !s.inHunk && Starts(raw, "new file mode") then s.(isNew := true, files := Insert(s.files, s.file))
    else if !s.inHunk && Starts(raw, "--- ") then
      var source := Strip(raw[4..]);
      if source == "/dev/null" then s.(isNew := true) else s.(file := StripGitPrefix(source))
    else if !s.inHunk && Starts(raw, "+++ ") then
      var target := Strip(raw[4..]);
      var f := if target != "/dev/null" then StripGitPrefix(target) else s.file;
      s.(file := f, files := if s.isNew then Insert(s.files, f) else s.files)
    else
      var m := ParseHunk(raw);
      if m.Some? then
        s.(inHunk := true, lineno := m.value.newStart,
           files := if m.value.oldStart == 0 && m.value.oldCount == 0 then Insert(s.files, s.file) else s.files)
      else if !s.inHunk then s
      else if raw[0] == '+' then
        s.(lines := s.lines + [AddedLine(s.file, s.lineno, raw[1..], IsTestPath(s.file))], lineno := s.lineno + 1)
      else if raw[0] == '-' || raw[0] == '\\' then s
      else s.(lineno := s.lineno + 1)
  }

  function Run(s: Scan, raws: seq<string>): Scan
    decreases |raws|
  {
    if raws == [] then s else Run(Step(s, raws[0]), raws[1..])
  }

  /** A file without a name is never recorded. */
  lemma {:induction false} NoUnnamedFile(s: Scan, raws: seq<string>)
    requires "" !in s.files
    ensures "" !in Run(s, raws).files
    decreases |raws|
  {
    hide Starts, ParseHunk, GitPath, IsTestPath, Strip, StripGitPrefix;
    if raws != [] { NoUnnamedFile(Step(s, raws[0]), raws[1..]); }
  }

  const START := Scan("", 0, false, false, [], {})

  method ParseDiff(text: string) returns (lines: seq<AddedLine>, files: set<string>)
    ensures var s := Run(START, SplitLines(text)); lines == s.lines && files == s.files
  {
    var raws := SplitLines(text);
    var s := START;
    for i := 0 to |raws|
      invariant Run(START, raws) == Run(s, raws[i..])
    {
      s := Step(s, raws[i]);
      assert raws[i..][1..] == raws[i + 1..];
    }
    return s.lines, s.files;
  }

  lemma {:induction false} RunConcat(s: Scan, a: seq<string>, b: seq<string>)
    ensures Run(s, a + b) == Run(Run(s, a), b)
    decreases |a|
  {
    if a == [] {
      assert a + b == b;
    } else {
      assert (a + b)[1..] == a[1..] + b;
      RunConcat(Step(s, a[0]), a[1..], b);
    }
  }

  // ------------------------------------------------------------------ diffs and their printed form

  datatype Line = Context(text: string) | Added(text: string) | Removed(text: string) | NoNewline

  datatype Hunk = Hunk(oldStart: nat, newStart: nat, section: string, lines: seq<Line>)

  datatype Change = Modified | Created | Deleted | Renamed(source: string)

  /** The changes of one file; `noise` are header lines such as `index`, `similarity` or `rename from`. */
  datatype Patch = Patch(path: string, change: Change, noise: seq<string>, hunks: seq<Hunk>)

  /** The name of the file on the old side. */
  function OldPath(p: Patch): string { if p.change.Renamed? then p.change.source else p.path }

  function OldSide(ls: seq<Line>): seq<string> {
    if ls == [] then []
    else (if ls[0].Context? || ls[0].Removed? then [ls[0].text] else []) + OldSide(ls[1..])
  }

  function NewSide(ls: seq<Line>): seq<string> {
    if ls == [] then []
    else (if ls[0].Context? || ls[0].Added? then [ls[0].text] else []) + NewSide(ls[1..])
  }

  function PrintLine(l: Line): (s: string)
    ensures s != "" && s[0] in [' ', '+', '-', '\\']
  {
    match l
    case Context(t) => " " + t
    case Added(t) => "+" + t
    case Removed(t) => "-" + t
    case NoNewline => "\\ No newline at end of file"
  }

  function PrintLines(ls: seq<Line>): seq<string> {
    if ls == [] then [] else [PrintLine(ls[0])] + PrintLines(ls[1..])
  }

  function PrintHunk(h: Hunk): seq<string> {
    [PrintHeader(h.oldStart, |OldSide(h.lines)|, h.newStart, |NewSide(h.lines)|, h.section)] + PrintLines(h.lines)
  }

  function PrintHunks(hs: seq<Hunk>): seq<string> {
    if hs == [] then [] else PrintHunk(hs[0]) + PrintHunks(hs[1..])
  }

  /** What precedes the hunks: `git diff` headers, or the single line of the compare format. */
  function PrintHead(p: Patch, lite: bool): seq<string> {
    if lite then ["--- " + p.path]
    else
      ["diff --git a/" + OldPath(p) + " b/" + p.path]
      + ModeLine(p.change) + p.noise + NameLines(p)
  }

  function ModeLine(c: Change): seq<string> {
    match c
    case Created => ["new file mode 100644"]
    case Deleted => ["deleted file mode 100644"]
    case Modified => []
    case Renamed(_) => []
  }

  function NameLines(p: Patch): seq<string> {
    if p.hunks == [] then []
    else ["--- " + (if p.change.Created? then "/dev/null" else "a/" + OldPath(p)),
          "+++ " + (if p.change.Deleted? then "/dev/null" else "b/" + p.path)]
  }

  /** Patches of the compare format are joined by a blank line. */
  function PrintPatch(p: Patch, lite: bool): seq<string> {
    PrintHead(p, lite) + PrintHunks(p.hunks) + if lite then [""] else []
  }

  function Print(ps: seq<Patch>, lite: bool): seq<string> {
    if ps == [] then [] else PrintPatch(ps[0], lite) + Print(ps[1..], lite)
  }

  predicate Noise(s: string) {
    && s != "" && OneLine(s)
    && !Starts(s, "diff --git") && !Starts(s, "new file mode") && !Starts(s, "--- ") && !Starts(s, "+++ ")
    && !Starts(s, "@@ -")
  }

  /** A file path without whitespace. */
  predicate ValidPath(path: string) { path != "" && Wordy(path) && path[|path| - 1] != '/' && path != "/dev/null" }

  predicate ValidLine(l: Line) { l.NoNewline? || OneLine(l.text) }

  predicate ValidHunk(h: Hunk) {
    OneLine(h.section) && forall i :: 0 <= i < |h.lines| ==> ValidLine(h.lines[i])
  }

  predicate ValidPatch(p: Patch, lite: bool) {
    && ValidPath(p.path) && ValidPath(OldPath(p)) && (forall i :: 0 <= i < |p.noise| ==> Noise(p.noise[i]))
    && (forall i :: 0 <= i < |p.hunks| ==> ValidHunk(p.hunks[i]))
    && (lite ==> p.hunks != [])
    && (p.change.Deleted? ==> forall i :: 0 <= i < |p.hunks| ==> NewSide(p.hunks[i].lines) == [])
  }

  // ------------------------------------------------------------------ what the parser should report

  /** The added lines of a hunk body with their numbers on the new side. */
  function AddedOf(file: string, ls: seq<Line>, at: nat): seq<AddedLine> {
    if ls == [] then []
    else
      match ls[0]
      case Added(t) => [AddedLine(file, at, t, IsTestPath(file))] + AddedOf(file, ls[1..], at + 1)
      case Context(_) => AddedOf(file, ls[1..], at + 1)
      case _ => AddedOf(file, ls[1..], at)
  }

  function AddedIn(file: string, hs: seq<Hunk>): seq<AddedLine> {
    if hs == [] then [] else AddedOf(file, hs[0].lines, hs[0].newStart) + AddedIn(file, hs[1..])
  }

  /** A hunk with nothing before it and an empty old side. */
  predicate FromNothing(h: Hunk) { h.oldStart == 0 && OldSide(h.lines) == [] }

  predicate SomeFromNothing(hs: seq<Hunk>) { hs != [] && (FromNothing(hs[0]) || SomeFromNothing(hs[1..])) }

  /** The name the added lines of a patch are filed under. */
  function Seen(p: Patch, lite: bool): string { if lite then StripGitPrefix(p.path) else p.path }

  function CreatedBy(p: Patch, lite: bool): set<string> {
    (if !lite && p.change.Created?
     then {StripGitPrefix(p.path)} + (if p.hunks == [] then {} else {p.path}) else {})
    + if SomeFromNothing(p.hunks) then {Seen(p, lite)} else {}
  }

  function AllAdded(ps: seq<Patch>, lite: bool): seq<AddedLine> {
    if ps == [] then [] else AddedIn(Seen(ps[0], lite), ps[0].hunks) + AllAdded(ps[1..], lite)
  }

  function AllCreated(ps: seq<Patch>, lite: bool): set<string> {
    if ps == [] then {} else CreatedBy(ps[0], lite) + AllCreated(ps[1..], lite)
  }

  // ------------------------------------------------------------------ reading back what was printed

  lemma StepBody(s: Scan, l: Line)
    requires s.inHunk
    ensures Step(s, PrintLine(l)) ==
              match l
              case Added(t) =>
                s.(lines := s.lines + [AddedLine(s.file, s.lineno, t, IsTestPath(s.file))], lineno := s.lineno + 1)
              case Context(_) => s.(lineno := s.lineno + 1)
              case _ => s
  {
    var raw := PrintLine(l);
    NotStarts(raw, "diff --git");
    NotStarts(raw, "@@ -");
    if !l.NoNewline? { assert raw[1..] == l.text; }
  }

  lemma {:induction false} RunLines(s: Scan, ls: seq<Line>)
    requires s.inHunk
    ensures Run(s, PrintLines(ls))
            == s.(lines := s.lines + AddedOf(s.file, ls, s.lineno), lineno := s.lineno + |NewSide(ls)|)
    decreases |ls|
  {
    hide Step, IsTestPath;
    if ls != [] {
      StepBody(s, ls[0]);
      RunLines(Step(s, PrintLine(ls[0])), ls[1..]);
    }
  }

  lemma {:induction false} RunHunk(s: Scan, h: Hunk)
    requires s.file != ""
    ensures Run(s, PrintHunk(h))
            == s.(inHunk := true, lineno := h.newStart + |NewSide(h.lines)|,
                  lines := s.lines + AddedOf(s.file, h.lines, h.newStart),
                  files := if FromNothing(h) then s.files + {s.file} else s.files)
  {
    var o, n := |OldSide(h.lines)|, |NewSide(h.lines)|;
    var raw := PrintHeader(h.oldStart, o, h.newStart, n, h.section);
    StepHeader(s, h.oldStart, o, h.newStart, n, h.section);
    assert PrintHunk(h)[1..] == PrintLines(h.lines);
    RunLines(Step(s, raw), h.lines);
  }

  lemma StepHeader(s: Scan, o: nat, oc: nat, n: nat, nc: nat, section: string)
    requires s.file != ""
    ensures Step(s, PrintHeader(o, oc, n, nc, section))
            == s.(inHunk := true, lineno := n, files := if o == 0 && oc == 0 then s.files + {s.file} else s.files)
  {
    hide Range, ParseHunk;
    HeaderReads(o, oc, n, nc, section);
    var raw := PrintHeader(o, oc, n, nc, section);
    assert raw[0] == '@';
    NotStarts(raw, "diff --git");
    NotStarts(raw, "new file mode");
    NotStarts(raw, "--- ");
    NotStarts(raw, "+++ ");
  }

  lemma NotStarts(s: string, p: string)
    requires s != "" && p != "" && s[0] != p[0]
    ensures !Starts(s, p)
  {
    if |p| <= |s| { assert s[..|p|][0] == s[0]; }
  }

  lemma {:induction false} RunHunks(s: Scan, hs: seq<Hunk>)
    requires s.file != ""
    ensures var r := Run(s, PrintHunks(hs));
            && r.lines == s.lines + AddedIn(s.file, hs) && r.file == s.file
            && r.files == (if SomeFromNothing(hs) then s.files + {s.file} else s.files)
    decreases |hs|
  {
    hide Step, PrintHunk, FromNothing, AddedOf;
    if hs != [] {
      RunConcat(s, PrintHunk(hs[0]), PrintHunks(hs[1..]));
      RunHunk(s, hs[0]);
      RunHunks(Run(s, PrintHunk(hs[0])), hs[1..]);
    }
  }

  lemma StripWordy(s: string)
    requires s != "" && Wordy(s)
    ensures Strip(s) == s
  {
  }

  lemma StepSource(s: Scan, name: string)
    requires !s.inHunk && name != "" && Wordy(name)
    ensures Step(s, "--- " + name)
            == if name == "/dev/null" then s.(isNew := true) else s.(file := StripGitPrefix(name))
  {
    var raw := "--- " + name;
    NotStarts(raw, "diff --git");
    NotStarts(raw, "new file mode");
    assert raw[4..] == name && Starts(raw, "--- ");
    StripWordy(name);
  }

  lemma StepTarget(s: Scan, name: string)
    requires !s.inHunk && name != "" && Wordy(name)
    ensures var f := if name == "/dev/null" then s.file else StripGitPrefix(name);
            Step(s, "+++ " + name) == s.(file := f, files := if s.isNew then Insert(s.files, f) else s.files)
  {
    var raw := "+++ " + name;
    NotStarts(raw, "diff --git");
    NotStarts(raw, "new file mode");
    NotStarts(raw, "--- ");
    assert raw[4..] == name && Starts(raw, "+++ ");
    StripWordy(name);
  }

  lemma {:induction false} LastWordIs(pre: string, w: string)
    requires Wordy(w)
    ensures LastWord(pre + " " + w) == w
    decreases |w|
  {
    if w == "" {
      assert pre + " " + w == pre + " ";
    } else {
      var n := |w| - 1;
      assert (pre + " " + w)[..|pre| + 1 + n] == pre + " " + w[..n];
      LastWordIs(pre, w[..n]);
    }
  }

  /** The git header names a path exactly if it ends in a blank, `b/` and a path without blanks. */
  lemma GitPathExactly(raw: string, path: string)
    ensures GitPath(raw) == Some(path) <==> path != "" && Wordy(path) && Ends(raw, " b/" + path)
  {
    hide LastWord;
    LastWordEnds(raw);
    if path != "" && Wordy(path) && Ends(raw, " b/" + path) {
      var pre, w := raw[..|raw| - |path| - 3], "b/" + path;
      assert raw == pre + " " + w;
      LastWordIs(pre, w);
      assert w[2..] == path && Starts(w, "b/");
    }
    if GitPath(raw) == Some(path) {
      var n := |raw| - |LastWord(raw)|;
      assert raw[n - 1..] == [raw[n - 1]] + raw[n..] == " b/" + path;
    }
  }

  lemma StepGit(s: Scan, source: string, path: string)
    requires ValidPath(path)
    ensures Step(s, "diff --git a/" + source + " b/" + path)
            == s.(inHunk := false, isNew := false, file := StripGitPrefix(path))
  {
    var w := "b/" + path;
    var pre := "diff --git a/" + source;
    var raw := "diff --git a/" + source + " b/" + path;
    assert raw == pre + " " + w;
    LastWordIs(pre, w);
    assert w[2..] == path && raw[|raw| - |w| - 1] == ' ';
    assert raw[..10] == "diff --git";
  }

  lemma StepNoise(s: Scan, raw: string)
    requires Noise(raw) && !s.inHunk
    ensures Step(s, raw) == s
  {
  }

  lemma {:induction false} RunNoise(s: Scan, raws: seq<string>)
    requires !s.inHunk && forall i :: 0 <= i < |raws| ==> Noise(raws[i])
    ensures Run(s, raws) == s
    decreases |raws|
  {
    hide Step, Noise;
    if raws != [] {
      StepNoise(s, raws[0]);
      RunNoise(s, raws[1..]);
    }
  }

  /** After the header of a patch: out of any hunk, the file is named, and a created file is on record. */
  lemma RunHead(s: Scan, p: Patch, lite: bool)
    requires ValidPatch(p, lite) && (lite ==> !s.inHunk)
    ensures var r := Run(s, PrintHead(p, lite));
            && !r.inHunk && r.lines == s.lines
            && (p.hunks != [] ==> r.file == Seen(p, lite))
            && r.files == s.files + (if !lite && p.change.Created?
                                     then {StripGitPrefix(p.path)} + (if p.hunks == [] then {} else {p.path}) else {})
  {
    if lite {
      StepSource(s, p.path);
      assert PrintHead(p, lite)[1..] == [];
    } else {
      RunGitHead(s, p);
    }
  }

  lemma RunMode(s: Scan, c: Change)
    requires !s.inHunk && s.file != ""
    ensures Run(s, ModeLine(c)) == if c.Created? then s.(isNew := true, files := s.files + {s.file}) else s
  {
    if c.Created? {
      var raw := "new file mode 100644";
      NotStarts(raw, "diff --git");
      assert raw[..13] == "new file mode";
      assert ModeLine(c)[1..] == [];
    } else if c.Deleted? {
      var raw := "deleted file mode 100644";
      assert raw[1] != "diff --git"[1];
      assert !Starts(raw, "diff --git") by { assert raw[..10][1] == raw[1]; }
      NotStarts(raw, "new file mode");
      NotStarts(raw, "--- ");
      NotStarts(raw, "+++ ");
      NotStarts(raw, "@@ -");
      assert ModeLine(c)[1..] == [];
    }
  }

  lemma RunNames(s: Scan, p: Patch)
    requires ValidPath(p.path) && ValidPath(OldPath(p)) && !s.inHunk && s.file != "" && s.isNew == p.change.Created?
    ensures var r := Run(s, NameLines(p));
            && !r.inHunk && r.lines == s.lines
            && (p.hunks != [] ==> r.file == p.path)
            && r.files == s.files + (if p.change.Created? && p.hunks != [] then {p.path} else {})
  {
    hide Step, Wordy;
    if p.hunks != [] {
      var from := if p.change.Created? then "/dev/null" else "a/" + OldPath(p);
      var to := if p.change.Deleted? then "/dev/null" else "b/" + p.path;
      Prefixed(p.path);
      Prefixed(OldPath(p));
      StepSource(s, from);
      var s1 := Step(s, "--- " + from);
      StepTarget(s1, to);
      assert NameLines(p) == ["--- " + from, "+++ " + to];
      RunTwo(s, "--- " + from, "+++ " + to);
    }
  }

  lemma RunTwo(s: Scan, a: string, b: string)
    ensures Run(s, [a, b]) == Step(Step(s, a), b)
  {
    hide Step;
    var t := Step(s, a);
    assert [a, b][1..] == [b] && [b][1..] == [];
    assert Run(t, [b]) == Run(Step(t, b), []);
  }

  lemma Prefixed(path: string)
    requires ValidPath(path)
    ensures StripGitPrefix("a/" + path) == path && StripGitPrefix("b/" + path) == path
    ensures Wordy("a/" + path) && Wordy("b/" + path) && Wordy("/dev/null")
    ensures "a/" + path != "/dev/null" && "b/" + path != "/dev/null"
  {
    hide Space;
    assert ("a/" + path)[..2] == "a/" && ("b/" + path)[..2] == "b/";
    assert ("a/" + path)[2..] == path && ("b/" + path)[2..] == path;
    assert ("a/" + path)[0] == 'a' && ("b/" + path)[0] == 'b' && "/dev/null"[0] == '/';
    NotStarts("b/" + path, "a/");
    PlainChars();
  }

  lemma PlainChars()
    ensures !Space('a') && !Space('b') && !Space('/') && Wordy("/dev/null")
  {
  }

  lemma RunGitHead(s: Scan, p: Patch)
    requires ValidPatch(p, false)
    ensures var r := Run(s, PrintHead(p, false));
            && !r.inHunk && r.lines == s.lines
            && (p.hunks != [] ==> r.file == p.path)
            && r.files == s.files + (if p.change.Created?
                                     then {StripGitPrefix(p.path)} + (if p.hunks == [] then {} else {p.path}) else {})
  {
    hide Step, Starts, Wordy, Noise, ParseHunk;
    var first := ["diff --git a/" + OldPath(p) + " b/" + p.path];
    var mode, names := ModeLine(p.change), NameLines(p);
    assert PrintHead(p, false) == first + (mode + (p.noise + names));
    RunConcat(s, first, mode + (p.noise + names));
    StepGit(s, OldPath(p), p.path);
    assert first[1..] == [];
    var s1 := Run(s, first);
    assert s1 == s.(inHunk := false, isNew := false, file := StripGitPrefix(p.path));
    PrefixLeaves(p.path);
    RunConcat(s1, mode, p.noise + names);
    RunMode(s1, p.change);
    var s2 := Run(s1, mode);
    RunConcat(s2, p.noise, names);
    RunNoise(s2, p.noise);
    RunNames(s2, p);
  }

  lemma PrefixLeaves(path: string)
    requires ValidPath(path)
    ensures StripGitPrefix(path) != ""
  {
    if Starts(path, "a/") || Starts(path, "b/") { assert path[..2][1] == path[1]; }
  }

  lemma {:induction false} RunPatch(s: Scan, p: Patch, lite: bool)
    requires ValidPatch(p, lite) && (lite ==> !s.inHunk)
    ensures var r := Run(s, PrintPatch(p, lite));
            && r.lines == s.lines + AddedIn(Seen(p, lite), p.hunks)
            && r.files == s.files + CreatedBy(p, lite)
            && (lite ==> !r.inHunk)
  {
    hide Step, PrintHead, PrintHunks, StripGitPrefix, Wordy, FromNothing;
    var head, body, tail := PrintHead(p, lite), PrintHunks(p.hunks), if lite then [""] else [];
    assert PrintPatch(p, lite) == head + (body + tail);
    RunConcat(s, head, body + tail);
    RunHead(s, p, lite);
    var s1 := Run(s, head);
    RunConcat(s1, body, tail);
    if p.hunks == [] {
      assert body == [] by { EmptyBody(); }
    } else {
      SeenNonEmpty(p, lite);
      RunHunks(s1, p.hunks);
    }
    if lite { StepBlank(Run(s1, body)); assert tail[1..] == []; }
  }

  lemma EmptyBody()
    ensures PrintHunks([]) == []
  {
  }

  lemma SeenNonEmpty(p: Patch, lite: bool)
    requires ValidPatch(p, lite)
    ensures Seen(p, lite) != ""
  {
    PrefixLeaves(p.path);
  }

  lemma StepBlank(s: Scan)
    ensures Step(s, "") == s.(inHunk := false)
  {
  }

  lemma {:induction false} RunAll(s: Scan, ps: seq<Patch>, lite: bool)
    requires (forall i :: 0 <= i < |ps| ==> ValidPatch(ps[i], lite)) && (lite ==> !s.inHunk)
    ensures Run(s, Print(ps, lite)).lines == s.lines + AllAdded(ps, lite)
    ensures Run(s, Print(ps, lite)).files == s.files + AllCreated(ps, lite)
    decreases |ps|
  {
    hide Step, PrintPatch, ValidPatch, AddedIn, CreatedBy, Seen;
    if ps != [] {
      RunConcat(s, PrintPatch(ps[0], lite), Print(ps[1..], lite));
      RunPatch(s, ps[0], lite);
      RunAll(Run(s, PrintPatch(ps[0], lite)), ps[1..], lite);
    }
  }

  // ------------------------------------------------------------------ printed lines are lines

  ghost predicate AllOneLine(raws: seq<string>) { forall i :: 0 <= i < |raws| ==> OneLine(raws[i]) }

  lemma HeaderOneLine(o: nat, oc: nat, n: nat, nc: nat, section: string)
    requires OneLine(section)
    ensures OneLine(PrintHeader(o, oc, n, nc, section))
  {
    RangeOneLine(o, oc);
    RangeOneLine(n, nc);
    hide Range;
  }

  lemma RangeOneLine(start: nat, count: nat)
    ensures OneLine(Range(start, count))
  {
  }

  lemma {:induction false} LinesOneLine(ls: seq<Line>)
    requires forall i :: 0 <= i < |ls| ==> ValidLine(ls[i])
    ensures AllOneLine(PrintLines(ls))
  {
    if ls != [] { LinesOneLine(ls[1..]); }
  }

  lemma {:induction false} HunksOneLine(hs: seq<Hunk>)
    requires forall i :: 0 <= i < |hs| ==> ValidHunk(hs[i])
    ensures AllOneLine(PrintHunks(hs))
  {
    if hs != [] {
      HeaderOneLine(hs[0].oldStart, |OldSide(hs[0].lines)|, hs[0].newStart, |NewSide(hs[0].lines)|, hs[0].section);
      LinesOneLine(hs[0].lines);
      HunksOneLine(hs[1..]);
    }
  }

  lemma {:induction false} HeadOneLine(p: Patch, lite: bool)
    requires ValidPatch(p, lite)
    ensures AllOneLine(PrintHead(p, lite))
  {
    NamesOneLine(p);
    ModeOneLine(p.change);
    hide OneLine, ModeLine, NameLines;
  }

  lemma NamesOneLine(p: Patch)
    requires ValidPath(p.path) && ValidPath(OldPath(p))
    ensures OneLine("--- " + p.path) && OneLine("diff --git a/" + OldPath(p) + " b/" + p.path)
    ensures AllOneLine(NameLines(p))
  {
    hide Boundary;
    PlainHeads();
    PathOneLine(p.path);
    PathOneLine(OldPath(p));
    JoinOneLine("--- ", p.path);
    JoinOneLine("diff --git a/", OldPath(p));
    JoinOneLine("diff --git a/" + OldPath(p), " b/");
    JoinOneLine("diff --git a/" + OldPath(p) + " b/", p.path);
    JoinOneLine("--- a/", OldPath(p));
    JoinOneLine("+++ b/", p.path);
    assert "--- " + ("a/" + OldPath(p)) == "--- a/" + OldPath(p) && "+++ " + ("b/" + p.path) == "+++ b/" + p.path;
    hide OneLine;
  }

  lemma PathOneLine(path: string)
    requires ValidPath(path)
    ensures OneLine(path)
  {
  }

  lemma JoinOneLine(a: string, b: string)
    requires OneLine(a) && OneLine(b)
    ensures OneLine(a + b)
  {
  }

  lemma PlainHeads()
    ensures OneLine("--- ") && OneLine("diff --git a/") && OneLine(" b/") && OneLine("--- a/") && OneLine("+++ b/")
    ensures OneLine("--- /dev/null") && OneLine("+++ /dev/null")
    ensures "--- " + "/dev/null" == "--- /dev/null" && "+++ " + "/dev/null" == "+++ /dev/null"
  {
  }

  lemma ModeOneLine(c: Change)
    ensures AllOneLine(ModeLine(c))
  {
  }

  lemma {:induction false} PrintOneLine(ps: seq<Patch>, lite: bool)
    requires forall i :: 0 <= i < |ps| ==> ValidPatch(ps[i], lite)
    ensures AllOneLine(Print(ps, lite))
  {
    hide PrintHead, PrintHunks, OneLine;
    if ps != [] {
      HeadOneLine(ps[0], lite);
      HunksOneLine(ps[0].hunks);
      PrintOneLine(ps[1..], lite);
      assert AllOneLine(PrintPatch(ps[0], lite)) by { BlankOneLine(); }
    }
  }

  lemma BlankOneLine()
    ensures OneLine("")
  {
  }

  /** Parsing the text of a printed diff gives back its added lines, in order and with their numbers, and the
      files it creates, whatever the lines contain. */
  lemma {:induction false} ParsedIsPrinted(ps: seq<Patch>, lite: bool)
    requires forall i :: 0 <= i < |ps| ==> ValidPatch(ps[i], lite)
    ensures Run(START, SplitLines(Text(Print(ps, lite)))).lines == AllAdded(ps, lite)
    ensures Run(START, SplitLines(Text(Print(ps, lite)))).files == AllCreated(ps, lite)
  {
    PrintOneLine(ps, lite);
    SplitText(Print(ps, lite));
    RunAll(START, ps, lite);
  }

  lemma {:induction false} SplitOneLine(t: string)
    ensures AllOneLine(SplitLines(t))
    decreases |t|
  {
    if t != "" {
      var k := BreakAt(t);
      if k == |t| {
        assert t[..k] == t;
      } else if t[k] == '\r' && k + 1 < |t| && t[k + 1] == '\n' {
        SplitOneLine(t[k + 2..]);
      } else {
        SplitOneLine(t[k + 1..]);
      }
    }
  }

  ghost predicate ContentsOneLine(lines: seq<AddedLine>) { forall i :: 0 <= i < |lines| ==> OneLine(lines[i].content) }

  lemma {:induction false} RunContents(s: Scan, raws: seq<string>)
    requires ContentsOneLine(s.lines) && AllOneLine(raws)
    ensures ContentsOneLine(Run(s, raws).lines)
    decreases |raws|
  {
    if raws != [] {
      var raw := raws[0];
      assert OneLine(raw);
      if raw != "" { assert OneLine(raw[1..]); }
      StepContents(s, raw);
      RunContents(Step(s, raw), raws[1..]);
    }
  }

  lemma StepContents(s: Scan, raw: string)
    requires ContentsOneLine(s.lines) && OneLine(raw)
    ensures ContentsOneLine(Step(s, raw).lines)
  {
    hide Starts, ParseHunk, IsTestPath, GitPath, Strip;
    if raw != "" { assert OneLine(raw[1..]); }
  }

  /** The reported contents never hold a line boundary of `str.splitlines`. An added line with, say, a form feed
      in it is therefore never reported as it is: the condition on added lines in `ParsedIsPrinted` is needed. */
  lemma ReportedContents(text: string, ps: seq<Patch>, lite: bool)
    requires Run(START, SplitLines(text)).lines == AllAdded(ps, lite)
    ensures ContentsOneLine(AllAdded(ps, lite))
  {
    SplitOneLine(text);
    RunContents(START, SplitLines(text));
  }

  // ------------------------------------------------------------------ what the report says about the files

  function Before(start: nat, count: nat): int { if count == 0 then start else start - 1 }

  /** The hunks turn `before[o..]` into `after[n..]`: what lies between them is the same on both sides. */
  predicate Transforms(before: seq<string>, after: seq<string>, hs: seq<Hunk>, o: nat, n: nat)
    requires o <= |before| && n <= |after|
    decreases |hs|
  {
    if hs == [] then before[o..] == after[n..]
    else
      var (olds, news) := (OldSide(hs[0].lines), NewSide(hs[0].lines));
      var (i, j) := (Before(hs[0].oldStart, |olds|), Before(hs[0].newStart, |news|));
      && o <= i && i + |olds| <= |before| && n <= j && j + |news| <= |after|
      && before[o..i] == after[n..j] && before[i..i + |olds|] == olds && after[j..j + |news|] == news
      && Transforms(before, after, hs[1..], i + |olds|, j + |news|)
  }

  function RemovedIn(hs: seq<Hunk>): int {
    if hs == [] then 0
    else |OldSide(hs[0].lines)| - (|NewSide(hs[0].lines)| - |AddedOf("", hs[0].lines, 0)|) + RemovedIn(hs[1..])
  }

  /** The reported lines lie in `(low, high]`, in increasing order, and are lines of `after`. */
  ghost predicate Reports(lines: seq<AddedLine>, file: string, after: seq<string>, low: int, high: int) {
    && (forall k :: 0 <= k < |lines| ==>
          low < lines[k].line <= high && 1 <= lines[k].line <= |after| && lines[k].file == file
          && lines[k].content == after[lines[k].line - 1] && lines[k].isTest == IsTestPath(file))
    && forall k, m :: 0 <= k < m < |lines| ==> lines[k].line < lines[m].line
  }

  /** The new side of a hunk body is what the new file has from line `at` on. */
  predicate Fits(news: seq<string>, at: nat, after: seq<string>) {
    news != [] ==> 1 <= at && at - 1 + |news| <= |after| && forall k :: 0 <= k < |news| ==> after[at - 1 + k] == news[k]
  }

  lemma FitsRest(ls: seq<Line>, at: nat, after: seq<string>)
    requires ls != [] && Fits(NewSide(ls), at, after)
    ensures if ls[0].Context? || ls[0].Added?
            then 1 <= at <= |after| && after[at - 1] == ls[0].text && Fits(NewSide(ls[1..]), at + 1, after)
                 && |NewSide(ls)| == |NewSide(ls[1..])| + 1
            else Fits(NewSide(ls[1..]), at, after) && |NewSide(ls)| == |NewSide(ls[1..])|
  {
    var news, rest := NewSide(ls), NewSide(ls[1..]);
    if ls[0].Context? || ls[0].Added? {
      assert news == [ls[0].text] + rest;
      assert news[0] == ls[0].text;
      forall k | 0 <= k < |rest| ensures after[at + k] == rest[k] {
        assert news[k + 1] == rest[k] && after[at - 1 + (k + 1)] == news[k + 1];
      }
    } else {
      assert news == rest;
    }
  }

  lemma {:induction false} HunkReports(file: string, ls: seq<Line>, at: nat, after: seq<string>)
    requires Fits(NewSide(ls), at, after)
    ensures Reports(AddedOf(file, ls, at), file, after, at - 1, at - 1 + |NewSide(ls)|)
  {
    hide IsTestPath, Reports, Fits;
    if ls == [] {
      ReportsNothing(file, after, at - 1, at - 1);
    } else {
      FitsRest(ls, at, after);
      hide NewSide;
      if ls[0].Context? || ls[0].Added? {
        HunkReports(file, ls[1..], at + 1, after);
        var first := if ls[0].Added? then [AddedLine(file, at, ls[0].text, IsTestPath(file))] else [];
        ReportsOne(first, file, after, at);
        ReportsConcat(first, AddedOf(file, ls[1..], at + 1), file, after, at - 1, at, at, at + |NewSide(ls[1..])|);
        assert AddedOf(file, ls, at) == first + AddedOf(file, ls[1..], at + 1);
      } else {
        HunkReports(file, ls[1..], at, after);
      }
    }
  }

  lemma ReportsNothing(file: string, after: seq<string>, low: int, high: int)
    ensures Reports([], file, after, low, high)
  {
  }

  lemma ReportsOne(one: seq<AddedLine>, file: string, after: seq<string>, at: nat)
    requires 1 <= at <= |after| && (one == [] || one == [AddedLine(file, at, after[at - 1], IsTestPath(file))])
    ensures Reports(one, file, after, at - 1, at)
  {
    hide IsTestPath;
  }

  lemma ReportsConcat(a: seq<AddedLine>, b: seq<AddedLine>, file: string, after: seq<string>,
                      low: int, mid: int, mid': int, high: int)
    requires Reports(a, file, after, low, mid) && Reports(b, file, after, mid', high)
    requires low <= mid <= mid' <= high
    ensures Reports(a + b, file, after, low, high)
  {
    hide IsTestPath;
  }

  lemma {:induction false} AddedLength(f: string, g: string, ls: seq<Line>, i: nat, j: nat)
    ensures |AddedOf(f, ls, i)| == |AddedOf(g, ls, j)|
  {
    hide IsTestPath;
    if ls != [] {
      AddedLength(f, g, ls[1..], if ls[0].Context? || ls[0].Added? then i + 1 else i,
                  if ls[0].Context? || ls[0].Added? then j + 1 else j);
    }
  }

  lemma ReportsFrom(lines: seq<AddedLine>, file: string, after: seq<string>, start: nat, count: nat, n: int)
    requires Reports(lines, file, after, start - 1, start - 1 + count) && n <= Before(start, count)
    ensures Reports(lines, file, after, n, Before(start, count) + count)
  {
    hide IsTestPath;
  }

  /** Every reported line is the line of the new file at its number, each is reported once, and there are as many
      as the new file has over the lines kept from the old one: none is missed. */
  lemma {:induction false} ReportedAreNew(before: seq<string>, after: seq<string>, hs: seq<Hunk>, o: nat, n: nat,
                                          file: string)
    requires o <= |before| && n <= |after| && Transforms(before, after, hs, o, n)
    ensures Reports(AddedIn(file, hs), file, after, n, |after|)
    ensures |after| - n - |AddedIn(file, hs)| == |before| - o - RemovedIn(hs)
    decreases |hs|
  {
    hide IsTestPath, Reports, AddedOf, OldSide, NewSide;
    if hs != [] {
      var olds, news := OldSide(hs[0].lines), NewSide(hs[0].lines);
      var i, j := Before(hs[0].oldStart, |olds|), Before(hs[0].newStart, |news|);
      assert Fits(news, hs[0].newStart, after) by {
        assert forall k :: 0 <= k < |news| ==> after[j..j + |news|][k] == news[k];
      }
      HunkReports(file, hs[0].lines, hs[0].newStart, after);
      AddedLength(file, "", hs[0].lines, hs[0].newStart, 0);
      ReportedAreNew(before, after, hs[1..], i + |olds|, j + |news|, file);
      var first := AddedOf(file, hs[0].lines, hs[0].newStart);
      ReportsFrom(first, file, after, hs[0].newStart, |news|, n);
      ReportsConcat(first, AddedIn(file, hs[1..]), file, after, n, j + |news|, j + |news|, |after|);
      assert |before[o..i]| == |after[n..j]|;
    } else {
      ReportsNothing(file, after, n, |after|);
      assert |before[o..]| == |after[n..]|;
    }
  }

  /** A file created by a diff is reported whole, line by line. */
  lemma CreatedIsWhole(after: seq<string>, hs: seq<Hunk>, file: string)
    requires Transforms([], after, hs, 0, 0)
    ensures AddedIn(file, hs) == seq(|after|, i requires 0 <= i < |after| =>
                                                AddedLine(file, i + 1, after[i], IsTestPath(file)))
  {
    hide IsTestPath, Transforms, AddedIn, Reports;
    var lines := AddedIn(file, hs);
    ReportedAreNew([], after, hs, 0, 0, file);
    NothingRemoved(after, hs, 0, 0);
    forall i | 0 <= i < |lines| ensures lines[i] == AddedLine(file, i + 1, after[i], IsTestPath(file)) {
      Squeezed(lines, file, after, i);
    }
  }

  lemma {:induction false} NothingRemoved(after: seq<string>, hs: seq<Hunk>, o: nat, n: nat)
    requires o == 0 && n <= |after| && Transforms([], after, hs, o, n)
    ensures RemovedIn(hs) == 0
    ensures SomeFromNothing(hs) <==> hs != []
    decreases |hs|
  {
    if hs != [] {
      var olds, news := OldSide(hs[0].lines), NewSide(hs[0].lines);
      assert olds == [];
      OnlyAdded(hs[0].lines, 0);
      NothingRemoved(after, hs[1..], 0, Before(hs[0].newStart, |news|) + |news|);
    }
  }

  lemma {:induction false} OnlyAdded(ls: seq<Line>, at: nat)
    requires OldSide(ls) == []
    ensures |AddedOf("", ls, at)| == |NewSide(ls)|
  {
    hide IsTestPath;
    if ls != [] { OnlyAdded(ls[1..], if ls[0].Added? then at + 1 else at); }
  }

  lemma Squeezed(lines: seq<AddedLine>, file: string, after: seq<string>, i: nat)
    requires Reports(lines, file, after, 0, |after|) && |lines| == |after| && i < |lines|
    ensures lines[i] == AddedLine(file, i + 1, after[i], IsTestPath(file))
  {
    hide IsTestPath;
    RoomBelow(lines, file, after, i);
    RoomAbove(lines, file, after, i);
  }

  lemma {:induction false} RoomBelow(lines: seq<AddedLine>, file: string, after: seq<string>, i: nat)
    requires Reports(lines, file, after, 0, |after|) && i < |lines|
    ensures lines[i].line >= i + 1
  {
    if i > 0 { RoomBelow(lines, file, after, i - 1); assert lines[i - 1].line < lines[i].line; }
  }

  lemma {:induction false} RoomAbove(lines: seq<AddedLine>, file: string, after: seq<string>, i: nat)
    requires Reports(lines, file, after, 0, |after|) && i < |lines|
    ensures lines[i].line <= |after| - (|lines| - 1 - i)
    decreases |lines| - i
  {
    if i < |lines| - 1 { RoomAbove(lines, file, after, i + 1); assert lines[i].line < lines[i + 1].line; }
  }

  /** When the added-file set is right for one file: a created path must not start like a git prefix, and a file
      that is not created must have no hunk that begins before its first line with an empty old side. */
  lemma CreatedExactly(p: Patch, lite: bool, before: seq<string>, after: seq<string>)
    requires ValidPatch(p, lite) && Transforms(before, after, p.hunks, 0, 0) && (p.change.Created? ==> before == [])
    ensures CreatedBy(p, lite) == (if p.change.Created? then {p.path} else {}) <==>
            (if p.change.Created? then !Starts(p.path, "a/") && !Starts(p.path, "b/") else !SomeFromNothing(p.hunks))
  {
    hide Transforms, ValidHunk, Noise;
    var c := CreatedBy(p, lite);
    if p.change.Created? {
      NothingRemoved(after, p.hunks, 0, 0);
      if Starts(p.path, "a/") || Starts(p.path, "b/") {
        assert StripGitPrefix(p.path) in c;
        assert |StripGitPrefix(p.path)| < |p.path|;
      } else {
        assert c == {p.path};
      }
    } else if SomeFromNothing(p.hunks) {
      assert Seen(p, lite) in c;
    }
  }

  /** A modified file with something on the old side of each hunk is never taken for a created one. */
  lemma {:induction false} OldSidesShow(hs: seq<Hunk>)
    requires forall i :: 0 <= i < |hs| ==> OldSide(hs[i].lines) != []
    ensures !SomeFromNothing(hs)
  {
    if hs != [] { OldSidesShow(hs[1..]); }
  }

  // ------------------------------------------------------------------ a whole diff

  type FileSet = map<string, seq<string>>

  function LinesOf(files: FileSet, path: string): seq<string> { if path in files then files[path] else [] }

  /** The patch creates, deletes, modifies or renames its file, and its hunks turn the old lines into the new ones. */
  predicate PatchOf(p: Patch, before: FileSet, after: FileSet) {
    && (match p.change
        case Created => p.path !in before && p.path in after
        case Deleted => p.path in before && p.path !in after
        case Modified => p.path in before && p.path in after
        case Renamed(source) => source in before && source !in after && p.path !in before && p.path in after)
    && Transforms(LinesOf(before, OldPath(p)), LinesOf(after, p.path), p.hunks, 0, 0)
  }

  function Paths(ps: seq<Patch>): seq<string> { if ps == [] then [] else [ps[0].path] + Paths(ps[1..]) }

  /** The new names of the renamed files, and their old ones. */
  ghost function MovedTo(ps: seq<Patch>): set<string> {
    set i | 0 <= i < |ps| && ps[i].change.Renamed? :: ps[i].path
  }

  ghost function MovedFrom(ps: seq<Patch>): set<string> {
    set i | 0 <= i < |ps| && ps[i].change.Renamed? :: ps[i].change.source
  }

  /** The patches, one per path, turn the old files into the new ones; paths that no patch names stay as they are. */
  ghost predicate DiffOf(ps: seq<Patch>, before: FileSet, after: FileSet) {
    && NoDups(Paths(ps)) && (forall i :: 0 <= i < |ps| ==> PatchOf(ps[i], before, after))
    && forall f :: f in before.Keys + after.Keys && f !in Paths(ps) && f !in MovedFrom(ps) ==>
         f in before && f in after && before[f] == after[f]
  }

  /** Neither header makes the parser file the patch, or count it as created, under another name. */
  predicate Plain(p: Patch, lite: bool) {
    && (lite || p.change.Created? ==> !Starts(p.path, "a/") && !Starts(p.path, "b/"))
    && (!p.change.Created? ==> !SomeFromNothing(p.hunks))
  }

  /** The line of the new file at that number. */
  predicate Genuine(l: AddedLine, after: FileSet) {
    l.file in after && 1 <= l.line <= |after[l.file]| && after[l.file][l.line - 1] == l.content
    && l.isTest == IsTestPath(l.file)
  }

  function CountFor(lines: seq<AddedLine>, file: string): nat {
    if lines == [] then 0 else (if lines[0].file == file then 1 else 0) + CountFor(lines[1..], file)
  }

  lemma {:induction false} CountJoin(a: seq<AddedLine>, b: seq<AddedLine>, file: string)
    ensures CountFor(a + b, file) == CountFor(a, file) + CountFor(b, file)
  {
    if a == [] {
      assert a + b == b;
    } else {
      assert (a + b)[1..] == a[1..] + b;
      CountJoin(a[1..], b, file);
    }
  }

  lemma {:induction false} CountOne(a: seq<AddedLine>, name: string, file: string)
    requires forall k :: 0 <= k < |a| ==> a[k].file == name
    ensures CountFor(a, file) == if name == file then |a| else 0
  {
    if a != [] { CountOne(a[1..], name, file); }
  }

  lemma {:induction false} PathsAre(ps: seq<Patch>)
    ensures |Paths(ps)| == |ps| && forall i :: 0 <= i < |ps| ==> Paths(ps)[i] == ps[i].path
  {
    if ps != [] { PathsAre(ps[1..]); }
  }

  lemma RestDistinct(ps: seq<Patch>)
    requires ps != [] && NoDups(Paths(ps))
    ensures NoDups(Paths(ps[1..])) && ps[0].path !in Paths(ps[1..])
  {
    var first, rest := [ps[0].path], Paths(ps[1..]);
    assert Paths(ps) == first + rest;
    hide NoDups;
    NoDupsParts(first, rest);
    assert first[0] == ps[0].path;
  }

  /** The reports of all patches: genuine, of patched paths, in increasing order within each file, and as many for
      each file as its new lines outnumber the kept ones. */
  lemma {:induction false} AllReports(ps: seq<Patch>, lite: bool, before: FileSet, after: FileSet)
    requires NoDups(Paths(ps))
    requires forall i :: 0 <= i < |ps| ==>
               PatchOf(ps[i], before, after) && Plain(ps[i], lite) && ValidPatch(ps[i], lite)
    ensures var lines := AllAdded(ps, lite);
            && (forall k :: 0 <= k < |lines| ==> Genuine(lines[k], after) && lines[k].file in Paths(ps))
            && (forall k, m :: 0 <= k < m < |lines| ==> lines[k].file != lines[m].file || lines[k].line < lines[m].line)
            && (forall i :: 0 <= i < |ps| ==>
                  |LinesOf(after, ps[i].path)| - CountFor(lines, ps[i].path)
                  == |LinesOf(before, OldPath(ps[i]))| - RemovedIn(ps[i].hunks))
  {
    hide Plain, ValidPatch, Transforms, IsTestPath, AddedIn, RemovedIn, Genuine;
    if ps != [] {
      var path, first := ps[0].path, AddedIn(Seen(ps[0], lite), ps[0].hunks);
      var rest := AllAdded(ps[1..], lite);
      RestDistinct(ps);
      AllReports(ps[1..], lite, before, after);
      FirstReports(ps[0], lite, before, after);
      JoinReports(first, rest, path, Paths(ps[1..]), after);
      CountsJoin(ps, first, rest, path);
    }
  }

  lemma FirstReports(p: Patch, lite: bool, before: FileSet, after: FileSet)
    requires PatchOf(p, before, after) && Plain(p, lite) && ValidPatch(p, lite)
    ensures var lines := AddedIn(Seen(p, lite), p.hunks);
            && (forall k :: 0 <= k < |lines| ==> Genuine(lines[k], after) && lines[k].file == p.path)
            && (forall k, m :: 0 <= k < m < |lines| ==> lines[k].line < lines[m].line)
            && |LinesOf(after, p.path)| - |lines| == |LinesOf(before, OldPath(p))| - RemovedIn(p.hunks)
  {
    hide Transforms, IsTestPath, AddedIn, RemovedIn, ValidPatch, SomeFromNothing;
    ReportedAreNew(LinesOf(before, OldPath(p)), LinesOf(after, p.path), p.hunks, 0, 0, p.path);
  }

  lemma JoinReports(first: seq<AddedLine>, rest: seq<AddedLine>, path: string, paths: seq<string>, after: FileSet)
    requires path !in paths
    requires forall k :: 0 <= k < |first| ==> Genuine(first[k], after) && first[k].file == path
    requires forall k, m :: 0 <= k < m < |first| ==> first[k].line < first[m].line
    requires forall k :: 0 <= k < |rest| ==> Genuine(rest[k], after) && rest[k].file in paths
    requires forall k, m :: 0 <= k < m < |rest| ==> rest[k].file != rest[m].file || rest[k].line < rest[m].line
    ensures var lines := first + rest;
            && (forall k :: 0 <= k < |lines| ==> Genuine(lines[k], after) && lines[k].file in [path] + paths)
            && (forall k, m :: 0 <= k < m < |lines| ==> lines[k].file != lines[m].file || lines[k].line < lines[m].line)
  {
    hide Genuine;
  }

  lemma CountsJoin(ps: seq<Patch>, first: seq<AddedLine>, rest: seq<AddedLine>, path: string)
    requires ps != [] && path == ps[0].path && path !in Paths(ps[1..])
    requires forall k :: 0 <= k < |first| ==> first[k].file == path
    requires forall k :: 0 <= k < |rest| ==> rest[k].file in Paths(ps[1..])
    ensures CountFor(first + rest, path) == |first|
    ensures forall i :: 1 <= i < |ps| ==> CountFor(first + rest, ps[i].path) == CountFor(rest, ps[i].path)
  {
    PathsAre(ps[1..]);
    CountJoin(first, rest, path);
    CountOne(first, path, path);
    CountNone(rest, path);
    forall i | 1 <= i < |ps| ensures CountFor(first + rest, ps[i].path) == CountFor(rest, ps[i].path) {
      assert Paths(ps[1..])[i - 1] == ps[i].path;
      CountJoin(first, rest, ps[i].path);
      CountOne(first, path, ps[i].path);
    }
  }

  lemma {:induction false} CountNone(lines: seq<AddedLine>, file: string)
    requires forall k :: 0 <= k < |lines| ==> lines[k].file != file
    ensures CountFor(lines, file) == 0
  {
    if lines != [] { CountNone(lines[1..], file); }
  }

  lemma {:induction false} AllCreatedAre(ps: seq<Patch>, lite: bool, before: FileSet, after: FileSet)
    requires forall i :: 0 <= i < |ps| ==>
               PatchOf(ps[i], before, after) && Plain(ps[i], lite) && ValidPatch(ps[i], lite)
    ensures forall f :: f in AllCreated(ps, lite) <==>
                          exists i :: 0 <= i < |ps| && ps[i].path == f && ps[i].change.Created?
  {
    hide CreatedBy, Transforms, ValidPatch, Plain;
    if ps != [] {
      CreatedRight(ps[0], lite, before, after);
      AllCreatedAre(ps[1..], lite, before, after);
      assert forall i :: 0 < i < |ps| ==> ps[i] == ps[1..][i - 1];
    }
  }

  lemma CreatedRight(p: Patch, lite: bool, before: FileSet, after: FileSet)
    requires PatchOf(p, before, after) && Plain(p, lite) && ValidPatch(p, lite)
    ensures CreatedBy(p, lite) == if p.change.Created? then {p.path} else {}
  {
    CreatedExactly(p, lite, LinesOf(before, OldPath(p)), LinesOf(after, p.path));
  }

  /** For a printed diff that turns the files `before` into `after`: every reported line is the line of its new file
      at its number; no (file, line) is reported twice; for each patched file as many lines are reported as its new
      lines outnumber the ones kept of its old file, and none for other files; and the added files are exactly the
      new ones that are not a renamed old one. */
  lemma DiffReportsFiles(ps: seq<Patch>, lite: bool, before: FileSet, after: FileSet)
    requires DiffOf(ps, before, after) && forall i :: 0 <= i < |ps| ==> ValidPatch(ps[i], lite) && Plain(ps[i], lite)
    ensures var s := Run(START, SplitLines(Text(Print(ps, lite))));
            && (forall k :: 0 <= k < |s.lines| ==> Genuine(s.lines[k], after) && s.lines[k].file in Paths(ps))
            && (forall k, m :: 0 <= k < m < |s.lines| ==>
                  s.lines[k].file != s.lines[m].file || s.lines[k].line < s.lines[m].line)
            && (forall i :: 0 <= i < |ps| ==>
                  |LinesOf(after, ps[i].path)| - CountFor(s.lines, ps[i].path)
                  == |LinesOf(before, OldPath(ps[i]))| - RemovedIn(ps[i].hunks))
            && s.files == after.Keys - before.Keys - MovedTo(ps)
  {
    hide Run, SplitLines, Print, Text, ValidPatch, Plain, Genuine, CountFor, RemovedIn, Transforms, AllAdded,
      AllCreated;
    ParsedIsPrinted(ps, lite);
    AllReports(ps, lite, before, after);
    AllCreatedAre(ps, lite, before, after);
    PathsAre(ps);
    CreatedKeys(ps, before, after);
  }

  lemma DistinctPaths(ps: seq<Patch>, i: nat, j: nat)
    requires NoDups(Paths(ps)) && i < |ps| && j < |ps| && ps[i].path == ps[j].path
    ensures i == j
  {
    PathsAre(ps);
    assert Paths(ps)[i] == Paths(ps)[j];
  }

  /** A path has at most one patch, so one that is created is not renamed to. */
  lemma CreatedNotMoved(ps: seq<Patch>, i: nat)
    requires NoDups(Paths(ps)) && i < |ps| && ps[i].change.Created?
    ensures ps[i].path !in MovedTo(ps)
  {
    hide NoDups, Paths;
    forall j | 0 <= j < |ps| && ps[j].path == ps[i].path ensures i == j { DistinctPaths(ps, i, j); }
  }

  lemma MovedAreGone(ps: seq<Patch>, before: FileSet, after: FileSet)
    requires DiffOf(ps, before, after)
    ensures forall f :: f in MovedFrom(ps) ==> f in before && f !in after
  {
    hide Transforms, NoDups, Paths;
    forall i | 0 <= i < |ps| && ps[i].change.Renamed? ensures ps[i].change.source in before.Keys - after.Keys {
      assert PatchOf(ps[i], before, after);
    }
  }

  lemma MovedIn(ps: seq<Patch>, i: nat)
    requires i < |ps|
    ensures ps[i].change.Renamed? ==> ps[i].path in MovedTo(ps)
  {
  }

  lemma CreatedKeys(ps: seq<Patch>, before: FileSet, after: FileSet)
    requires DiffOf(ps, before, after)
    ensures forall f :: f in after.Keys - before.Keys - MovedTo(ps) <==>
                          exists i :: 0 <= i < |ps| && ps[i].path == f && ps[i].change.Created?
  {
    hide Transforms, NoDups, MovedTo;
    PathsAre(ps);
    MovedAreGone(ps, before, after);
    forall i | 0 <= i < |ps| && ps[i].change.Created? ensures ps[i].path in after.Keys - before.Keys - MovedTo(ps) {
      assert PatchOf(ps[i], before, after);
      CreatedNotMoved(ps, i);
    }
    forall f | f in after.Keys - before.Keys - MovedTo(ps)
      ensures exists i :: 0 <= i < |ps| && ps[i].path == f && ps[i].change.Created?
    {
      assert f in Paths(ps);
      var i :| 0 <= i < |Paths(ps)| && Paths(ps)[i] == f;
      assert PatchOf(ps[i], before, after) && ps[i].path == f;
      MovedIn(ps, i);
    }
  }

  // ------------------------------------------------------------------ the lint

  datatype Check = SlopPhrase | JunkFile | CommentOnlyDiff

  datatype Finding = Finding(check: Check, file: string, line: Option<nat>, detail: string)

  datatype Verdict = Pass | Fail

  function Lower(s: string): string {
    if s == "" then "" else [if 'A' <= s[0] <= 'Z' then s[0] + ('a' - 'A') else s[0]] + Lower(s[1..])
  }

  predicate Mentions(content: string, phrase: string) { Redaction.Find(Lower(content), Lower(phrase)) != -1 }

  function LowerChar(c: char): char { if 'A' <= c <= 'Z' then c + ('a' - 'A') else c }

  lemma {:induction false} LowerIs(s: string)
    ensures |Lower(s)| == |s| && forall i :: 0 <= i < |s| ==> Lower(s)[i] == LowerChar(s[i])
  {
    if s != "" { LowerIs(s[1..]); }
  }

  /** From position `i` on, the content reads as the phrase, in whatever case. */
  predicate ReadsAs(content: string, phrase: string, i: int) {
    && 0 <= i <= |content| - |phrase|
    && forall k :: 0 <= k < |phrase| ==> LowerChar(content[i + k]) == LowerChar(phrase[k])
  }

  lemma MentionsExactly(content: string, phrase: string)
    ensures Mentions(content, phrase) <==> exists i :: ReadsAs(content, phrase, i)
  {
    var c, p := Lower(content), Lower(phrase);
    forall i ensures Redaction.At(c, p, i) <==> ReadsAs(content, phrase, i) { ReadsLowered(content, phrase, i); }
    hide ReadsAs, Lower, Redaction.At;
    if Redaction.Find(c, p) != -1 { assert ReadsAs(content, phrase, Redaction.Find(c, p)); }
  }

  lemma ReadsLowered(content: string, phrase: string, i: int)
    ensures Redaction.At(Lower(content), Lower(phrase), i) <==> ReadsAs(content, phrase, i)
  {
    LowerIs(content);
    LowerIs(phrase);
    hide Lower, LowerChar;
    var c, p := Lower(content), Lower(phrase);
    if 0 <= i <= |c| - |p| {
      var cut := c[i..i + |p|];
      assert cut == p <==> forall k :: 0 <= k < |p| ==> cut[k] == p[k];
      assert forall k :: 0 <= k < |p| ==> cut[k] == LowerChar(content[i + k]) && p[k] == LowerChar(phrase[k]);
    }
  }

  lemma {:induction false} StripLeading(blanks: string, s: string)
    requires forall i :: 0 <= i < |blanks| ==> Space(blanks[i])
    ensures StripLeft(blanks + s) == StripLeft(s)
  {
    hide Space;
    if blanks == "" {
      assert blanks + s == s;
    } else {
      assert (blanks + s)[1..] == blanks[1..] + s;
      StripLeading(blanks[1..], s);
    }
  }

  lemma {:induction false} StripKeeps(m: string, rest: string)
    requires m != "" && !Space(m[|m| - 1])
    ensures m <= StripRight(m + rest)
  {
    hide Space;
    if rest == "" {
      assert m + rest == m;
    } else if Space(rest[|rest| - 1]) {
      assert (m + rest)[..|m + rest| - 1] == m + rest[..|rest| - 1];
      StripKeeps(m, rest[..|rest| - 1]);
    }
  }

  lemma {:induction false} StripTrailing(m: string, blanks: string)
    requires m == "" || !Space(m[|m| - 1])
    requires forall i :: 0 <= i < |blanks| ==> Space(blanks[i])
    ensures StripRight(m + blanks) == m
  {
    hide Space;
    if blanks == "" {
      assert m + blanks == m;
    } else {
      assert (m + blanks)[..|m + blanks| - 1] == m + blanks[..|blanks| - 1];
      StripTrailing(m, blanks[..|blanks| - 1]);
    }
  }

  /** Blanks around the path of a file header make no difference. */
  lemma HeaderBlanks(s: Scan, head: string, before: string, path: string, after: string)
    requires !s.inHunk && head in {"--- ", "+++ "}
    requires forall i :: 0 <= i < |before| ==> Space(before[i])
    requires forall i :: 0 <= i < |after| ==> Space(after[i])
    requires path != "" && !Space(path[0]) && !Space(path[|path| - 1])
    ensures Step(s, head + (before + (path + after))) == Step(s, head + path)
  {
    StripLeading(before, path + after);
    StripTrailing(path, after);
    StripTrailing(path, "");
    hide Space, StripRight, StripLeft;
    assert path + "" == path;
    assert StripLeft(path + after) == path + after by { NotBlankFirst(path + after); }
    assert StripLeft(path) == path by { NotBlankFirst(path); }
    ReadsHeader(s, head, before + (path + after));
    ReadsHeader(s, head, path);
  }

  lemma NotBlankFirst(s: string)
    requires s != "" && !Space(s[0])
    ensures StripLeft(s) == s
  {
  }

  lemma ReadsHeader(s: Scan, head: string, rest: string)
    requires !s.inHunk && head in {"--- ", "+++ "}
    ensures var name := Strip(rest);
            Step(s, head + rest)
            == if head == "--- " then
                 (if name == "/dev/null" then s.(isNew := true) else s.(file := StripGitPrefix(name)))
               else
                 var f := if name != "/dev/null" then StripGitPrefix(name) else s.file;
                 s.(file := f, files := if s.isNew then Insert(s.files, f) else s.files)
  {
    hide Strip, StripGitPrefix, Insert;
    var raw := head + rest;
    NotStarts(raw, "diff --git");
    NotStarts(raw, "new file mode");
    assert raw[..4] == head && raw[4..] == rest;
    if head == "+++ " { NotStarts(raw, "--- "); }
  }

  /** Indented or not, a line that begins with a comment marker counts as a comment, and so does a blank one. */
  lemma CommentsCount(blanks: string, marker: string, rest: string)
    requires forall i :: 0 <= i < |blanks| ==> Space(blanks[i])
    requires marker in {"#", "//", "/*", "*", "--", "<!--"}
    ensures CommentOrBlank(blanks) && CommentOrBlank(blanks + marker + rest)
  {
    MarkersArePlain(marker);
    hide Space, Starts;
    assert blanks + "" == blanks && blanks + marker + rest == blanks + (marker + rest);
    StripLeading(blanks, "");
    StripLeading(blanks, marker + rest);
    assert StripLeft(marker + rest) == marker + rest;
    StripKeeps(marker, rest);
    StartsIs(Strip(blanks + marker + rest), marker);
  }

  lemma StartsIs(s: string, p: string)
    ensures Starts(s, p) <==> p <= s
  {
  }

  lemma MarkersArePlain(marker: string)
    requires marker in {"#", "//", "/*", "*", "--", "<!--"}
    ensures marker != "" && !Space(marker[0]) && !Space(marker[|marker| - 1])
  {
  }

  /** Code that begins with none of the markers does not count. */
  lemma CodeDoesNot(blanks: string, code: string)
    requires forall i :: 0 <= i < |blanks| ==> Space(blanks[i])
    requires code != "" && !Space(code[0]) && code[0] !in "#/*-<"
    ensures !CommentOrBlank(blanks + code)
  {
    hide Space;
    StripLeading(blanks, code);
    StripKeeps(code[..1], code[1..]);
    assert code == code[..1] + code[1..];
    var s := Strip(blanks + code);
    assert s != "" && s[0] == code[0];
    NotStarts(s, "#");
    NotStarts(s, "//");
    NotStarts(s, "/*");
    NotStarts(s, "*");
    NotStarts(s, "--");
    NotStarts(s, "<!--");
  }

  predicate CommentOrBlank(content: string) {
    var s := Strip(content);
    || s == "" || Starts(s, "#") || Starts(s, "//") || Starts(s, "/*") || Starts(s, "*") || Starts(s, "--")
    || Starts(s, "<!--")
  }

  function NonTest(lines: seq<AddedLine>): nat {
    if lines == [] then 0 else NonTest(lines[..|lines| - 1]) + if lines[|lines| - 1].isTest then 0 else 1
  }

  function Comments(lines: seq<AddedLine>): nat {
    if lines == [] then 0
    else Comments(lines[..|lines| - 1])
         + if !lines[|lines| - 1].isTest && CommentOrBlank(lines[|lines| - 1].content) then 1 else 0
  }

  predicate MostlyComments(lines: seq<AddedLine>, threshold: real) {
    NonTest(lines) > 0 && Comments(lines) as real / NonTest(lines) as real >= threshold
  }

  function Hits(line: AddedLine, phrases: seq<string>): seq<Finding> {
    if phrases == [] then []
    else
      Hits(line, phrases[..|phrases| - 1])
      + if Mentions(line.content, phrases[|phrases| - 1])
        then [Finding(SlopPhrase, line.file, Some(line.line), phrases[|phrases| - 1])] else []
  }

  function AllHits(lines: seq<AddedLine>, phrases: seq<string>): seq<Finding> {
    if lines == [] then [] else AllHits(lines[..|lines| - 1], phrases) + Hits(lines[|lines| - 1], phrases)
  }

  method FindSlop(lines: seq<AddedLine>, phrases: seq<string>) returns (findings: seq<Finding>)
    ensures findings == AllHits(lines, phrases)
  {
    hide Mentions;
    findings := [];
    for i := 0 to |lines|
      invariant findings == AllHits(lines[..i], phrases)
    {
      for j := 0 to |phrases|
        invariant findings == AllHits(lines[..i], phrases) + Hits(lines[i], phrases[..j])
      {
        assert phrases[..j + 1][..j] == phrases[..j];
        if Mentions(lines[i].content, phrases[j]) {
          findings := findings + [Finding(SlopPhrase, lines[i].file, Some(lines[i].line), phrases[j])];
        }
      }
      assert phrases[..|phrases|] == phrases;
      assert lines[..i + 1][..i] == lines[..i];
    }
    assert lines[..|lines|] == lines;
  }

  lemma {:induction false} HitsAre(line: AddedLine, phrases: seq<string>, f: Finding)
    ensures f in Hits(line, phrases) <==>
              exists m :: 0 <= m < |phrases| && Mentions(line.content, phrases[m])
                          && f == Finding(SlopPhrase, line.file, Some(line.line), phrases[m])
  {
    hide Mentions;
    if phrases != [] {
      HitsAre(line, phrases[..|phrases| - 1], f);
      assert forall m :: 0 <= m < |phrases| - 1 ==> phrases[..|phrases| - 1][m] == phrases[m];
    }
  }

  /** A slop finding names an added line and a phrase it mentions; every such pair is found. */
  lemma {:induction false} AllHitsAre(lines: seq<AddedLine>, phrases: seq<string>, f: Finding)
    ensures f in AllHits(lines, phrases) <==>
              exists k, m :: 0 <= k < |lines| && 0 <= m < |phrases| && Mentions(lines[k].content, phrases[m])
                             && f == Finding(SlopPhrase, lines[k].file, Some(lines[k].line), phrases[m])
  {
    hide Mentions, Hits;
    if lines != [] {
      var last := |lines| - 1;
      AllHitsAre(lines[..last], phrases, f);
      HitsAre(lines[last], phrases, f);
      if f in AllHits(lines[..last], phrases) {
        var k, m :| 0 <= k < last && 0 <= m < |phrases| && Mentions(lines[..last][k].content, phrases[m])
                    && f == Finding(SlopPhrase, lines[..last][k].file, Some(lines[..last][k].line), phrases[m]);
        assert lines[..last][k] == lines[k];
      }
      if k, m :| 0 <= k < last && 0 <= m < |phrases| && Mentions(lines[k].content, phrases[m])
                 && f == Finding(SlopPhrase, lines[k].file, Some(lines[k].line), phrases[m]) {
        assert lines[..last][k] == lines[k];
      }
    }
  }

  method CommentRatio(lines: seq<AddedLine>) returns (nonTest: nat, comments: nat)
    ensures nonTest == NonTest(lines) && comments == Comments(lines)
  {
    nonTest, comments := 0, 0;
    for i := 0 to |lines|
      invariant nonTest == NonTest(lines[..i]) && comments == Comments(lines[..i])
    {
      assert lines[..i + 1][..i] == lines[..i];
      if !lines[i].isTest {
        nonTest := nonTest + 1;
        if CommentOrBlank(lines[i].content) { comments := comments + 1; }
      }
    }
    assert lines[..|lines|] == lines;
  }

  /** The finding for an added file with a junk base name. */
  function Junk(path: string): Finding { Finding(JunkFile, path, None, path) }

  const COMMENT_ONLY := Finding(CommentOnlyDiff, "", None, "")

  /** `run_antislop_lint`; `junk` stands for the basename patterns. It fails exactly on one of the three signals: the
      findings are the phrase hits, then one for each added file with a junk name, then the comment-only finding. */
  method RunAntislopLint(text: string, demandsTests: bool, phrases: seq<string>, junk: string -> bool, threshold: real)
    returns (verdict: Verdict, findings: seq<Finding>)
    ensures verdict == if findings == [] then Pass else Fail
    ensures var s := Run(START, SplitLines(text));
            && AllHits(s.lines, phrases) <= findings
            && forall f :: f in findings <==>
                 || f in AllHits(s.lines, phrases)
                 || (f.file in s.files && junk(BaseName(f.file)) && f == Finding(JunkFile, f.file, None, f.file))
                 || (demandsTests && MostlyComments(s.lines, threshold) && f == Finding(CommentOnlyDiff, "", None, ""))
  {
    var lines, files := ParseDiff(text);
    hide Run, SplitLines, Mentions, AllHits;
    findings := FindSlop(lines, phrases);
    ghost var slop := findings;
    var left := files;
    while left != {}
      invariant left <= files && slop <= findings
      invariant forall f :: f in findings <==>
                              f in slop || (f.file in files - left && junk(BaseName(f.file)) && f == Junk(f.file))
      decreases left
    {
      var path :| path in left;
      left := left - {path};
      if junk(BaseName(path)) { findings := findings + [Junk(path)]; }
    }
    if demandsTests {
      var nonTest, comments := CommentRatio(lines);
      if nonTest > 0 && comments as real / nonTest as real >= threshold { findings := findings + [COMMENT_ONLY]; }
    }
    verdict := if findings == [] then Pass else Fail;
  }
}
