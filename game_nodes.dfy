/**
 * The node layout the architect view hands to the game pane when it enters
 * game mode: one data node per generated file, then one node for each line
 * that declares a function, runs a loop or branches, laid out left to right
 * on the file's row. Function nodes are labelled with the name the two
 * declaration patterns find in the line.
 */
module GameNodes {
  import opened Text
  import opened GamePane
  import opened CodeGenerator

  // ---------------------------------------------------------------------
  // The two declaration patterns
  // ---------------------------------------------------------------------

  /** The regular-expression class `\w`. */
  predicate IsWordChar(c: char) {
    ('a' <= c <= 'z') || ('A' <= c <= 'Z') || ('0' <= c <= '9') || c == '_'
  }

  /** The regular-expression class `\s`: the ECMAScript white space and line terminators. */
  predicate IsSpace(c: char) {
    || c == '\t' || c == '\n' || c == '\U{0B}' || c == '\U{0C}' || c == '\r' || c == ' '
    || c == '\U{A0}' || c == '\U{1680}' || ('\U{2000}' <= c <= '\U{200A}')
    || c == '\U{2028}' || c == '\U{2029}' || c == '\U{202F}' || c == '\U{205F}'
    || c == '\U{3000}' || c == '\U{FEFF}'
  }

  /** The end of the longest run of word characters starting at `p`. */
  function WordEnd(s: string, p: nat): (q: nat)
    requires p <= |s|
    ensures p <= q <= |s|
    ensures forall k :: p <= k < q ==> IsWordChar(s[k])
    ensures q == |s| || !IsWordChar(s[q])
    decreases |s| - p
  {
    if p == |s| || !IsWordChar(s[p]) then p else WordEnd(s, p + 1)
  }

  /** The end of the longest run of white space starting at `p`. */
  function SpaceEnd(s: string, p: nat): (q: nat)
    requires p <= |s|
    ensures p <= q <= |s|
    ensures forall k :: p <= k < q ==> IsSpace(s[k])
    ensures q == |s| || !IsSpace(s[q])
    decreases |s| - p
  {
    if p == |s| || !IsSpace(s[p]) then p else SpaceEnd(s, p + 1)
  }

  predicate At(s: string, p: nat, w: string) {
    p + |w| <= |s| && s[p..p + |w|] == w
  }

  /**
   * `(?:function|async)\s+(\w+)` tried at position `p`. A word never
   * contains white space, so the greedy runs leave nothing to backtrack
   * into and the match, if any, is the longest word after the gap.
   */
  function DeclAt(s: string, p: nat): (r: Option<string>)
    requires p <= |s|
    ensures r.Some? ==> |r.value| >= 1 && forall k :: 0 <= k < |r.value| ==> IsWordChar(r.value[k])
  {
    var kw := if At(s, p, "function") then Some(p + 8) else if At(s, p, "async") then Some(p + 5) else None;
    match kw
    case None => None
    case Some(e) =>
      var w := SpaceEnd(s, e);
      var q := WordEnd(s, w);
      if w == e || q == w then None else Some(s[w..q])
  }

  /**
   * `(\w+)\s*[=:]\s*(?:async\s*)?\(` tried at position `p`: a name, an
   * assignment or property colon, optionally `async`, then an opening
   * parenthesis; the capture is the whole word from `p`.
   */
  function ArrowAt(s: string, p: nat): (r: Option<string>)
    requires p <= |s|
    ensures r.Some? ==> |r.value| >= 1 && forall k :: 0 <= k < |r.value| ==> IsWordChar(r.value[k])
  {
    var q := WordEnd(s, p);
    var r := SpaceEnd(s, q);
    if q == p || r == |s| || !(s[r] == '=' || s[r] == ':') then None
    else
      var t := SpaceEnd(s, r + 1);
      var u := if At(s, t, "async") then SpaceEnd(s, t + 5) else t;
      if (u < |s| && s[u] == '(') || (t < |s| && s[t] == '(') then Some(s[p..q]) else None
  }

  /** What a pattern yields at a position. */
  datatype Pattern = Decl | Arrow

  function MatchAt(pat: Pattern, s: string, p: nat): Option<string>
    requires p <= |s|
  {
    match pat
    case Decl => DeclAt(s, p)
    case Arrow => ArrowAt(s, p)
  }

  /** Whether the pattern matches at each position `0..|s|` of the line. */
  function Hits(pat: Pattern, s: string): (h: seq<bool>)
    ensures |h| == |s| + 1
    ensures forall q :: 0 <= q <= |s| ==> h[q] == MatchAt(pat, s, q).Some?
  {
    seq(|s| + 1, q requires 0 <= q <= |s| => MatchAt(pat, s, q).Some?)
  }

  /** The first position from `p` on where `h` holds. */
  function FirstHit(h: seq<bool>, p: nat): (r: Option<nat>)
    requires p <= |h|
    ensures r.Some? ==> p <= r.value < |h| && h[r.value]
    decreases |h| - p
  {
    if p == |h| then None
    else if h[p] then Some(p)
    else FirstHit(h, p + 1)
  }

  /** The hit found is the first one, and there is none when none is found. */
  lemma {:induction false} FirstHitIsFirst(h: seq<bool>, p: nat)
    requires p <= |h|
    ensures FirstHit(h, p).Some? ==> forall q :: p <= q < FirstHit(h, p).value ==> !h[q]
    ensures FirstHit(h, p).None? ==> forall q :: p <= q < |h| ==> !h[q]
    decreases |h| - p
  {
    if p < |h| && !h[p] {
      FirstHitIsFirst(h, p + 1);
    }
  }

  /** `String.prototype.match` without the global flag: the leftmost position where the pattern matches. */
  function Leftmost(pat: Pattern, s: string): (r: Option<nat>)
    ensures r.Some? ==> r.value <= |s| && MatchAt(pat, s, r.value).Some?
  {
    FirstHit(Hits(pat, s), 0)
  }

  /** The position found is the leftmost one, and the pattern matches nowhere when none is found. */
  lemma LeftmostIsFirst(pat: Pattern, s: string)
    ensures Leftmost(pat, s).Some? ==> forall q :: 0 <= q < Leftmost(pat, s).value ==> MatchAt(pat, s, q).None?
    ensures Leftmost(pat, s).None? ==> forall q :: 0 <= q <= |s| ==> MatchAt(pat, s, q).None?
  {
    var h := Hits(pat, s);
    FirstHitIsFirst(h, 0);
  }

  /** The first capture of the leftmost match of the pattern in the line. */
  function Capture(pat: Pattern, s: string): (r: Option<string>)
    ensures r.Some? ==> |r.value| >= 1 && forall k :: 0 <= k < |r.value| ==> IsWordChar(r.value[k])
  {
    match Leftmost(pat, s)
    case None => None
    case Some(p) => MatchAt(pat, s, p)
  }

  /** extractFunctionName: the declared name, else the assigned name, else `fn`. */
  function ExtractFunctionName(line: string): (name: string)
    ensures name == "fn" || (|name| >= 1 && forall k :: 0 <= k < |name| ==> IsWordChar(name[k]))
    ensures Capture(Decl, line).Some? ==> name == Capture(Decl, line).value
    ensures Capture(Decl, line).None? && Capture(Arrow, line).Some? ==> name == Capture(Arrow, line).value
    ensures Capture(Decl, line).None? && Capture(Arrow, line).None? ==> name == "fn"
  {
    match Capture(Decl, line)
    case Some(n) => n
    case None =>
      match Capture(Arrow, line)
      case Some(n) => n
      case None => "fn"
  }

  /** A run of word characters ended by a non-word character or the end of the line. */
  lemma {:induction false} WordRun(s: string, p: nat, q: nat)
    requires p <= q <= |s|
    requires forall k :: p <= k < q ==> IsWordChar(s[k])
    requires q == |s| || !IsWordChar(s[q])
    ensures WordEnd(s, p) == q
    decreases q - p
  {
    if p < q {
      WordRun(s, p + 1, q);
    }
  }

  /** A plain declaration yields its name. */
  lemma DeclaredName()
    ensures ExtractFunctionName("function run() {") == "run"
  {
    var s := "function run() {";
    assert At(s, 0, "function");
    assert SpaceEnd(s, 9) == 9;
    WordRun(s, 9, 12);
    assert DeclAt(s, 0) == Some(s[9..12]);
    assert s[9..12] == "run";
  }

  lemma AsyncDeclAt(s: string)
    requires s == "async function go() {"
    ensures DeclAt(s, 0) == Some("function")
  {
    assert s[0..8] != "function" by { assert s[0..8][0] == 'a'; }
    assert At(s, 0, "async");
    assert SpaceEnd(s, 6) == 6;
    WordRun(s, 6, 14);
    assert DeclAt(s, 0) == Some(s[6..14]);
    assert s[6..14] == "function";
  }

  /**
   * In `async function go() {` the leftmost match starts at `async`, so the
   * captured word is `function` rather than the function's name.
   */
  lemma AsyncFunctionName()
    ensures ExtractFunctionName("async function go() {") == "function"
  {
    var s := "async function go() {";
    AsyncDeclAt(s);
    assert Hits(Decl, s)[0];
    assert Leftmost(Decl, s) == Some(0);
  }

  // ---------------------------------------------------------------------
  // Classifying lines
  // ---------------------------------------------------------------------

  datatype LineKind = FunctionLine | LoopLine | ConditionLine | OtherLine

  predicate DeclaresFunction(line: string) { Contains(line, "function") || Contains(line, "async ") }

  predicate Loops(line: string) {
    Contains(line, "for (") || Contains(line, "while (") || Contains(line, ".forEach(") || Contains(line, ".map(")
  }

  predicate Branches(line: string) { Contains(line, "if (") || Contains(line, "else") }

  /** The first rule that matches decides: function, then loop, then condition. */
  function Classify(line: string): LineKind {
    if DeclaresFunction(line) then FunctionLine
    else if Loops(line) then LoopLine
    else if Branches(line) then ConditionLine
    else OtherLine
  }

  /** The category a kind of line gets, and the horizontal step after it. */
  function CategoryOf(k: LineKind): Option<string> {
    match k
    case FunctionLine => Some("function")
    case LoopLine => Some("loop")
    case ConditionLine => Some("condition")
    case OtherLine => None
  }

  function Step(k: LineKind): nat {
    match k
    case FunctionLine => 120
    case LoopLine => 100
    case ConditionLine => 80
    case OtherLine => 0
  }

  function CostOf(k: LineKind): int {
    match k
    case FunctionLine => 30
    case LoopLine => 50
    case ConditionLine => 15
    case OtherLine => 0
  }

  // ---------------------------------------------------------------------
  // The layout, as values
  // ---------------------------------------------------------------------

  /**
   * `path.split('/').pop() || fallback`: the text after the last `/`, or
   * the fallback when that text is empty (an empty path or a trailing `/`).
   */
  function BaseName(path: string, fallback: string): (name: string)
    ensures path == "" || path[|path| - 1] == '/' ==> name == fallback
  {
    SplitLastPiece(path, '/');
    var last := LastPart(Split(path, '/'));
    if last == "" then fallback else last
  }

  /** Otherwise the label is that last piece, which is then non-empty. */
  lemma BaseNameLastPiece(path: string, fallback: string)
    requires path != "" && path[|path| - 1] != '/'
    ensures var name := BaseName(path, fallback); name != "" && IsLastPiece(path, '/', name)
  {
    SplitLastPiece(path, '/');
  }

  function RowY(fileIndex: nat): int {
    80 + 150 * fileIndex
  }

  function FileNode(file: GeneratedFile, fileIndex: nat): GameNode {
    GameNode("file-" + NatToString(fileIndex), BaseName(file.path, "file"), Data, 50, RowY(fileIndex), 10, Some("file"), None)
  }

  /** The node for line `li` of file `fi` placed at `x` on row `y`, if the line gets one. */
  function LineNode(line: string, name: string -> string, fi: nat, li: nat, x: int, y: int): seq<GameNode> {
    var tag := NatToString(fi) + "-" + NatToString(li);
    match Classify(line)
    case FunctionLine => [GameNode("func-" + tag, name(line), Logic, x, y, 30, Some("function"), None)]
    case LoopLine => [GameNode("loop-" + tag, "循环", Process, x, y + 60, 50, Some("loop"), Some("O(n)"))]
    case ConditionLine => [GameNode("cond-" + tag, "条件", Logic, x, y + 30, 15, Some("condition"), None)]
    case OtherLine => []
  }

  /** The nodes of lines `li..` of a file, the first of them placed at `x`. */
  function LinesFrom(lines: seq<string>, name: string -> string, fi: nat, li: nat, x: int, y: int): seq<GameNode>
    decreases |lines| - li
  {
    if li >= |lines| then []
    else LineNode(lines[li], name, fi, li, x, y) + LinesFrom(lines, name, fi, li + 1, x + Step(Classify(lines[li])), y)
  }

  function FileNodes(file: GeneratedFile, fi: nat): seq<GameNode> {
    [FileNode(file, fi)] + LinesFrom(Lines(file.content), ExtractFunctionName, fi, 0, 180, RowY(fi))
  }

  /** The nodes of files `j..`. */
  function NodesFrom(files: seq<GeneratedFile>, j: nat): seq<GameNode>
    decreases |files| - j
  {
    if j >= |files| then [] else FileNodes(files[j], j) + NodesFrom(files, j + 1)
  }

  // ---------------------------------------------------------------------
  // generateDetailedGameNodes
  // ---------------------------------------------------------------------

  lemma LinesFromUnfold(lines: seq<string>, name: string -> string, fi: nat, li: nat, x: int, y: int)
    requires li < |lines|
    ensures LinesFrom(lines, name, fi, li, x, y)
         == LineNode(lines[li], name, fi, li, x, y) + LinesFrom(lines, name, fi, li + 1, x + Step(Classify(lines[li])), y)
  {
  }

  /** generateDetailedGameNodes: the nodes of every file, in file order. */
  method GenerateDetailedGameNodes(files: seq<GeneratedFile>) returns (nodes: seq<GameNode>)
    ensures nodes == NodesFrom(files, 0)
  {
    nodes := [];
    var y := 80;
    var fi := 0;
    while fi < |files|
      invariant 0 <= fi <= |files| && y == RowY(fi)
      invariant nodes + NodesFrom(files, fi) == NodesFrom(files, 0)
    {
      ghost var start := nodes;
      nodes := nodes + [GameNode("file-" + NatToString(fi), BaseName(files[fi].path, "file"), Data, 50, y, 10, Some("file"), None)];
      var lines := Split(files[fi].content, '\n');
      nodes := PlaceLines(nodes, lines, fi, y);
      AppendAssoc(start, [FileNode(files[fi], fi)], LinesFrom(lines, ExtractFunctionName, fi, 0, 180, y));
      assert nodes == start + FileNodes(files[fi], fi);
      AppendAssoc(start, FileNodes(files[fi], fi), NodesFrom(files, fi + 1));
      y := y + 150;
      fi := fi + 1;
    }
  }

  /** The inner loop of generateDetailedGameNodes: the line nodes of one file, pushed onto `nodes`. */
  method PlaceLines(nodes0: seq<GameNode>, lines: seq<string>, fi: nat, y: int) returns (nodes: seq<GameNode>)
    ensures nodes == nodes0 + LinesFrom(lines, ExtractFunctionName, fi, 0, 180, y)
  {
    nodes := nodes0;
    var x := 180;
    var li := 0;
    while li < |lines|
      invariant 0 <= li <= |lines|
      invariant nodes + LinesFrom(lines, ExtractFunctionName, fi, li, x, y) == nodes0 + LinesFrom(lines, ExtractFunctionName, fi, 0, 180, y)
    {
      var line := lines[li];
      ghost var before, x0 := nodes, x;
      var tag := NatToString(fi) + "-" + NatToString(li);
      ghost var step := LineNode(line, ExtractFunctionName, fi, li, x0, y);
      if DeclaresFunction(line) {
        var node := GameNode("func-" + tag, ExtractFunctionName(line), Logic, x, y, 30, Some("function"), None);
        assert Classify(line) == FunctionLine && step == [node];
        nodes := nodes + [node];
        x := x + 120;
      } else if Loops(line) {
        var node := GameNode("loop-" + tag, "循环", Process, x, y + 60, 50, Some("loop"), Some("O(n)"));
        assert Classify(line) == LoopLine && step == [node];
        nodes := nodes + [node];
        x := x + 100;
      } else if Branches(line) {
        var node := GameNode("cond-" + tag, "条件", Logic, x, y + 30, 15, Some("condition"), None);
        assert Classify(line) == ConditionLine && step == [node];
        nodes := nodes + [node];
        x := x + 80;
      } else {
        assert Classify(line) == OtherLine && step == [];
      }
      assert nodes == before + step && x == x0 + Step(Classify(line));
      LinesFromUnfold(lines, ExtractFunctionName, fi, li, x0, y);
      AppendAssoc(before, LineNode(line, ExtractFunctionName, fi, li, x0, y), LinesFrom(lines, ExtractFunctionName, fi, li + 1, x, y));
      li := li + 1;
    }
  }

  // ---------------------------------------------------------------------
  // What the layout promises
  // ---------------------------------------------------------------------

  lemma NodesFromUnfold(files: seq<GeneratedFile>, j: nat)
    requires j < |files|
    ensures NodesFrom(files, j)
         == ([FileNode(files[j], j)] + LinesFrom(Lines(files[j].content), ExtractFunctionName, j, 0, 180, RowY(j))) + NodesFrom(files, j + 1)
  {
  }

  lemma FileNodeCount(file: GeneratedFile, fi: nat, cat: string)
    ensures CategoryCount([FileNode(file, fi)], cat) == if cat == "file" then 1 else 0
  {
  }

  /** Counting over a list split in two parts. */
  lemma CountSplit(all: seq<GameNode>, a: seq<GameNode>, b: seq<GameNode>, cat: string)
    requires all == a + b
    ensures CategoryCount(all, cat) == CategoryCount(a, cat) + CategoryCount(b, cat)
  {
    CategoryCountAppend(a, b, cat);
  }

  /** Summing the costs over a list split in two parts. */
  lemma CostSplit(all: seq<GameNode>, a: seq<GameNode>, b: seq<GameNode>)
    requires all == a + b
    ensures TotalCost(all) == TotalCost(a) + TotalCost(b)
  {
    TotalCostAppend(a, b);
  }

  /** Lines `li..` of the given kind. */
  function KindCount(lines: seq<string>, li: nat, k: LineKind): nat
    decreases |lines| - li
  {
    if li >= |lines| then 0 else (if Classify(lines[li]) == k then 1 else 0) + KindCount(lines, li + 1, k)
  }

  /** Lines of the given kind over files `j..`. */
  function FilesKindCount(files: seq<GeneratedFile>, j: nat, k: LineKind): nat
    decreases |files| - j
  {
    if j >= |files| then 0 else KindCount(Lines(files[j].content), 0, k) + FilesKindCount(files, j + 1, k)
  }

  /** A line yields one node of its kind's category and none of any other. */
  lemma LineNodeCount(line: string, name: string -> string, fi: nat, li: nat, x: int, y: int, cat: string)
    ensures CategoryCount(LineNode(line, name, fi, li, x, y), cat) == if CategoryOf(Classify(line)) == Some(cat) then 1 else 0
  {
  }

  lemma CategoryOfInjective(a: LineKind, b: LineKind, cat: string)
    requires CategoryOf(b) == Some(cat)
    ensures CategoryOf(a) == Some(cat) <==> a == b
  {
  }

  /** Each line of the kind yields exactly one node of its category, and no line yields a file node. */
  lemma {:induction false} LinesFromCount(lines: seq<string>, name: string -> string, fi: nat, li: nat, x: int, y: int, k: LineKind, cat: string)
    requires CategoryOf(k) == Some(cat)
    ensures CategoryCount(LinesFrom(lines, name, fi, li, x, y), cat) == KindCount(lines, li, k)
    ensures CategoryCount(LinesFrom(lines, name, fi, li, x, y), "file") == 0
    decreases |lines| - li
  {
    if li < |lines| {
      var kind := Classify(lines[li]);
      var x' := x + Step(kind);
      var head, tail := LineNode(lines[li], name, fi, li, x, y), LinesFrom(lines, name, fi, li + 1, x', y);
      LinesFromUnfold(lines, name, fi, li, x, y);
      LinesFromCount(lines, name, fi, li + 1, x', y, k, cat);
      CountSplit(LinesFrom(lines, name, fi, li, x, y), head, tail, cat);
      CountSplit(LinesFrom(lines, name, fi, li, x, y), head, tail, "file");
      LineNodeCount(lines[li], name, fi, li, x, y, cat);
      LineNodeCount(lines[li], name, fi, li, x, y, "file");
      CategoryOfInjective(kind, k, cat);
    }
  }

  /** The node cost of lines `li..`. */
  function LinesCost(lines: seq<string>, li: nat): int
    decreases |lines| - li
  {
    if li >= |lines| then 0 else CostOf(Classify(lines[li])) + LinesCost(lines, li + 1)
  }

  lemma LineNodeCost(line: string, name: string -> string, fi: nat, li: nat, x: int, y: int)
    ensures TotalCost(LineNode(line, name, fi, li, x, y)) == CostOf(Classify(line))
  {
  }

  lemma {:induction false} LinesFromCost(lines: seq<string>, name: string -> string, fi: nat, li: nat, x: int, y: int)
    ensures TotalCost(LinesFrom(lines, name, fi, li, x, y)) == LinesCost(lines, li)
    decreases |lines| - li
  {
    if li < |lines| {
      var x' := x + Step(Classify(lines[li]));
      var head, tail := LineNode(lines[li], name, fi, li, x, y), LinesFrom(lines, name, fi, li + 1, x', y);
      LinesFromUnfold(lines, name, fi, li, x, y);
      LinesFromCost(lines, name, fi, li + 1, x', y);
      CostSplit(LinesFrom(lines, name, fi, li, x, y), head, tail);
      LineNodeCost(lines[li], name, fi, li, x, y);
    }
  }

  /** There is one file node per file. */
  lemma {:induction false} NodesFromFiles(files: seq<GeneratedFile>, j: nat)
    ensures CategoryCount(NodesFrom(files, j), "file") == if j >= |files| then 0 else |files| - j
    decreases |files| - j
  {
    if j < |files| {
      var row := LinesFrom(Lines(files[j].content), ExtractFunctionName, j, 0, 180, RowY(j));
      var rest := NodesFrom(files, j + 1);
      var head := [FileNode(files[j], j)];
      NodesFromUnfold(files, j);
      NodesFromFiles(files, j + 1);
      LinesFromCount(Lines(files[j].content), ExtractFunctionName, j, 0, 180, RowY(j), FunctionLine, "function");
      CountSplit(head + row, head, row, "file");
      CountSplit(NodesFrom(files, j), head + row, rest, "file");
      FileNodeCount(files[j], j, "file");
    }
  }

  /**
   * One node of each category per line of that kind, so the game's loop
   * and function counts are the numbers of loop and declaration lines in
   * the generated files.
   */
  lemma {:induction false} NodesFromCount(files: seq<GeneratedFile>, j: nat, k: LineKind, cat: string)
    requires CategoryOf(k) == Some(cat)
    ensures CategoryCount(NodesFrom(files, j), cat) == FilesKindCount(files, j, k)
    decreases |files| - j
  {
    if j < |files| {
      var row := LinesFrom(Lines(files[j].content), ExtractFunctionName, j, 0, 180, RowY(j));
      var rest := NodesFrom(files, j + 1);
      var head := [FileNode(files[j], j)];
      NodesFromUnfold(files, j);
      NodesFromCount(files, j + 1, k, cat);
      LinesFromCount(Lines(files[j].content), ExtractFunctionName, j, 0, 180, RowY(j), k, cat);
      CountSplit(head + row, head, row, cat);
      CountSplit(NodesFrom(files, j), head + row, rest, cat);
      FileNodeCount(files[j], j, cat);
    }
  }

  /** Total cost of all lines of files `j..` plus ten per file. */
  function FilesCost(files: seq<GeneratedFile>, j: nat): int
    decreases |files| - j
  {
    if j >= |files| then 0 else 10 + LinesCost(Lines(files[j].content), 0) + FilesCost(files, j + 1)
  }

  lemma {:induction false} NodesFromCost(files: seq<GeneratedFile>, j: nat)
    ensures TotalCost(NodesFrom(files, j)) == FilesCost(files, j)
    decreases |files| - j
  {
    if j < |files| {
      var lines := Lines(files[j].content);
      var row := LinesFrom(lines, ExtractFunctionName, j, 0, 180, RowY(j));
      var rest := NodesFrom(files, j + 1);
      var head := [FileNode(files[j], j)];
      NodesFromUnfold(files, j);
      NodesFromCost(files, j + 1);
      LinesFromCost(lines, ExtractFunctionName, j, 0, 180, RowY(j));
      CostSplit(head + row, head, row);
      CostSplit(NodesFrom(files, j), head + row, rest);
    }
  }

  /** The game shows O(1) exactly when no generated line is a loop line. */
  lemma NoLoopsConstantTime(files: seq<GeneratedFile>)
    ensures (Summarize(NodesFrom(files, 0)).timeComplexity == "O(1)") <==> FilesKindCount(files, 0, LoopLine) == 0
  {
    NodesFromCount(files, 0, LoopLine, "loop");
  }

  /** How far below the row a node of the category sits. */
  function YOffset(category: Option<string>): int {
    if category == Some("loop") then 60 else if category == Some("condition") then 30 else 0
  }

  /**
   * What one line contributes to a row: no node and no step, or one node
   * at the current x at its category's height, after which x moves right.
   */
  predicate LineSlot(h: seq<GameNode>, x: int, x': int, y: int) {
    && |h| <= 1
    && (|h| == 0 ==> x' == x)
    && (|h| == 1 ==> h[0].x == x < x' && h[0].y == y + YOffset(h[0].category))
  }

  /** A line gives at most one node, placed at the current x, and x moves on exactly when it does. */
  lemma LineNodeShape(line: string, name: string -> string, fi: nat, li: nat, x: int, y: int)
    ensures LineSlot(LineNode(line, name, fi, li, x, y), x, x + Step(Classify(line)), y)
  {
  }

  /**
   * A row of line nodes: each at or right of `x`, at the row's height plus
   * 0, 30 or 60 by its category, and strictly left to right.
   */
  predicate RowLayout(ns: seq<GameNode>, x: int, y: int) {
    && (forall i :: 0 <= i < |ns| ==> ns[i].x >= x && ns[i].y == y + YOffset(ns[i].category))
    && (forall i, j :: 0 <= i < j < |ns| ==> ns[i].x < ns[j].x)
  }

  lemma RowLayoutCons(ns: seq<GameNode>, head: seq<GameNode>, tail: seq<GameNode>, x: int, x': int, y: int)
    requires ns == head + tail
    requires LineSlot(head, x, x', y) && RowLayout(tail, x', y)
    ensures RowLayout(ns, x, y)
  {
    if |head| == 1 {
      forall i | 0 <= i < |ns|
        ensures ns[i].x >= x && ns[i].y == y + YOffset(ns[i].category)
      {
        if i > 0 { assert ns[i] == tail[i - 1]; }
      }
      forall i, j | 0 <= i < j < |ns|
        ensures ns[i].x < ns[j].x
      {
        assert ns[j] == tail[j - 1];
        if i > 0 { assert ns[i] == tail[i - 1]; }
      }
    } else {
      assert ns == tail;
    }
  }

  /** The line nodes of a file are laid out as a row. */
  lemma {:induction false} LinesFromLayout(lines: seq<string>, name: string -> string, fi: nat, li: nat, x: int, y: int)
    ensures RowLayout(LinesFrom(lines, name, fi, li, x, y), x, y)
    decreases |lines| - li
  {
    if li < |lines| {
      var x' := x + Step(Classify(lines[li]));
      LinesFromUnfold(lines, name, fi, li, x, y);
      LinesFromLayout(lines, name, fi, li + 1, x', y);
      LineNodeShape(lines[li], name, fi, li, x, y);
      RowLayoutCons(LinesFrom(lines, name, fi, li, x, y), LineNode(lines[li], name, fi, li, x, y), LinesFrom(lines, name, fi, li + 1, x', y), x, x', y);
    }
  }

  /** A node put in front of a row of nodes, none of them a file node. */
  lemma InFrontOfRow(ns: seq<GameNode>, h: GameNode, tail: seq<GameNode>, x: int, y: int)
    requires ns == [h] + tail
    requires RowLayout(tail, x, y) && CategoryCount(tail, "file") == 0
    ensures ns[0] == h
    ensures forall i :: 1 <= i < |ns| ==> ns[i].x >= x && ns[i].category != Some("file")
  {
    CategoryCountExtremes(tail, "file");
    forall i | 1 <= i < |ns| ensures ns[i].x >= x && ns[i].category != Some("file") {
      assert ns[i] == tail[i - 1];
    }
  }

  /** The first node of each file is its file node, on the file's row at x = 50. */
  lemma FileNodeFirst(file: GeneratedFile, fi: nat)
    ensures var ns := FileNodes(file, fi);
      && ns[0].category == Some("file") && ns[0].x == 50 && ns[0].y == 80 + 150 * fi
      && ns[0].id == "file-" + NatToString(fi)
      && forall i :: 1 <= i < |ns| ==> ns[i].x >= 180 && ns[i].category != Some("file")
  {
    var tail := LinesFrom(Lines(file.content), ExtractFunctionName, fi, 0, 180, RowY(fi));
    LinesFromLayout(Lines(file.content), ExtractFunctionName, fi, 0, 180, RowY(fi));
    LinesFromCount(Lines(file.content), ExtractFunctionName, fi, 0, 180, RowY(fi), FunctionLine, "function");
    InFrontOfRow(FileNodes(file, fi), FileNode(file, fi), tail, 180, RowY(fi));
  }
}
