/**
 * The optimisation game pane: the node record handed to it, the icon each
 * node is drawn with, and the summary figures shown above the canvas (node
 * count, total cost, loop and function counts, the time-complexity verdict
 * and the memory figure). The markup, styling and the embedded script are
 * not modelled.
 */
module GamePane {
  import opened Text

  /**
   * The declared node types. The declaration admits only the first three;
   * `Other` stands for any other value reaching the pane at run time, for
   * which the icon rule has a default.
   */
  datatype NodeType = Logic | Data | Process | Other(name: string)

  datatype GameNode = GameNode(
    id: string,
    caption: string,
    nodeType: NodeType,
    x: int,
    y: int,
    cost: int,
    category: Option<string>,
    complexity: Option<string>)

  const FileIcon := "📄"
  const GearIcon := "⚙️"
  const LoopIcon := "🔄"
  const BranchIcon := "🔀"
  const DataIcon := "📦"
  const ProcessIcon := "⚡"
  const DotIcon := "●"

  /** One of the four categories that decide the icon on their own. */
  predicate KnownCategory(c: Option<string>) {
    c == Some("file") || c == Some("function") || c == Some("loop") || c == Some("condition")
  }

  /** getNodeIcon: the category decides first, then the type, then the default dot. */
  function NodeIcon(node: GameNode): (icon: string)
    ensures icon == FileIcon <==> node.category == Some("file")
    ensures icon == LoopIcon <==> node.category == Some("loop")
    ensures icon == BranchIcon <==> node.category == Some("condition")
    ensures icon == GearIcon <==>
              node.category == Some("function") || (!KnownCategory(node.category) && node.nodeType == Logic)
    ensures icon == DataIcon <==> !KnownCategory(node.category) && node.nodeType == Data
    ensures icon == ProcessIcon <==> !KnownCategory(node.category) && node.nodeType == Process
    ensures icon == DotIcon <==> !KnownCategory(node.category) && node.nodeType.Other?
  {
    if node.category == Some("file") then FileIcon
    else if node.category == Some("function") then GearIcon
    else if node.category == Some("loop") then LoopIcon
    else if node.category == Some("condition") then BranchIcon
    else match node.nodeType
      case Logic => GearIcon
      case Data => DataIcon
      case Process => ProcessIcon
      case Other(_) => DotIcon
  }

  // ---------------------------------------------------------------------
  // Summary figures
  // ---------------------------------------------------------------------

  /** The total complexity: the sum of the node costs. */
  function TotalCost(nodes: seq<GameNode>): int
    decreases |nodes|
  {
    if nodes == [] then 0 else nodes[0].cost + TotalCost(nodes[1..])
  }

  /** `nodes.filter(n => n.category === cat).length`. */
  function CategoryCount(nodes: seq<GameNode>, cat: string): (n: nat)
    ensures n <= |nodes|
    decreases |nodes|
  {
    if nodes == [] then 0
    else (if nodes[0].category == Some(cat) then 1 else 0) + CategoryCount(nodes[1..], cat)
  }

  /** The count is zero exactly when no node has the category, and full exactly when all have it. */
  lemma {:induction false} CategoryCountExtremes(nodes: seq<GameNode>, cat: string)
    ensures CategoryCount(nodes, cat) == 0 <==> forall i :: 0 <= i < |nodes| ==> nodes[i].category != Some(cat)
    ensures CategoryCount(nodes, cat) == |nodes| <==> forall i :: 0 <= i < |nodes| ==> nodes[i].category == Some(cat)
    decreases |nodes|
  {
    if nodes != [] {
      CategoryCountExtremes(nodes[1..], cat);
      assert forall i :: 1 <= i < |nodes| ==> nodes[i] == nodes[1..][i - 1];
    }
  }

  lemma {:induction false} TotalCostAppend(a: seq<GameNode>, b: seq<GameNode>)
    ensures TotalCost(a + b) == TotalCost(a) + TotalCost(b)
    decreases |a|
  {
    if a != [] {
      assert (a + b)[0] == a[0];
      assert (a + b)[1..] == a[1..] + b;
      TotalCostAppend(a[1..], b);
    } else {
      assert a + b == b;
    }
  }

  lemma {:induction false} CategoryCountAppend(a: seq<GameNode>, b: seq<GameNode>, cat: string)
    ensures CategoryCount(a + b, cat) == CategoryCount(a, cat) + CategoryCount(b, cat)
    decreases |a|
  {
    if a != [] {
      assert (a + b)[0] == a[0];
      assert (a + b)[1..] == a[1..] + b;
      CategoryCountAppend(a[1..], b, cat);
    } else {
      assert a + b == b;
    }
  }

  datatype Verdict = Good | Warning | Bad

  /** The time-complexity label, from the number of loop nodes. */
  function TimeComplexity(loops: nat): string {
    if loops > 1 then "O(n²)" else if loops == 1 then "O(n)" else "O(1)"
  }

  /** The colour of the time-complexity bar, on the same thresholds. */
  function TimeVerdict(loops: nat): Verdict {
    if loops > 1 then Bad else if loops == 1 then Warning else Good
  }

  /** The width of the time-complexity bar. */
  function TimeBarWidth(loops: nat): string {
    if loops > 1 then "90%" else if loops == 1 then "50%" else "20%"
  }

  /** The label, the colour and the width always tell the same story. */
  lemma VerdictAgrees(loops: nat)
    ensures TimeComplexity(loops) == "O(n²)" <==> TimeVerdict(loops) == Bad
    ensures TimeComplexity(loops) == "O(n)" <==> TimeVerdict(loops) == Warning
    ensures TimeComplexity(loops) == "O(1)" <==> TimeVerdict(loops) == Good
    ensures TimeBarWidth(loops) == "90%" <==> TimeVerdict(loops) == Bad
    ensures TimeBarWidth(loops) == "50%" <==> TimeVerdict(loops) == Warning
    ensures TimeVerdict(loops) == Good <==> loops == 0
  {
  }

  /**
   * `Math.round(total * 0.5)`. Math.round rounds halves up, so on an integer
   * total this is the floor of (total + 1) / 2.
   */
  function Memory(total: int): (m: int)
    ensures (m as real) - 0.5 <= (total as real) * 0.5 < (m as real) + 0.5
  {
    (total + 1) / 2
  }

  /** The figures of the pane's header, side panel and log. */
  datatype Summary = Summary(
    nodeCount: nat,
    totalComplexity: int,
    loopCount: nat,
    functionCount: nat,
    timeComplexity: string,
    verdict: Verdict,
    memory: int)

  function Summarize(nodes: seq<GameNode>): (s: Summary)
    ensures s.nodeCount == |nodes| && s.totalComplexity == TotalCost(nodes)
    ensures s.loopCount == CategoryCount(nodes, "loop") && s.functionCount == CategoryCount(nodes, "function")
    ensures s.loopCount + s.functionCount <= |nodes|
    ensures s.memory == Memory(s.totalComplexity)
    ensures s.timeComplexity == "O(1)" <==> forall i :: 0 <= i < |nodes| ==> nodes[i].category != Some("loop")
    ensures s.verdict == Bad <==> s.loopCount > 1
    ensures s.timeComplexity == TimeComplexity(s.loopCount) && s.verdict == TimeVerdict(s.loopCount)
  {
    var total := TotalCost(nodes);
    var loops := CategoryCount(nodes, "loop");
    var functions := CategoryCount(nodes, "function");
    LoopsAndFunctions(nodes);
    CategoryCountExtremes(nodes, "loop");
    Summary(|nodes|, total, loops, functions, TimeComplexity(loops), TimeVerdict(loops), Memory(total))
  }

  /** A node is in at most one category, so the two counts never overlap. */
  lemma {:induction false} LoopsAndFunctions(nodes: seq<GameNode>)
    ensures CategoryCount(nodes, "loop") + CategoryCount(nodes, "function") <= |nodes|
    decreases |nodes|
  {
    if nodes != [] {
      LoopsAndFunctions(nodes[1..]);
    }
  }
}
