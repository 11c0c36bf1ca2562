// The ASCII drawing of a binary expression tree: a shadow tree first fixes
// every node's width, the column of its `|` and the gap between its
// children; each node then contributes a two-line matrix at its place, and
// the matrices are painted, in order, onto a growing buffer of lines.
module ExpressionPrinter {
  import opened Wrappers

  const MinPadding := 3
  const MinWidth := 7
  const BarPadding := 3

  /** A node to print: its own printout and its children. */
  datatype Node = Node(literal: string, left: Option<Node>, right: Option<Node>)

  /** Every node has both children or none (the assertion of createShadowTree). */
  predicate WellShaped(n: Node)
  {
    (n.left.Some? <==> n.right.Some?) &&
    (n.left.Some? ==> WellShaped(n.left.value)) &&
    (n.right.Some? ==> WellShaped(n.right.value))
  }

  /** A shadow node: width of its drawing, column of its `|`, gap between
      the children's drawings and the length of the bar under it. */
  datatype Shadow =
    | ShadowLeaf(literal: string, width: int, center: int, padding: int)
    | ShadowBranch(literal: string, width: int, center: int, padding: int, bar: int, left: Shadow, right: Shadow)

  /** The shadow node over two shadow children, as createShadowTree sizes it. */
  function Branch(literal: string, l: Shadow, r: Shadow): (s: Shadow)
    ensures s.ShadowBranch? && s.literal == literal && s.left == l && s.right == r
  {
    var natural := l.width + r.width + MinPadding;
    var width := if natural < MinWidth then MinWidth else natural;
    var padding := if natural < MinWidth then MinPadding - (l.width + r.width) else MinPadding;
    var bar := l.width - l.center + padding + r.center;
    var minBar := BarPadding * 2 + |literal|;
    var difference := if bar < minBar then minBar - bar else 0;
    ShadowBranch(literal, width + difference, (bar + difference) / 2 + l.center, padding + difference, bar + difference, l, r)
  }

  /** `createShadowTree`; None when a node has exactly one child, where
      the source stops on its assertion. */
  function ShadowTree(n: Node): (r: Option<Shadow>)
  {
    if n.left.None? && n.right.None? then
      var width := if |n.literal| <= MinWidth then MinWidth else |n.literal|;
      Some(ShadowLeaf(n.literal, width, width / 2, 0))
    else if n.left.None? || n.right.None? then None
    else
      var l := ShadowTree(n.left.value);
      var r := ShadowTree(n.right.value);
      if l.None? || r.None? then None else Some(Branch(n.literal, l.value, r.value))
  }

  /** The invariants of every shadow node the tree builder makes. */
  predicate Sound(s: Shadow)
  {
    MinWidth <= s.width && 0 <= s.center < s.width &&
    match s
    case ShadowLeaf(literal, width, center, padding) =>
      width == (if |literal| <= MinWidth then MinWidth else |literal|) && Halves(width, center) && padding == 0
    case ShadowBranch(literal, width, center, padding, bar, l, r) =>
      Sound(l) && Sound(r) &&
      width == l.width + r.width + padding && MinPadding <= padding &&
      BarPadding * 2 + |literal| <= bar && bar == l.width - l.center + padding + r.center &&
      Halves(bar, center - l.center)
  }

  /** h == n / 2, said without a division. */
  predicate Halves(n: int, h: int)
  {
    2 * h <= n <= 2 * h + 1
  }

  // ---- the shadow tree ----

  /** The builder succeeds exactly on well-shaped trees, and every node it
      makes keeps the sizing invariants. */
  lemma {:induction false} ShadowTreeSound(n: Node)
    ensures ShadowTree(n).Some? <==> WellShaped(n)
    ensures ShadowTree(n).Some? ==> Sound(ShadowTree(n).value) && ShadowTree(n).value.literal == n.literal
  {
    if n.left.Some? && n.right.Some? {
      ShadowTreeSound(n.left.value);
      ShadowTreeSound(n.right.value);
      if ShadowTree(n).Some? {
        BranchSound(n.literal, ShadowTree(n.left.value).value, ShadowTree(n.right.value).value);
      }
    }
  }

  /** Over sound children the narrow case never applies: the width is the
      children's widths plus the padding, which is at least 3, and a bar
      shorter than the operator needs widens the node and its gap alike. */
  lemma BranchSound(literal: string, l: Shadow, r: Shadow)
    requires Sound(l) && Sound(r)
    ensures var s := Branch(literal, l, r);
      Sound(s) &&
      s.padding == MinPadding + (if l.width - l.center + MinPadding + r.center < BarPadding * 2 + |literal|
                                 then BarPadding * 2 + |literal| - (l.width - l.center + MinPadding + r.center) else 0)
  {
    var s := Branch(literal, l, r);
    assert l.width + r.width + MinPadding >= MinWidth;
    var b := s.bar;
    assert s.center <= (b + l.center + l.center) / 2;
  }

  /** What a leaf and a branch look like, read off the builder. */
  lemma LeafSize(literal: string)
    ensures var s := ShadowTree(Node(literal, None, None)).value;
      s.width >= MinWidth && s.width >= |literal| && (s.width == MinWidth || s.width == |literal|) &&
      s.center == s.width / 2 && s.padding == 0
  {
  }

  // ---- the matrices ----

  /** A block of lines to paint with its top-left corner at (x, y). */
  datatype Matrix = Matrix(x: nat, y: nat, lines: seq<string>)

  function Spaces(n: nat): (r: string)
    ensures |r| == n && forall i :: 0 <= i < n ==> r[i] == ' '
  {
    if n == 0 then [] else Spaces(n - 1) + [' ']
  }

  function Dots(n: nat): (r: string)
    ensures |r| == n && forall i :: 0 <= i < n ==> r[i] == '.'
  {
    if n == 0 then [] else Dots(n - 1) + ['.']
  }

  /** `std::string::replace(pos, count, t)`: the characters from pos, at
      most count of them, give way to t. */
  function Replace(s: string, pos: nat, count: nat, t: string): (r: string)
    requires pos <= |s|
    ensures pos + count <= |s| ==> |r| == |s| - count + |t| && r[..pos] == s[..pos] && r[pos..pos + |t|] == t &&
                                   r[pos + |t|..] == s[pos + count..]
  {
    var end := if pos + count <= |s| then pos + count else |s|;
    s[..pos] + t + s[end..]
  }

  /** A leaf's matrix: its `|` over its literal; a branch's: its `|` over
      the dotted bar that runs from the left child's `|` to the right
      child's, with the operator written over the bar's middle. */
  function MatrixOf(s: Shadow, x: nat, y: nat): (m: Matrix)
    requires Sound(s)
    ensures m.x == x && m.y == y && |m.lines| == 2 && m.lines[0] == Spaces(s.center) + "|"
  {
    if s.ShadowLeaf? then Matrix(x, y, [Spaces(s.center) + "|", s.literal])
    else Matrix(x, y, [Spaces(s.center) + "|", BarOf(s)])
  }

  /** A branch's second line: the dotted bar from the left child's `|` to
      the right child's, with the operator written over its middle. */
  function BarOf(s: Shadow): string
    requires Sound(s) && s.ShadowBranch?
  {
    assert Sound(s.left);
    Replace(Spaces(s.left.center) + Dots(s.bar + 1), s.center - |s.literal| / 2, |s.literal|, s.literal)
  }

  /** A shadow node with the top-left corner of its matrix at (x, y). */
  datatype Placed = Placed(node: Shadow, x: nat, y: nat)

  /** The places `developMatrices` gives the nodes, in the order it visits
      them: a node, then its left subtree at the same column two rows
      lower, then its right subtree past the left drawing and the gap. */
  function Layout(s: Shadow, x: nat, y: nat): (ps: seq<Placed>)
    requires Sound(s)
    ensures |ps| >= 1 && ps[0] == Placed(s, x, y) && (s.ShadowLeaf? ==> |ps| == 1)
  {
    [Placed(s, x, y)] +
    if s.ShadowLeaf? then []
    else Layout(s.left, x, y + 2) + Layout(s.right, x + s.left.width + s.padding, y + 2)
  }

  lemma LayoutOfBranch(s: Shadow, x: nat, y: nat)
    requires Sound(s) && s.ShadowBranch?
    ensures Sound(s.left) && Sound(s.right)
    ensures var lefts := Layout(s.left, x, y + 2); var rights := Layout(s.right, x + s.left.width + s.padding, y + 2);
      Layout(s, x, y) == [Placed(s, x, y)] + (lefts + rights) && |Layout(s, x, y)| == 1 + |lefts| + |rights|
  {
  }

  /** Every node of a subtree is placed within the subtree's columns, at
      or below its row, and keeps the sizing invariants. */
  lemma {:induction false} PlacedInside(s: Shadow, x: nat, y: nat, j: nat)
    requires Sound(s) && j < |Layout(s, x, y)|
    ensures var p := Layout(s, x, y)[j];
      Sound(p.node) && x <= p.x && p.x + p.node.width <= x + s.width && y <= p.y
  {
    if j > 0 {
      LayoutOfBranch(s, x, y);
      var rx := x + s.left.width + s.padding;
      var lefts := Layout(s.left, x, y + 2);
      PickFrom(Placed(s, x, y), lefts, Layout(s.right, rx, y + 2), j);
      if j - 1 < |lefts| {
        PlacedInside(s.left, x, y + 2, j - 1);
      } else {
        PlacedInside(s.right, rx, y + 2, j - 1 - |lefts|);
      }
    }
  }

  lemma LayoutSound(s: Shadow, x: nat, y: nat)
    requires Sound(s)
    ensures AllSound(Layout(s, x, y))
  {
    forall j | 0 <= j < |Layout(s, x, y)|
      ensures Sound(Layout(s, x, y)[j].node)
    {
      PlacedInside(s, x, y, j);
    }
  }

  /** The left subtree's nodes all lie at least the minimum padding to the
      left of the right subtree's. */
  lemma SubtreesApart(s: Shadow, x: nat, y: nat, j: nat, k: nat)
    requires Sound(s) && s.ShadowBranch? && Sound(s.left) && Sound(s.right)
    requires j < |Layout(s.left, x, y + 2)| && k < |Layout(s.right, x + s.left.width + s.padding, y + 2)|
    ensures var a := Layout(s.left, x, y + 2)[j]; var b := Layout(s.right, x + s.left.width + s.padding, y + 2)[k];
      a.x + a.node.width + MinPadding <= b.x
  {
    PlacedInside(s.left, x, y + 2, j);
    PlacedInside(s.right, x + s.left.width + s.padding, y + 2, k);
  }

  predicate AllSound(ps: seq<Placed>)
  {
    forall j :: 0 <= j < |ps| ==> Sound(ps[j].node)
  }

  /** Each placed node drawn as its matrix. */
  function Render(ps: seq<Placed>): (ms: seq<Matrix>)
    requires AllSound(ps)
    ensures |ms| == |ps|
  {
    if ps == [] then [] else [MatrixOf(ps[0].node, ps[0].x, ps[0].y)] + Render(ps[1..])
  }

  lemma {:induction false} RenderAt(ps: seq<Placed>, j: nat)
    requires AllSound(ps) && j < |ps|
    ensures Render(ps)[j] == MatrixOf(ps[j].node, ps[j].x, ps[j].y)
  {
    if j > 0 {
      RenderAt(ps[1..], j - 1);
    }
  }

  lemma {:induction false} RenderAppend(a: seq<Placed>, b: seq<Placed>)
    requires AllSound(a) && AllSound(b)
    ensures Render(a + b) == Render(a) + Render(b)
  {
    if a != [] {
      assert (a + b)[1..] == a[1..] + b;
      RenderAppend(a[1..], b);
    } else {
      assert a + b == b;
    }
  }

  /** The matrices of `developMatrices`, in order. */
  function Matrices(s: Shadow, x: nat, y: nat): (ms: seq<Matrix>)
    requires Sound(s)
  {
    LayoutSound(s, x, y);
    Render(Layout(s, x, y))
  }

  /** The matrix lies within columns [lo, hi) and at rows from `top` on. */
  predicate Inside(m: Matrix, lo: int, hi: int, top: int)
  {
    lo <= m.x && top <= m.y && |m.lines| == 2 && m.x + |m.lines[0]| <= hi && m.x + |m.lines[1]| <= hi
  }

  /** A branch's second line is as long as its bar reaches, both ends of
      the bar are dots, and the operator lies on the bar between them. */
  lemma BarLine(s: Shadow)
    requires Sound(s) && s.ShadowBranch?
    ensures var line := BarOf(s); var p := s.center - |s.literal| / 2;
      |line| == s.left.center + s.bar + 1 && s.left.center + BarPadding <= p &&
      p + |s.literal| + BarPadding <= s.left.center + s.bar + 1 &&
      line[p..p + |s.literal|] == s.literal && line[s.left.center] == '.' && line[s.left.center + s.bar] == '.'
  {
    BarClear(s);
    DottedLine(s.left.center, s.bar, s.center - |s.literal| / 2, s.literal);
  }

  /** The operator starts and ends at least the bar padding inside the bar. */
  lemma BarClear(s: Shadow)
    requires Sound(s) && s.ShadowBranch?
    ensures var p := s.center - |s.literal| / 2;
      s.left.center + BarPadding <= p && p + |s.literal| + BarPadding <= s.left.center + s.bar + 1
  {
    assert Halves(|s.literal|, |s.literal| / 2);
    assert Sound(s.left);
  }

  /** A dotted bar from column lc to column lc + bar with lit written over
      it from column p, clear of both ends. */
  lemma DottedLine(lc: nat, bar: nat, p: nat, lit: string)
    requires lc + BarPadding <= p && p + |lit| + BarPadding <= lc + bar + 1
    ensures var line := Replace(Spaces(lc) + Dots(bar + 1), p, |lit|, lit);
      |line| == lc + bar + 1 && line[p..p + |lit|] == lit && line[lc] == '.' && line[lc + bar] == '.'
  {
    var dots := Spaces(lc) + Dots(bar + 1);
    var line := Replace(dots, p, |lit|, lit);
    assert line[lc] == line[..p][lc] == dots[lc];
    assert line[lc + bar] == line[p + |lit|..][lc + bar - (p + |lit|)] == dots[lc + bar];
  }

  /** A node's own matrix fits in its columns. */
  lemma TopInside(s: Shadow, x: nat, y: nat)
    requires Sound(s)
    ensures Inside(MatrixOf(s, x, y), x, x + s.width, y)
  {
    if s.ShadowBranch? {
      BarLine(s);
    }
  }

  /** Every matrix of a subtree stays within the subtree's own columns and
      at or below its row. */
  lemma MatrixInside(s: Shadow, x: nat, y: nat, j: nat)
    requires Sound(s) && j < |Matrices(s, x, y)|
    ensures Inside(Matrices(s, x, y)[j], x, x + s.width, y)
  {
    var ps := Layout(s, x, y);
    LayoutSound(s, x, y);
    RenderAt(ps, j);
    PlacedInside(s, x, y, j);
    TopInside(ps[j].node, ps[j].x, ps[j].y);
    Widen(MatrixOf(ps[j].node, ps[j].x, ps[j].y), ps[j].x, ps[j].x + ps[j].node.width, ps[j].y, x, x + s.width, y);
  }

  lemma Widen(m: Matrix, lo: int, hi: int, top: int, lo': int, hi': int, top': int)
    requires Inside(m, lo, hi, top) && lo' <= lo && hi <= hi' && top' <= top
    ensures Inside(m, lo', hi', top')
  {
  }

  /** The bar joins the three pipes: the children are placed right after
      their parent, the left child's `|` stands over the bar's first dot
      and the right child's over its last, and the parent's `|` lies
      between them. */
  lemma BarJoinsChildren(s: Shadow, x: nat, y: nat)
    requires Sound(s) && s.ShadowBranch?
    ensures Sound(s.left) && Sound(s.right)
    ensures var ps := Layout(s, x, y); var rx := x + s.left.width + s.padding;
      ps[1] == Placed(s.left, x, y + 2) && ps[1 + |Layout(s.left, x, y + 2)|] == Placed(s.right, rx, y + 2) &&
      x + |MatrixOf(s.left, x, y + 2).lines[0]| - 1 == x + s.left.center &&
      rx + |MatrixOf(s.right, rx, y + 2).lines[0]| - 1 == x + s.left.center + s.bar &&
      s.left.center <= s.center <= s.left.center + s.bar
  {
    LayoutOfBranch(s, x, y);
    var rx := x + s.left.width + s.padding;
    PickFrom(Placed(s, x, y), Layout(s.left, x, y + 2), Layout(s.right, rx, y + 2), 1);
    PickFrom(Placed(s, x, y), Layout(s.left, x, y + 2), Layout(s.right, rx, y + 2), 1 + |Layout(s.left, x, y + 2)|);
  }

  // ---- compositing ----

  /** One line section painted at column x: the line grows with spaces to
      reach past the section, then the section overwrites its columns. */
  function PaintLine(line: string, x: nat, section: string): (r: string)
  {
    var padded := if |section| + x > |line| then line + Spaces(|section| + x - |line|) else line;
    Replace(padded, x, |section|, section)
  }

  /** The first i rows of a matrix painted, one after the other, onto a
      buffer tall enough for it. */
  function PaintedRows(buffer: seq<string>, m: Matrix, i: nat): (r: seq<string>)
    requires i <= |m.lines| && m.y + |m.lines| <= |buffer|
    ensures |r| == |buffer|
  {
    if i == 0 then buffer
    else
      var prev := PaintedRows(buffer, m, i - 1);
      prev[m.y + i - 1 := PaintLine(prev[m.y + i - 1], m.x, m.lines[i - 1])]
  }

  /** The buffer grown with empty lines to n lines. */
  function Grow(buffer: seq<string>, n: nat): (r: seq<string>)
    ensures |r| == if n > |buffer| then n else |buffer|
  {
    if n > |buffer| then buffer + seq(n - |buffer|, _ => "") else buffer
  }

  /** One matrix composited onto the buffer. */
  function Paint(buffer: seq<string>, m: Matrix): (r: seq<string>)
  {
    PaintedRows(Grow(buffer, m.y + |m.lines|), m, |m.lines|)
  }

  /** The matrices composited in order onto an empty buffer. */
  function Composited(ms: seq<Matrix>): (r: seq<string>)
  {
    if ms == [] then [] else Paint(Composited(ms[..|ms| - 1]), ms[|ms| - 1])
  }

  /** The lines, each followed by a newline. */
  function Joined(lines: seq<string>): (r: string)
  {
    if lines == [] then [] else Joined(lines[..|lines| - 1]) + lines[|lines| - 1] + "\n"
  }

  /** `generateExpressionPrintout`, None where the source fails its assertion. */
  function Printout(root: Node): (r: Option<string>)
  {
    var s := ShadowTree(root);
    if s.None? then None
    else
      ShadowTreeSound(root);
      Some(Drawing(s.value))
  }

  /** The printout of a shadow tree laid out from the top-left corner. */
  function Drawing(s: Shadow): string
    requires Sound(s)
  {
    Joined(Composited(Matrices(s, 0, 0)))
  }

  /** A painted line: as long as the old line or the section's end,
      whichever is further; the section sits at its columns; every other
      column keeps its old character or, past the old end, a space. */
  lemma PaintLineMeaning(line: string, x: nat, section: string)
    ensures var r := PaintLine(line, x, section);
      |r| == (if x + |section| > |line| then x + |section| else |line|) &&
      r[x..x + |section|] == section &&
      forall c :: 0 <= c < |r| && !(x <= c < x + |section|) ==> r[c] == if c < |line| then line[c] else ' '
  {
    var padded := if |section| + x > |line| then line + Spaces(|section| + x - |line|) else line;
    var r := PaintLine(line, x, section);
    assert r == padded[..x] + section + padded[x + |section|..];
    forall c | 0 <= c < |r| && !(x <= c < x + |section|)
      ensures r[c] == if c < |line| then line[c] else ' '
    {
      if c < x {
        assert r[c] == padded[c];
      } else {
        assert r[c] == padded[c];
      }
    }
  }

  /** After i rows, rows y .. y + i - 1 are painted and every other row
      is as it was. */
  lemma {:induction false} PaintedRow(buffer: seq<string>, m: Matrix, i: nat, k: nat)
    requires i <= |m.lines| && m.y + |m.lines| <= |buffer| && k < |buffer|
    ensures m.y <= k < m.y + i ==> PaintedRows(buffer, m, i)[k] == PaintLine(buffer[k], m.x, m.lines[k - m.y])
    ensures !(m.y <= k < m.y + i) ==> PaintedRows(buffer, m, i)[k] == buffer[k]
  {
    if i > 0 {
      PaintedRow(buffer, m, i - 1, k);
      var prev := PaintedRows(buffer, m, i - 1);
      assert PaintedRows(buffer, m, i) == prev[m.y + i - 1 := PaintLine(prev[m.y + i - 1], m.x, m.lines[i - 1])];
    }
  }

  /** Line i of matrix m reads back at its place in the buffer. */
  predicate Shows(buffer: seq<string>, m: Matrix, i: nat)
    requires i < |m.lines|
  {
    m.y + i < |buffer| && m.x + |m.lines[i]| <= |buffer[m.y + i]| &&
    buffer[m.y + i][m.x..m.x + |m.lines[i]|] == m.lines[i]
  }

  /** Compositing a matrix leaves every one of its lines readable at its
      place, whatever the buffer held there before. */
  lemma PaintShows(b: seq<string>, m: Matrix, i: nat)
    requires i < |m.lines|
    ensures Shows(Paint(b, m), m, i)
  {
    var line := if m.y + i < |b| then b[m.y + i] else "";
    PaintedAt(b, m, i);
    PaintLineMeaning(line, m.x, m.lines[i]);
  }

  /** Row m.y + i of the painted buffer is the old row (or an empty one
      past the old end) with line i painted over it. */
  lemma PaintedAt(b: seq<string>, m: Matrix, i: nat)
    requires i < |m.lines|
    ensures m.y + i < |Paint(b, m)|
    ensures Paint(b, m)[m.y + i] == PaintLine(if m.y + i < |b| then b[m.y + i] else "", m.x, m.lines[i])
  {
    var g := Grow(b, m.y + |m.lines|);
    assert g[m.y + i] == if m.y + i < |b| then b[m.y + i] else "";
    PaintedRow(g, m, |m.lines|, m.y + i);
  }

  /** A later matrix overwrites an earlier one: after compositing ms and
      then m, every line of m reads back at its place. */
  lemma LaterOverwrites(ms: seq<Matrix>, m: Matrix, i: nat)
    requires i < |m.lines|
    ensures Shows(Composited(ms + [m]), m, i)
  {
    assert (ms + [m])[..|ms|] == ms;
    assert Composited(ms + [m]) == Paint(Composited(ms), m);
    PaintShows(Composited(ms), m, i);
  }

  /** The printout has one newline per buffer line, each line ending in one. */
  lemma {:induction false} JoinedLines(lines: seq<string>)
    ensures |Joined(lines)| == |lines| + SumLengths(lines)
    ensures lines != [] ==> Joined(lines)[|Joined(lines)| - 1] == '\n'
  {
    if lines != [] {
      JoinedLines(lines[..|lines| - 1]);
    }
  }

  function SumLengths(lines: seq<string>): nat
  {
    if lines == [] then 0 else SumLengths(lines[..|lines| - 1]) + |lines[|lines| - 1]|
  }

  // ---- the printer ----

  /** `developMatrices`: pushes the subtree's matrices after the ones
      already collected. */
  method DevelopMatrices(s: Shadow, x: nat, y: nat, collected: seq<Matrix>) returns (r: seq<Matrix>)
    requires Sound(s)
    ensures r == collected + Matrices(s, x, y)
    decreases s
  {
    r := collected + [MatrixOf(s, x, y)];
    if s.ShadowBranch? {
      var rx := x + s.left.width + s.padding;
      LayoutOfBranch(s, x, y);
      r := DevelopMatrices(s.left, x, y + 2, r);
      r := DevelopMatrices(s.right, rx, y + 2, r);
      LayoutSound(s, x, y);
      LayoutSound(s.left, x, y + 2);
      LayoutSound(s.right, rx, y + 2);
      RenderBranch(s, x, y);
      Associate(collected, [MatrixOf(s, x, y)], Matrices(s.left, x, y + 2), Matrices(s.right, rx, y + 2));
    } else {
      assert Layout(s, x, y) == [Placed(s, x, y)];
      assert Layout(s, x, y)[1..] == [];
    }
  }

  lemma Associate<T>(a: seq<T>, b: seq<T>, c: seq<T>, d: seq<T>)
    ensures a + b + c + d == a + (b + (c + d))
  {
  }

  /** Indexing the concatenation of one element and two sequences. */
  lemma PickFrom<T>(t: T, l: seq<T>, r: seq<T>, j: nat)
    requires j < 1 + |l| + |r|
    ensures ([t] + l + r)[j] == if j == 0 then t else if j - 1 < |l| then l[j - 1] else r[j - 1 - |l|]
  {
  }

  /** A branch's matrices: its own, then its left subtree's, then its
      right subtree's. */
  lemma RenderBranch(s: Shadow, x: nat, y: nat)
    requires Sound(s) && s.ShadowBranch? && Sound(s.left) && Sound(s.right) && AllSound(Layout(s, x, y))
    requires AllSound(Layout(s.left, x, y + 2)) && AllSound(Layout(s.right, x + s.left.width + s.padding, y + 2))
    ensures Render(Layout(s, x, y)) ==
      [MatrixOf(s, x, y)] + (Render(Layout(s.left, x, y + 2)) + Render(Layout(s.right, x + s.left.width + s.padding, y + 2)))
  {
    LayoutOfBranch(s, x, y);
    var rx := x + s.left.width + s.padding;
    var lefts := Layout(s.left, x, y + 2);
    var rights := Layout(s.right, rx, y + 2);
    RenderJoin(Placed(s, x, y), lefts, rights);
  }

  lemma RenderJoin(p: Placed, a: seq<Placed>, b: seq<Placed>)
    requires Sound(p.node) && AllSound(a) && AllSound(b)
    ensures AllSound([p] + (a + b))
    ensures Render([p] + (a + b)) == [MatrixOf(p.node, p.x, p.y)] + (Render(a) + Render(b))
  {
    assert AllSound(a + b) by {
      forall j | 0 <= j < |a + b|
        ensures Sound((a + b)[j].node)
      {
        if j >= |a| {
          assert (a + b)[j] == b[j - |a|];
        }
      }
    }
    RenderCons(p, a + b);
    RenderAppend(a, b);
  }

  lemma RenderCons(p: Placed, rest: seq<Placed>)
    requires Sound(p.node) && AllSound(rest)
    ensures Render([p] + rest) == [MatrixOf(p.node, p.x, p.y)] + Render(rest)
  {
    assert ([p] + rest)[1..] == rest;
  }

  /** The `while` that adds empty lines until the matrix fits. */
  method GrowTo(buffer: seq<string>, n: nat) returns (r: seq<string>)
    ensures r == Grow(buffer, n)
  {
    r := buffer;
    while n > |r|
      invariant |buffer| <= |r| <= (if n > |buffer| then n else |buffer|)
      invariant r == buffer + seq(|r| - |buffer|, _ => "")
      decreases n - |r|
    {
      r := r + [""];
    }
  }

  /** The inner `for` that paints each line of one matrix. */
  method PaintMatrix(buffer: seq<string>, m: Matrix) returns (r: seq<string>)
    requires m.y + |m.lines| <= |buffer|
    ensures r == PaintedRows(buffer, m, |m.lines|)
  {
    r := buffer;
    for i := 0 to |m.lines|
      invariant r == PaintedRows(buffer, m, i)
    {
      r := r[m.y + i := PaintLine(r[m.y + i], m.x, m.lines[i])];
    }
  }

  /** The compositing loop over the matrices. */
  method Composite(ms: seq<Matrix>) returns (buffer: seq<string>)
    ensures buffer == Composited(ms)
  {
    buffer := [];
    for k := 0 to |ms|
      invariant buffer == Composited(ms[..k])
    {
      buffer := GrowTo(buffer, ms[k].y + |ms[k].lines|);
      buffer := PaintMatrix(buffer, ms[k]);
      assert ms[..k + 1][..k] == ms[..k];
    }
    assert ms[..|ms|] == ms;
  }

  /** The final stream: every line followed by a newline. */
  method JoinLines(lines: seq<string>) returns (out: string)
    ensures out == Joined(lines)
  {
    out := "";
    for i := 0 to |lines|
      invariant out == Joined(lines[..i])
    {
      assert lines[..i + 1][..i] == lines[..i];
      out := out + lines[i] + "\n";
    }
    assert lines[..|lines|] == lines;
  }

  /** `generateExpressionPrintout`. */
  method GenerateExpressionPrintout(root: Node) returns (r: Option<string>)
    ensures r == Printout(root)
    ensures r.Some? <==> WellShaped(root)
  {
    ShadowTreeSound(root);
    var s := ShadowTree(root);
    if s.None? {
      return None;
    }
    var ms := DevelopMatrices(s.value, 0, 0, []);
    assert ms == Matrices(s.value, 0, 0);
    var lines := Composite(ms);
    var out := JoinLines(lines);
    assert out == Drawing(s.value);
    r := Some(out);
  }
}
