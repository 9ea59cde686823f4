/**
 Printing a tree of steps as text, with a branch for each child. The text tells the tree.
 */
module TreeText {
  import opened Options

  /** max is the number of children shown; 0 shows all. */
  datatype Branch = Branch(root: string, leafs: seq<Branch>, max: nat)

  const TEE := "├─ "
  const BAR := "│  "
  const CORNER := "└─ "
  const BLANK := "   "

  /** strings.Replace(s, "\n", "\n" + with, -1) */
  function Indent(s: string, with: string): string {
    if s == "" then "" else (if s[0] == '\n' then "\n" + with else [s[0]]) + Indent(s[1..], with)
  }

  function Digits(n: nat): string {
    var last := ["0123456789"[n % 10]];
    if n < 10 then last else Digits(n / 10) + last
  }

  function Render(b: Branch): string
    decreases b, 1
  {
    var l := |b.leafs|;
    if l == 0 then b.root
    else if 0 < b.max < l then
      b.root + "\n" + (Tees(b.leafs[..b.max]) + (CORNER + "and " + Digits(l - b.max) + " more ..."))
    else
      b.root + "\n" + (Tees(b.leafs[..l - 1]) + (CORNER + Indent(Render(b.leafs[l - 1]), BLANK)))
  }

  /** Children that are not the last. */
  function Tees(bs: seq<Branch>): string
    decreases bs, 0
  {
    if bs == [] then "" else TEE + Indent(Render(bs[0]), BAR) + "\n" + Tees(bs[1..])
  }

  /** A branch under construction. */
  class SimpleBranch {
    const root: string
    const max: nat
    var leafs: seq<Branch>

    constructor (root: string, max: nat)
      ensures this.root == root && this.max == max && leafs == []
    {
      this.root, this.max, leafs := root, max, [];
    }

    /** Missing children are skipped. */
    method Append(children: seq<Option<Branch>>)
      modifies this
      ensures leafs == old(leafs) + Present(children)
    {
      for i := 0 to |children|
        invariant leafs + Present(children[i..]) == old(leafs) + Present(children)
      {
        assert children[i..][1..] == children[i + 1..];
        if children[i].Some? {
          leafs := leafs + [children[i].value];
        }
      }
    }

    method Wrap() returns (b: Branch)
      ensures b == Branch(root, leafs, max)
    {
      b := Branch(root, leafs, max);
    }
  }

  function Present(children: seq<Option<Branch>>): seq<Branch> {
    if children == [] then [] else (if children[0].Some? then [children[0].value] else []) + Present(children[1..])
  }

  /** The children that are not the last, one after the other. */
  method AppendTees(str: string, bs: seq<Branch>) returns (s: string)
    ensures s == str + Tees(bs)
    decreases bs, 0
  {
    s := str;
    for i := 0 to |bs|
      invariant s + Tees(bs[i..]) == str + Tees(bs)
    {
      var sub := String(bs[i]);
      sub := Indent(sub, BAR);
      TeesOneMore(s, bs, i, sub);
      s := s + (TEE + sub + "\n");
    }
  }

  lemma TeesOneMore(s: string, bs: seq<Branch>, i: nat, sub: string)
    requires i < |bs| && sub == Indent(Render(bs[i]), BAR)
    ensures s + (TEE + sub + "\n") + Tees(bs[i + 1..]) == s + Tees(bs[i..])
  {
    assert bs[i..][1..] == bs[i + 1..];
  }

  /** String */
  method String(b: Branch) returns (str: string)
    ensures str == Render(b)
    decreases b, 1
  {
    hide Indent, Tees, Digits;
    str := b.root;
    var l := |b.leafs|;
    if l <= 0 {
      return;
    }
    str := str + "\n";
    if b.max > 0 && l > b.max {
      str := AppendTees(str, b.leafs[..b.max]);
      str := str + (CORNER + "and " + Digits(l - b.max) + " more ...");
    } else {
      str := AppendTees(str, b.leafs[..l - 1]);
      var sub := String(b.leafs[l - 1]);
      sub := Indent(sub, BLANK);
      str := str + (CORNER + sub);
    }
  }

  // ---- the lines of the text

  /** Lines put together, with newlines between them. */
  function Join(lines: seq<string>): string {
    if lines == [] then "" else if |lines| == 1 then lines[0] else lines[0] + "\n" + Join(lines[1..])
  }

  /** The text between newlines. */
  function Lines(s: string): (lines: seq<string>)
    ensures lines != []
  {
    if s == "" then [""]
    else
      var rest := Lines(s[1..]);
      if s[0] == '\n' then [""] + rest else [[s[0]] + rest[0]] + rest[1..]
  }

  function Prefixed(with: string, lines: seq<string>): seq<string> {
    if lines == [] then [] else [with + lines[0]] + Prefixed(with, lines[1..])
  }

  /** The first line marked as a child, the others indented. */
  function Marked(lines: seq<string>, mark: string, with: string): (marked: seq<string>)
    requires lines != []
    ensures marked != []
  {
    [mark + lines[0]] + Prefixed(with, lines[1..])
  }

  function Block(b: Branch): (lines: seq<string>)
    ensures lines != []
    decreases b, 1
  {
    [b.root] + Blocks(b.leafs)
  }

  function Blocks(bs: seq<Branch>): seq<string>
    decreases bs, 0
  {
    if bs == [] then []
    else if |bs| == 1 then Marked(Block(bs[0]), CORNER, BLANK)
    else Marked(Block(bs[0]), TEE, BAR) + Blocks(bs[1..])
  }

  /** No child is left out. */
  predicate Full(b: Branch)
    decreases b
  {
    (b.max == 0 || |b.leafs| <= b.max) && forall c :: c in b.leafs ==> Full(c)
  }

  predicate IsLine(s: string) {
    '\n' !in s
  }

  /** No label spans lines. */
  predicate OneLineLabels(b: Branch)
    decreases b
  {
    IsLine(b.root) && forall c :: c in b.leafs ==> OneLineLabels(c)
  }

  lemma {:induction false} IndentConcat(a: string, b: string, with: string)
    ensures Indent(a + b, with) == Indent(a, with) + Indent(b, with)
    decreases |a|
  {
    if a == "" {
      assert a + b == b;
    } else {
      assert (a + b)[1..] == a[1..] + b;
      IndentConcat(a[1..], b, with);
    }
  }

  lemma {:induction false} IndentLine(s: string, with: string)
    requires IsLine(s)
    ensures Indent(s, with) == s
    decreases |s|
  {
    if s != "" {
      assert s[0] in s;
      IndentLine(s[1..], with);
    }
  }

  /** Indenting text prefixes all its lines but the first. */
  lemma {:induction false} IndentJoin(lines: seq<string>, with: string)
    requires lines != [] && forall l :: l in lines ==> IsLine(l)
    ensures Indent(Join(lines), with) == Join([lines[0]] + Prefixed(with, lines[1..]))
    decreases |lines|
  {
    hide Prefixed;
    IndentLine(lines[0], with);
    if |lines| == 1 {
      PrefixedNone(with, lines[1..]);
    } else {
      var tail := lines[1..];
      var ps := Prefixed(with, tail[1..]);
      IndentLines(lines[0], Join(tail), with);
      IndentJoin(tail, with);
      JoinPrefix(with, tail[0], ps);
      PrefixedFirst(with, tail);
      JoinCons(lines[0], [with + tail[0]] + ps);
    }
  }

  lemma PrefixedNone(with: string, lines: seq<string>)
    requires lines == []
    ensures Prefixed(with, lines) == []
  {
  }

  lemma PrefixedFirst(with: string, lines: seq<string>)
    requires lines != []
    ensures Prefixed(with, lines) == [with + lines[0]] + Prefixed(with, lines[1..])
  {
  }

  lemma IndentLines(l: string, rest: string, with: string)
    requires IsLine(l)
    ensures Indent(l + "\n" + rest, with) == l + "\n" + (with + Indent(rest, with))
  {
    hide Indent;
    IndentConcat(l + "\n", rest, with);
    IndentConcat(l, "\n", with);
    IndentLine(l, with);
    IndentNewline(with);
    assert l + ("\n" + with) + Indent(rest, with) == l + "\n" + (with + Indent(rest, with));
  }

  lemma IndentNewline(with: string)
    ensures Indent("\n", with) == "\n" + with
  {
    assert "\n"[1..] == "";
  }

  lemma JoinCons(l: string, lines: seq<string>)
    requires lines != []
    ensures Join([l] + lines) == l + "\n" + Join(lines)
  {
    assert ([l] + lines)[1..] == lines;
  }

  lemma JoinPrefix(with: string, l: string, lines: seq<string>)
    ensures with + Join([l] + lines) == Join([with + l] + lines)
  {
    if lines != [] {
      JoinCons(l, lines);
      JoinCons(with + l, lines);
    }
  }

  lemma {:induction false} JoinConcat(a: seq<string>, b: seq<string>)
    requires a != [] && b != []
    ensures Join(a + b) == Join(a) + "\n" + Join(b)
    decreases |a|
  {
    if |a| == 1 {
      assert a + b == [a[0]] + b;
      JoinCons(a[0], b);
    } else {
      JoinConcat(a[1..], b);
      assert a + b == [a[0]] + (a[1..] + b);
      JoinCons(a[0], a[1..] + b);
      assert a == [a[0]] + a[1..];
      JoinCons(a[0], a[1..]);
    }
  }

  lemma LineConcat(a: string, b: string)
    requires IsLine(a) && IsLine(b)
    ensures IsLine(a + b)
  {
  }

  /** How two children with a child each are drawn. */
  lemma Drawing(root: string, a: string, b: string, x: string, y: string)
    requires IsLine(a) && IsLine(b) && IsLine(x) && IsLine(y)
    ensures var left, right := Branch(a, [Branch(x, [], 0)], 0), Branch(b, [Branch(y, [], 0)], 0);
            Render(Branch(root, [left, right], 0)) ==
            root + "\n├─ " + a + "\n│  └─ " + x + "\n└─ " + b + "\n   └─ " + y
  {
    hide Indent;
    var left, right := Branch(a, [Branch(x, [], 0)], 0), Branch(b, [Branch(y, [], 0)], 0);
    OnlyChild(a, x);
    OnlyChild(b, y);
    LineConcat("└─ ", x);
    LineConcat("└─ ", y);
    IndentLines(a, "└─ " + x, BAR);
    IndentLine("└─ " + x, BAR);
    IndentLines(b, "└─ " + y, BLANK);
    IndentLine("└─ " + y, BLANK);
    assert [left, right][..1] == [left] && [left][1..] == [];
    assert Tees([left]) == TEE + Indent(Render(left), BAR) + "\n";
  }

  lemma OnlyChild(a: string, x: string)
    requires IsLine(x)
    ensures Render(Branch(a, [Branch(x, [], 0)], 0)) == a + "\n" + ("└─ " + x)
  {
    var c := Branch(x, [], 0);
    IndentLine(x, BLANK);
    assert [c][..0] == [];
  }

  lemma {:induction false} PrefixedLines(with: string, lines: seq<string>)
    requires IsLine(with) && forall l :: l in lines ==> IsLine(l)
    ensures |Prefixed(with, lines)| == |lines|
    ensures forall i :: 0 <= i < |lines| ==> Prefixed(with, lines)[i] == with + lines[i]
    ensures forall l :: l in Prefixed(with, lines) ==> IsLine(l)
    decreases |lines|
  {
    if lines != [] {
      PrefixedLines(with, lines[1..]);
      LineConcat(with, lines[0]);
      assert Prefixed(with, lines) == [with + lines[0]] + Prefixed(with, lines[1..]);
    }
  }

  lemma {:induction false} BlockLines(b: Branch)
    requires OneLineLabels(b)
    ensures forall l :: l in Block(b) ==> IsLine(l)
    decreases b, 1
  {
    BlocksLines(b.leafs);
  }

  lemma {:induction false} BlocksLines(bs: seq<Branch>)
    requires forall b :: b in bs ==> OneLineLabels(b)
    ensures forall l :: l in Blocks(bs) ==> IsLine(l)
    decreases bs, 0
  {
    if bs != [] {
      BlockLines(bs[0]);
      BlocksLines(bs[1..]);
      PrefixedLines(BAR, Block(bs[0])[1..]);
      PrefixedLines(BLANK, Block(bs[0])[1..]);
    }
  }

  /** The text of a whole tree is its block of lines. */
  lemma {:induction false} RenderIsBlock(b: Branch)
    requires Full(b) && OneLineLabels(b)
    ensures Render(b) == Join(Block(b))
    decreases b, 1
  {
    if b.leafs != [] {
      var n := |b.leafs| - 1;
      ChildrenAreBlocks(b.leafs);
      JoinCons(b.root, Blocks(b.leafs));
    }
  }

  lemma {:induction false} ChildrenAreBlocks(bs: seq<Branch>)
    requires bs != [] && forall b :: b in bs ==> Full(b) && OneLineLabels(b)
    ensures Tees(bs[..|bs| - 1]) + (CORNER + Indent(Render(bs[|bs| - 1]), BLANK)) == Join(Blocks(bs))
    ensures Blocks(bs) != []
    decreases bs, 0
  {
    hide Indent, Join, Render, Tees, Block, Blocks, Marked, Full, OneLineLabels;
    RenderIsBlock(bs[0]);
    BlockLines(bs[0]);
    TeesOf(bs[..|bs| - 1]);
    BlocksOf(bs);
    if |bs| == 1 {
      MarkedText(Block(bs[0]), CORNER, BLANK);
      assert "" + (CORNER + Indent(Render(bs[0]), BLANK)) == CORNER + Indent(Render(bs[0]), BLANK);
    } else {
      var init, rest := bs[..|bs| - 1], bs[1..];
      ChildrenAreBlocks(rest);
      MarkedText(Block(bs[0]), TEE, BAR);
      JoinConcat(Marked(Block(bs[0]), TEE, BAR), Blocks(rest));
      assert init[0] == bs[0] && init[1..] == rest[..|rest| - 1] && rest[|rest| - 1] == bs[|bs| - 1];
      Regroup(TEE + Indent(Render(bs[0]), BAR) + "\n", Tees(init[1..]), CORNER + Indent(Render(bs[|bs| - 1]), BLANK));
    }
  }

  lemma Regroup(a: string, b: string, c: string)
    ensures a + b + c == a + (b + c)
  {
  }

  lemma TeesOf(bs: seq<Branch>)
    ensures bs == [] ==> Tees(bs) == ""
    ensures bs != [] ==> Tees(bs) == TEE + Indent(Render(bs[0]), BAR) + "\n" + Tees(bs[1..])
  {
  }

  lemma BlocksOf(bs: seq<Branch>)
    ensures |bs| == 1 ==> Blocks(bs) == Marked(Block(bs[0]), CORNER, BLANK)
    ensures |bs| > 1 ==> Blocks(bs) == Marked(Block(bs[0]), TEE, BAR) + Blocks(bs[1..])
    ensures bs != [] ==> Blocks(bs) != []
  {
  }

  lemma MarkedText(lines: seq<string>, mark: string, with: string)
    requires lines != [] && forall l :: l in lines ==> IsLine(l)
    ensures mark + Indent(Join(lines), with) == Join(Marked(lines, mark, with))
  {
    IndentJoin(lines, with);
    JoinPrefix(mark, lines[0], Prefixed(with, lines[1..]));
  }

  lemma {:induction false} LinesOfLine(l: string, s: string)
    requires IsLine(l)
    ensures Lines(l + s) == [l + Lines(s)[0]] + Lines(s)[1..]
    decreases |l|
  {
    if l == "" {
      assert l + s == s && l + Lines(s)[0] == Lines(s)[0];
      assert Lines(s) == [Lines(s)[0]] + Lines(s)[1..];
    } else {
      assert l[0] in l;
      LinesOfLine(l[1..], s);
      assert (l + s)[1..] == l[1..] + s;
      assert [l[0]] + (l[1..] + Lines(s)[0]) == l + Lines(s)[0];
    }
  }

  /** Splitting a text into lines gives back the lines it was made of. */
  lemma {:induction false} LinesOfJoin(lines: seq<string>)
    requires lines != [] && forall l :: l in lines ==> IsLine(l)
    ensures Lines(Join(lines)) == lines
    decreases |lines|
  {
    var l := lines[0];
    if |lines| == 1 {
      LinesOfLine(l, "");
      assert l + "" == l;
    } else {
      var rest := "\n" + Join(lines[1..]);
      LinesOfJoin(lines[1..]);
      LinesOfLine(l, rest);
      assert rest[1..] == Join(lines[1..]);
      assert Lines(rest) == [""] + lines[1..];
      assert l + "" == l && l + "\n" + Join(lines[1..]) == l + rest;
    }
  }

  // ---- the text tells the tree

  /** A tree without the limits on what is shown. */
  function Shape(b: Branch): Branch
    decreases b
  {
    Branch(b.root, Shapes(b.leafs), 0)
  }

  function Shapes(bs: seq<Branch>): seq<Branch>
    decreases bs
  {
    if bs == [] then [] else [Shape(bs[0])] + Shapes(bs[1..])
  }

  /** How the lines of children start: a mark for each child, an indentation for what is below it. */
  lemma StartsOf(bs: seq<Branch>, i: nat)
    requires bs != [] && i <= |Block(bs[0])| && i < |Blocks(bs)| && forall b :: b in bs ==> OneLineLabels(b)
    ensures |Blocks(bs)[i]| >= 3 && |Blocks(bs)| >= |Block(bs[0])|
    ensures |bs| == 1 ==> |Blocks(bs)| == |Block(bs[0])| && Blocks(bs)[i][0] == if i == 0 then '└' else ' '
    ensures |bs| > 1 && i < |Block(bs[0])| ==> Blocks(bs)[i][0] == if i == 0 then '├' else '│'
    ensures |bs| > 1 ==> |Blocks(bs)| > |Block(bs[0])|
    ensures i == |Block(bs[0])| ==> Blocks(bs)[i][0] == '├' || Blocks(bs)[i][0] == '└'
  {
    var x := Block(bs[0]);
    BlockLines(bs[0]);
    PrefixedLines(BAR, x[1..]);
    PrefixedLines(BLANK, x[1..]);
    if |bs| > 1 {
      assert Blocks(bs) == Marked(x, TEE, BAR) + Blocks(bs[1..]);
      BlockLines(bs[1]);
      PrefixedLines(BAR, Block(bs[1])[1..]);
      PrefixedLines(BLANK, Block(bs[1])[1..]);
      assert bs[1..][0] == bs[1];
    }
  }

  /** The first child's lines end where the next mark is. */
  lemma SameExtent(bs: seq<Branch>, cs: seq<Branch>)
    requires bs != [] && cs != [] && (forall b :: b in bs ==> OneLineLabels(b))
    requires (forall c :: c in cs ==> OneLineLabels(c))
    requires Blocks(bs) == Blocks(cs)
    ensures |bs| == 1 <==> |cs| == 1
    ensures |Block(bs[0])| <= |Block(cs[0])|
  {
    StartsOf(bs, 0);
    StartsOf(cs, 0);
    var n := |Block(cs[0])|;
    if |bs| > 1 && n < |Block(bs[0])| {
      StartsOf(bs, n);
      StartsOf(cs, n);
    }
  }

  lemma SameTails(a: string, b: string, with: string)
    requires with + a == with + b
    ensures a == b
  {
    assert (with + a)[|with|..] == a && (with + b)[|with|..] == b;
  }

  lemma MarkedTells(x: seq<string>, y: seq<string>, mark: string, with: string)
    requires x != [] && |x| == |y| && Marked(x, mark, with) == Marked(y, mark, with)
    requires IsLine(with) && forall l :: l in x + y ==> IsLine(l)
    ensures x == y
  {
    PrefixedLines(with, x[1..]);
    PrefixedLines(with, y[1..]);
    var m := Marked(x, mark, with);
    forall i | 0 <= i < |x| ensures x[i] == y[i] {
      if i == 0 {
        assert m[0] == mark + x[0] == mark + y[0];
        SameTails(x[0], y[0], mark);
      } else {
        assert m[i] == Prefixed(with, x[1..])[i - 1] == with + x[1..][i - 1];
        assert m[i] == Prefixed(with, y[1..])[i - 1] == with + y[1..][i - 1];
        SameTails(x[i], y[i], with);
      }
    }
  }

  /** The same lines for children are the same lines for the first child, and the same lines for the others. */
  lemma SameFirst(bs: seq<Branch>, cs: seq<Branch>)
    requires bs != [] && cs != [] && (forall b :: b in bs ==> OneLineLabels(b))
    requires (forall c :: c in cs ==> OneLineLabels(c))
    requires Blocks(bs) == Blocks(cs)
    ensures |bs| == 1 <==> |cs| == 1
    ensures Block(bs[0]) == Block(cs[0])
    ensures |bs| > 1 ==> Blocks(bs[1..]) == Blocks(cs[1..])
  {
    SameExtent(bs, cs);
    SameExtent(cs, bs);
    var x, y, n := Block(bs[0]), Block(cs[0]), |Block(bs[0])|;
    BlockLines(bs[0]);
    BlockLines(cs[0]);
    if |bs| == 1 {
      MarkedTells(x, y, CORNER, BLANK);
    } else {
      PrefixedLines(BAR, x[1..]);
      PrefixedLines(BAR, y[1..]);
      var m, k := Marked(x, TEE, BAR), Marked(y, TEE, BAR);
      assert Blocks(bs) == m + Blocks(bs[1..]) && Blocks(cs) == k + Blocks(cs[1..]);
      assert m == Blocks(bs)[..n] && k == Blocks(cs)[..n];
      assert Blocks(bs[1..]) == Blocks(bs)[n..] && Blocks(cs[1..]) == Blocks(cs)[n..];
      MarkedTells(x, y, TEE, BAR);
    }
  }

  lemma {:induction false} BlocksTell(bs: seq<Branch>, cs: seq<Branch>)
    requires (forall b :: b in bs ==> OneLineLabels(b)) && (forall c :: c in cs ==> OneLineLabels(c))
    requires Blocks(bs) == Blocks(cs)
    ensures Shapes(bs) == Shapes(cs)
    decreases bs
  {
    if bs != [] && cs != [] {
      SameFirst(bs, cs);
      var x, y := Block(bs[0]), Block(cs[0]);
      assert bs[0] in bs && cs[0] in cs && x[0] == bs[0].root && y[0] == cs[0].root;
      assert x[1..] == Blocks(bs[0].leafs) && y[1..] == Blocks(cs[0].leafs);
      BlocksTell(bs[0].leafs, cs[0].leafs);
      if |bs| > 1 {
        BlocksTell(bs[1..], cs[1..]);
      } else {
        assert bs[1..] == [] && cs[1..] == [];
      }
    }
  }

  /** Different trees, fully shown and with labels of one line, have different texts. */
  lemma TextTellsTree(a: Branch, b: Branch)
    requires Full(a) && Full(b) && OneLineLabels(a) && OneLineLabels(b)
    ensures Render(a) == Render(b) <==> Shape(a) == Shape(b)
  {
    RenderIsBlock(a);
    RenderIsBlock(b);
    BlockLines(a);
    BlockLines(b);
    LinesOfJoin(Block(a));
    LinesOfJoin(Block(b));
    if Render(a) == Render(b) {
      assert Block(a) == Block(b);
      assert Block(a)[1..] == Blocks(a.leafs) && Block(b)[1..] == Blocks(b.leafs);
      BlocksTell(a.leafs, b.leafs);
    }
    if Shape(a) == Shape(b) {
      BlockOfShape(a);
      BlockOfShape(b);
    }
  }

  lemma {:induction false} BlockOfShape(b: Branch)
    ensures Block(Shape(b)) == Block(b)
    decreases b, 1
  {
    BlocksOfShapes(b.leafs);
  }

  lemma {:induction false} BlocksOfShapes(bs: seq<Branch>)
    ensures |Shapes(bs)| == |bs| && Blocks(Shapes(bs)) == Blocks(bs)
    decreases bs, 0
  {
    if bs != [] {
      BlockOfShape(bs[0]);
      BlocksOfShapes(bs[1..]);
      assert Shapes(bs)[1..] == Shapes(bs[1..]);
    }
  }

  /** The number of nodes. */
  function Size(b: Branch): nat
    decreases b
  {
    1 + Sizes(b.leafs)
  }

  function Sizes(bs: seq<Branch>): nat
    decreases bs
  {
    if bs == [] then 0 else Size(bs[0]) + Sizes(bs[1..])
  }

  lemma {:induction false} BlockSize(b: Branch)
    ensures |Block(b)| == Size(b)
    decreases b, 1
  {
    BlocksSize(b.leafs);
  }

  lemma {:induction false} BlocksSize(bs: seq<Branch>)
    ensures |Blocks(bs)| == Sizes(bs)
    decreases bs, 0
  {
    if bs != [] {
      BlockSize(bs[0]);
      BlocksSize(bs[1..]);
      PrefixedCount(BAR, Block(bs[0])[1..]);
      PrefixedCount(BLANK, Block(bs[0])[1..]);
      assert |bs| == 1 ==> bs[1..] == [];
    }
  }

  lemma {:induction false} PrefixedCount(with: string, lines: seq<string>)
    ensures |Prefixed(with, lines)| == |lines|
    decreases |lines|
  {
    if lines != [] {
      PrefixedCount(with, lines[1..]);
    }
  }

  /** A fully shown tree has a line for each node. */
  lemma LineForEachNode(b: Branch)
    requires Full(b) && OneLineLabels(b)
    ensures |Lines(Render(b))| == Size(b)
  {
    RenderIsBlock(b);
    BlockLines(b);
    LinesOfJoin(Block(b));
    BlockSize(b);
  }

  // ---- trees that are not fully shown

  /** The number that a string of digits stands for. */
  function Value(s: string): nat
    decreases |s|
  {
    if s == "" then 0
    else
      var last := s[|s| - 1];
      10 * Value(s[..|s| - 1]) + if last < '0' then 0 else last as int - '0' as int
  }

  /** s is n as people write it. */
  predicate Writes(s: string, n: nat) {
    && s != "" && (forall c :: c in s ==> '0' <= c <= '9')
    && Value(s) == n && (|s| > 1 ==> s[0] != '0')
  }

  lemma {:induction false} DigitsWrite(n: nat)
    ensures Writes(Digits(n), n)
    decreases n
  {
    var s, last := Digits(n), "0123456789"[n % 10];
    assert last as int == '0' as int + n % 10;
    if n < 10 {
      assert s[..0] == "";
    } else {
      DigitsWrite(n / 10);
      assert s[..|s| - 1] == Digits(n / 10);
      assert s[0] == Digits(n / 10)[0];
      if |s| == 2 {
        assert n / 10 < 10;
      }
    }
  }

  /** What is to be seen of b: c has the same label, as many children as b may show, and one more for all others. */
  ghost predicate Shows(b: Branch, c: Branch)
    decreases b
  {
    var k := if b.max == 0 || |b.leafs| <= b.max then |b.leafs| else b.max;
    && c.root == b.root && c.max == 0
    && (if k == |b.leafs| then |c.leafs| == k else |c.leafs| == k + 1 && IsRest(c.leafs[k], |b.leafs| - k))
    && forall i :: 0 <= i < k ==> Shows(b.leafs[i], c.leafs[i])
  }

  /** A leaf that says that n more are there. */
  ghost predicate IsRest(c: Branch, n: nat) {
    c.leafs == [] && c.max == 0 && exists s :: Writes(s, n) && c.root == "and " + s + " more ..."
  }

  function Shown(b: Branch): Branch
    decreases b, 1
  {
    var l := |b.leafs|;
    if 0 < b.max < l then Branch(b.root, ShownAll(b.leafs[..b.max]) + [Rest(l - b.max)], 0)
    else Branch(b.root, ShownAll(b.leafs), 0)
  }

  function ShownAll(bs: seq<Branch>): seq<Branch>
    decreases bs, 0
  {
    if bs == [] then [] else [Shown(bs[0])] + ShownAll(bs[1..])
  }

  function Rest(n: nat): Branch {
    Branch("and " + Digits(n) + " more ...", [], 0)
  }

  lemma {:induction false} ShownAllAt(bs: seq<Branch>)
    ensures |ShownAll(bs)| == |bs| && forall i :: 0 <= i < |bs| ==> ShownAll(bs)[i] == Shown(bs[i])
    decreases |bs|
  {
    if bs != [] {
      ShownAllAt(bs[1..]);
    }
  }

  lemma RestIsLine(n: nat)
    ensures IsRest(Rest(n), n) && IsLine(Rest(n).root)
  {
    DigitsWrite(n);
    assert IsLine("and ") && IsLine(" more ...") && IsLine(Digits(n));
  }

  lemma {:induction false} ShownShows(b: Branch)
    ensures Shows(b, Shown(b)) && Full(Shown(b))
    ensures OneLineLabels(b) ==> OneLineLabels(Shown(b))
    decreases b
  {
    var l := |b.leafs|;
    var bs := if 0 < b.max < l then b.leafs[..b.max] else b.leafs;
    ShownAllAt(bs);
    RestIsLine(if 0 < b.max < l then l - b.max else 0);
    forall i | 0 <= i < |bs|
      ensures Shows(b.leafs[i], Shown(b).leafs[i]) && Full(Shown(b).leafs[i])
      ensures OneLineLabels(b) ==> OneLineLabels(Shown(b).leafs[i])
    {
      ShownShows(b.leafs[i]);
    }
  }

  lemma FullText(root: string, bs: seq<Branch>, last: Branch)
    ensures Render(Branch(root, bs + [last], 0)) == root + "\n" + (Tees(bs) + (CORNER + Indent(Render(last), BLANK)))
  {
    assert (bs + [last])[..|bs|] == bs;
  }

  lemma {:induction false} ShownHasText(b: Branch)
    ensures Render(Shown(b)) == Render(b)
    decreases b, 1
  {
    hide Digits, Indent, Tees, ShownAll;
    var l := |b.leafs|;
    if 0 < b.max < l {
      RestHasText(l - b.max);
      ShownTees(b.leafs[..b.max]);
      FullText(b.root, ShownAll(b.leafs[..b.max]), Rest(l - b.max));
    } else if l > 0 {
      var last := b.leafs[l - 1];
      ShownHasText(last);
      ShownTees(b.leafs[..l - 1]);
      FullText(b.root, ShownAll(b.leafs[..l - 1]), Shown(last));
      ShownAllAt(b.leafs);
      ShownAllAt(b.leafs[..l - 1]);
      assert ShownAll(b.leafs) == ShownAll(b.leafs[..l - 1]) + [Shown(last)];
    } else {
      ShownAllAt(b.leafs);
    }
  }

  lemma RestHasText(n: nat)
    ensures Indent(Render(Rest(n)), BLANK) == "and " + Digits(n) + " more ..."
  {
    RestIsLine(n);
    IndentLine(Rest(n).root, BLANK);
  }

  lemma {:induction false} ShownTees(bs: seq<Branch>)
    ensures Tees(ShownAll(bs)) == Tees(bs)
    decreases bs, 0
  {
    if bs != [] {
      ShownHasText(bs[0]);
      ShownTees(bs[1..]);
      assert ShownAll(bs)[1..] == ShownAll(bs[1..]);
    }
  }

  /**
   A tree that is not fully shown has the text of a tree that is: of the one that has, in the place of the children that
   are left out, a leaf that gives their number.
   */
  lemma ShortenedText(b: Branch) returns (c: Branch)
    ensures Shows(b, c) && Full(c) && Render(c) == Render(b)
    ensures OneLineLabels(b) ==> OneLineLabels(c)
  {
    c := Shown(b);
    ShownShows(b);
    ShownHasText(b);
  }
}
