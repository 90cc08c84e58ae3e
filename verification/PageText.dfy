/** The text of an API page: how it is laid out, when it fits the page limits, and which
    headings a later run reads back from it. */
module PageText {
  import opened Prelude
  import opened Text

  const MAX_LINES := 2000
  const MAX_BYTES := 120_000

  /** The fixed lines of a page: its first line, the blank line between parts, and the two lines
      around a declaration. */
  datatype Layout = Layout(header: string, blank: string, open: string, close: string)

  const RUST_LAYOUT := Layout(
    "<!-- " + "generated by " + "scripts/" + "render_" + "domain_" + "spine.py" + ", do not " + "edit -->",
    "", "```rust", "```")

  /** One rendered declaration: a heading and a fenced body. */
  datatype Block = Block(name: string, body: string)

  /** One text and, on the next line, another. */
  function Over(a: string, b: string): string {
    a + "\n" + b
  }

  function BlockText(lay: Layout, b: Block): string {
    Over(Over(Over(Over("## " + b.name, lay.blank), lay.open), b.body), lay.close)
  }

  function Joined(lay: Layout, blocks: seq<Block>): string {
    if blocks == [] then ""
    else if |blocks| == 1 then BlockText(lay, blocks[0])
    else Over(Over(Joined(lay, blocks[..|blocks| - 1]), lay.blank), BlockText(lay, blocks[|blocks| - 1]))
  }

  /** The header and the title line. */
  function Top(lay: Layout, title: string): string {
    Over(Over(lay.header, lay.blank), "# " + title)
  }

  function Page(lay: Layout, title: string, blocks: seq<Block>): string {
    Over(Over(Over(Top(lay, title), lay.blank), Joined(lay, blocks)), "")
  }

  predicate Fits(text: string) {
    Lines(text) < MAX_LINES && Utf8Length(text) < MAX_BYTES
  }

  // ---------------------------------------------------------------------------------
  // The limits are monotone in the blocks and in the title
  // ---------------------------------------------------------------------------------

  lemma OverIsPrefix(a: string, b: string, c: string)
    ensures Over(a, "") <= Over(Over(a, b), c)
  {
    assert Over(Over(a, b), c) == (a + "\n") + (b + "\n" + c);
  }

  lemma OverExtends(top: string, a: string, b: string)
    requires a + "\n" <= b
    ensures Over(Over(top, a), "") <= Over(Over(top, b), "")
  {
    var rest := b[|a| + 1..];
    assert b == a + "\n" + rest;
    assert Over(Over(top, b), "") == (top + "\n" + a + "\n") + (rest + "\n");
  }

  lemma {:induction false} JoinedPrefix(lay: Layout, blocks: seq<Block>, k: nat)
    requires 0 < k < |blocks|
    ensures Joined(lay, blocks[..k]) + "\n" <= Joined(lay, blocks)
    decreases |blocks|
  {
    var front := blocks[..|blocks| - 1];
    OverIsPrefix(Joined(lay, front), lay.blank, BlockText(lay, blocks[|blocks| - 1]));
    if k < |blocks| - 1 {
      JoinedPrefix(lay, front, k);
      assert front[..k] == blocks[..k];
    }
  }

  lemma FewerBlocksFit(lay: Layout, title: string, blocks: seq<Block>, k: nat)
    requires 0 < k <= |blocks| && Fits(Page(lay, title, blocks))
    ensures Fits(Page(lay, title, blocks[..k]))
  {
    if k == |blocks| {
      assert blocks[..k] == blocks;
    } else {
      JoinedPrefix(lay, blocks, k);
      OverExtends(Over(Top(lay, title), lay.blank), Joined(lay, blocks[..k]), Joined(lay, blocks));
      PrefixIsShorter(Page(lay, title, blocks[..k]), Page(lay, title, blocks));
    }
  }

  /** Everything below the title line. */
  function Bottom(blank: string, joined: string): string {
    "\n" + blank + "\n" + joined + "\n"
  }

  lemma PageParts(top: string, blank: string, joined: string)
    ensures Over(Over(Over(top, blank), joined), "") == top + Bottom(blank, joined)
  {
  }

  lemma TopEnds(lay: Layout, title: string, suffix: string)
    requires NoBreak(title)
    ensures Top(lay, title + suffix) == Top(lay, title) + suffix
    ensures Top(lay, title) != "" && !IsBreak(Top(lay, title)[|Top(lay, title)| - 1])
  {
    var a := Top(lay, title);
    assert a[|a| - 1] == if title == "" then ' ' else title[|title| - 1];
  }

  lemma ShorterTitleFits(lay: Layout, title: string, suffix: string, blocks: seq<Block>)
    requires NoBreak(title) && NoBreak(suffix) && Fits(Page(lay, title + suffix, blocks))
    ensures Fits(Page(lay, title, blocks))
  {
    TopEnds(lay, title, suffix);
    PageParts(Top(lay, title), lay.blank, Joined(lay, blocks));
    PageParts(Top(lay, title) + suffix, lay.blank, Joined(lay, blocks));
    MiddleIsShorter(Top(lay, title), suffix, Bottom(lay.blank, Joined(lay, blocks)));
  }

  // ---------------------------------------------------------------------------------
  // Headings read back from a page
  // ---------------------------------------------------------------------------------

  /** The last line, longer by one character. */
  function Extend(lines: seq<string>, c: char): (r: seq<string>)
    ensures r != []
  {
    if lines == [] then [[c]] else if |lines| == 1 then [lines[0] + [c]] else [lines[0]] + Extend(lines[1..], c)
  }

  /** The lines of the first n characters, starting from one empty line. */
  function LfLinesTo(s: string, n: nat): (r: seq<string>)
    requires n <= |s|
    ensures r != []
  {
    if n == 0 then [""]
    else if s[n - 1] == '\n' then LfLinesTo(s, n - 1) + [""]
    else Extend(LfLinesTo(s, n - 1), s[n - 1])
  }

  /** The lines of a text as a multi-line regular expression sees them: split at line feeds only. */
  function LfLines(s: string): (r: seq<string>)
    ensures r != []
  {
    LfLinesTo(s, |s|)
  }

  /** What `^## (.+)$` captures in one line, if it matches. */
  function HeadingsOfLine(line: string): seq<string> {
    if "## " <= line && |line| > 3 then [line[3..]] else []
  }

  function LineHeadings(): string -> seq<string> {
    line => HeadingsOfLine(line)
  }

  function FindHeadings(page: string): seq<string> {
    FlatMap(LineHeadings(), LfLines(page))
  }

  /** `splitlines()[0]`, or the empty text. */
  function FirstLine(s: string): string {
    if s == "" || IsBreak(s[0]) then "" else [s[0]] + FirstLine(s[1..])
  }

  /** The heading the renderer attributes to a block. */
  function HeadingOf(lay: Layout, b: Block): string {
    var line := FirstLine(BlockText(lay, b));
    if "## " <= line then line[3..] else line
  }

  /** A one-line text that no heading search matches. */
  predicate Plain(s: string) {
    '\n' !in s && !("## " <= s)
  }

  predicate PlainLayout(lay: Layout) {
    Plain(lay.header) && Plain(lay.blank) && Plain(lay.open) && Plain(lay.close)
  }

  /** A declaration as the renderer produces it: a one-line nonempty name, and a body in
      which no line looks like a heading. */
  predicate WellFormed(b: Block) {
    b.name != "" && NoBreak(b.name) && '\r' !in b.body && FindHeadings(b.body) == []
  }

  /** Only the last line changes, so lines in front of it stay. */
  lemma {:induction false} ExtendConcat(p: seq<string>, q: seq<string>, c: char)
    requires q != []
    ensures Extend(p + q, c) == p + Extend(q, c)
  {
    if p == [] {
      assert p + q == q && p + Extend(q, c) == Extend(q, c);
    } else {
      ExtendConcat(p[1..], q, c);
      ExtendHead(p[0], p[1..], q, c);
      assert p == [p[0]] + p[1..];
    }
  }

  lemma ExtendHead(x: string, p: seq<string>, q: seq<string>, c: char)
    requires q != [] && Extend(p + q, c) == p + Extend(q, c)
    ensures Extend(([x] + p) + q, c) == ([x] + p) + Extend(q, c)
  {
    var all := ([x] + p) + q;
    assert all[0] == x && all[1..] == p + q && |all| > 1;
    Associate([x], p, Extend(q, c));
  }

  lemma {:induction false} LfLinesOfPrefix(s: string, t: string, n: nat)
    requires n <= |s| && n <= |t| && forall k | 0 <= k < n :: s[k] == t[k]
    ensures LfLinesTo(s, n) == LfLinesTo(t, n)
  {
    if n > 0 {
      LfLinesOfPrefix(s, t, n - 1);
    }
  }

  /** Character by character: one text, a line feed, and the other. */
  ghost predicate Stacked(s: string, a: string, b: string) {
    && |s| == |a| + 1 + |b| && s[|a|] == '\n'
    && (forall k | 0 <= k < |a| :: s[k] == a[k])
    && (forall k | 0 <= k < |b| :: s[|a| + 1 + k] == b[k])
  }

  /** One more character on both sides. */
  lemma LfLinesStep(s: string, n: nat, b: string, k: nat, front: seq<string>)
    requires n < |s| && k < |b| && s[n] == b[k] && LfLinesTo(s, n) == front + LfLinesTo(b, k)
    ensures LfLinesTo(s, n + 1) == front + LfLinesTo(b, k + 1)
  {
    if b[k] == '\n' {
      Associate(front, LfLinesTo(b, k), [""]);
    } else {
      ExtendConcat(front, LfLinesTo(b, k), b[k]);
    }
  }

  lemma {:induction false} LfLinesBeyond(a: string, b: string, s: string, k: nat)
    requires Stacked(s, a, b) && k <= |b|
    ensures LfLinesTo(s, |a| + 1 + k) == LfLinesTo(a, |a|) + LfLinesTo(b, k)
  {
    if k == 0 {
      LfLinesOfPrefix(s, a, |a|);
    } else {
      LfLinesBeyond(a, b, s, k - 1);
      assert s[|a| + 1 + (k - 1)] == b[k - 1];
      LfLinesStep(s, |a| + k, b, k - 1, LfLinesTo(a, |a|));
    }
  }

  lemma LfLinesConcat(a: string, b: string)
    ensures LfLines(Over(a, b)) == LfLines(a) + LfLines(b)
  {
    LfLinesBeyond(a, b, Over(a, b), |b|);
  }

  lemma {:induction false} LfLinesOneTo(s: string, n: nat)
    requires n <= |s| && '\n' !in s
    ensures LfLinesTo(s, n) == [s[..n]]
  {
    if n > 0 {
      LfLinesOneTo(s, n - 1);
      assert s[n - 1] in s;
      assert s[..n - 1] + [s[n - 1]] == s[..n];
    }
  }

  lemma LfLinesSingle(s: string)
    requires '\n' !in s
    ensures LfLines(s) == [s]
  {
    LfLinesOneTo(s, |s|);
    assert s[..|s|] == s;
  }

  lemma FindHeadingsConcat(a: string, b: string)
    ensures FindHeadings(Over(a, b)) == FindHeadings(a) + FindHeadings(b)
  {
    LfLinesConcat(a, b);
    FlatMapConcat(LineHeadings(), LfLines(a), LfLines(b));
  }

  lemma FindHeadingsSingle(s: string)
    requires '\n' !in s
    ensures FindHeadings(s) == HeadingsOfLine(s)
  {
    LfLinesSingle(s);
    OneLineHeadings(LineHeadings(), s);
  }

  lemma OneLineHeadings(f: string -> seq<string>, line: string)
    ensures FlatMap(f, [line]) == f(line)
  {
    FlatMapSnoc(f, [], line);
    assert [] + [line] == [line] && [] + f(line) == f(line);
  }

  lemma PlainHasNoHeadings(s: string)
    requires Plain(s)
    ensures FindHeadings(s) == []
  {
    FindHeadingsSingle(s);
  }

  /** A line without a heading adds none, above or below. */
  lemma PlainBelow(a: string, b: string)
    requires Plain(b)
    ensures FindHeadings(Over(a, b)) == FindHeadings(a)
  {
    FindHeadingsConcat(a, b);
    PlainHasNoHeadings(b);
    assert FindHeadings(a) + [] == FindHeadings(a);
  }

  lemma PlainAbove(a: string, b: string)
    requires FindHeadings(a) == []
    ensures FindHeadings(Over(a, b)) == FindHeadings(b)
  {
    FindHeadingsConcat(a, b);
    assert [] + FindHeadings(b) == FindHeadings(b);
  }

  lemma TitleIsPlain(title: string)
    requires NoBreak(title)
    ensures Plain("# " + title)
  {
    assert ("# " + title)[1] == ' ' && "## "[1] == '#';
  }

  lemma HeadingLine(name: string)
    requires name != "" && NoBreak(name)
    ensures FindHeadings("## " + name) == [name]
    ensures NoBreak("## " + name) && "## " <= "## " + name && ("## " + name)[3..] == name
  {
    FindHeadingsSingle("## " + name);
  }

  lemma {:induction false} FirstLineOfName(name: string, rest: string)
    requires NoBreak(name) && rest != "" && IsBreak(rest[0])
    ensures FirstLine(name + rest) == name
  {
    if name == "" {
      assert name + rest == rest;
    } else {
      assert (name + rest)[1..] == name[1..] + rest;
      FirstLineOfName(name[1..], rest);
    }
  }

  lemma BlockHeadings(lay: Layout, b: Block)
    requires WellFormed(b) && PlainLayout(lay)
    ensures FindHeadings(BlockText(lay, b)) == [b.name]
  {
    HeadingLine(b.name);
    FencedHeadings("## " + b.name, lay.blank, lay.open, b.body, lay.close);
  }

  lemma FencedHeadings(line: string, blank: string, open: string, body: string, close: string)
    requires Plain(blank) && Plain(open) && Plain(close) && FindHeadings(body) == []
    ensures FindHeadings(Over(Over(Over(Over(line, blank), open), body), close)) == FindHeadings(line)
  {
    PlainBelow(line, blank);
    PlainBelow(Over(line, blank), open);
    FindHeadingsConcat(Over(Over(line, blank), open), body);
    PlainBelow(Over(Over(Over(line, blank), open), body), close);
  }

  lemma FirstLineOver(line: string, a: string, b: string)
    requires NoBreak(line) && FirstLine(a) == line && (exists rest :: a == line + "\n" + rest)
    ensures FirstLine(Over(a, b)) == line && (exists rest :: Over(a, b) == line + "\n" + rest)
  {
    var rest :| a == line + "\n" + rest;
    assert Over(a, b) == line + "\n" + (rest + "\n" + b);
    assert line + "\n" + (rest + "\n" + b) == line + ("\n" + (rest + "\n" + b));
    FirstLineOfName(line, "\n" + (rest + "\n" + b));
  }

  lemma FirstLineOfBlock(line: string, blank: string, open: string, body: string, close: string)
    requires NoBreak(line)
    ensures FirstLine(Over(Over(Over(Over(line, blank), open), body), close)) == line
  {
    var a := Over(line, blank);
    assert a == line + ("\n" + blank);
    FirstLineOfName(line, "\n" + blank);
    FirstLineOver(line, a, open);
    FirstLineOver(line, Over(a, open), body);
    FirstLineOver(line, Over(Over(a, open), body), close);
  }

  lemma BlockHeading(lay: Layout, b: Block)
    requires WellFormed(b)
    ensures HeadingOf(lay, b) == b.name
  {
    HeadingLine(b.name);
    FirstLineOfBlock("## " + b.name, lay.blank, lay.open, b.body, lay.close);
  }

  function Headings(lay: Layout, chunk: seq<Block>): seq<string> {
    seq(|chunk|, i requires 0 <= i < |chunk| => HeadingOf(lay, chunk[i]))
  }

  lemma HeadingsSnoc(lay: Layout, chunk: seq<Block>)
    requires chunk != []
    ensures Headings(lay, chunk) == Headings(lay, chunk[..|chunk| - 1]) + [HeadingOf(lay, chunk[|chunk| - 1])]
  {
  }

  lemma FindHeadingsAfterGap(front: string, blank: string, block: string)
    requires Plain(blank)
    ensures FindHeadings(Over(Over(front, blank), block)) == FindHeadings(front) + FindHeadings(block)
  {
    PlainBelow(front, blank);
    FindHeadingsConcat(Over(front, blank), block);
  }

  lemma {:induction false} JoinedHeadings(lay: Layout, chunk: seq<Block>)
    requires PlainLayout(lay) && chunk != [] && forall b | b in chunk :: WellFormed(b)
    ensures FindHeadings(Joined(lay, chunk)) == Headings(lay, chunk)
  {
    var n := |chunk| - 1;
    BlockHeadings(lay, chunk[n]);
    BlockHeading(lay, chunk[n]);
    HeadingsSnoc(lay, chunk);
    if n > 0 {
      JoinedHeadings(lay, chunk[..n]);
      FindHeadingsAfterGap(Joined(lay, chunk[..n]), lay.blank, BlockText(lay, chunk[n]));
    }
  }

  lemma TopHasNoHeadings(lay: Layout, title: string)
    requires PlainLayout(lay) && NoBreak(title)
    ensures FindHeadings(Over(Top(lay, title), lay.blank)) == []
  {
    TitleIsPlain(title);
    PlainHasNoHeadings(lay.header);
    PlainBelow(lay.header, lay.blank);
    PlainBelow(Over(lay.header, lay.blank), "# " + title);
    PlainBelow(Top(lay, title), lay.blank);
  }

  lemma JoinedHeadingsAll(lay: Layout, chunk: seq<Block>)
    requires PlainLayout(lay) && forall b | b in chunk :: WellFormed(b)
    ensures FindHeadings(Joined(lay, chunk)) == Headings(lay, chunk)
  {
    if chunk == [] {
      PlainHasNoHeadings(Joined(lay, chunk));
    } else {
      JoinedHeadings(lay, chunk);
    }
  }

  /** Reading a written page gives back exactly the headings of its blocks, in order. */
  lemma PageHeadings(lay: Layout, title: string, chunk: seq<Block>)
    requires PlainLayout(lay) && NoBreak(title) && forall b | b in chunk :: WellFormed(b)
    ensures FindHeadings(Page(lay, title, chunk)) == Headings(lay, chunk)
  {
    TopHasNoHeadings(lay, title);
    JoinedHeadingsAll(lay, chunk);
    PlainAbove(Over(Top(lay, title), lay.blank), Joined(lay, chunk));
    PlainBelow(Over(Over(Top(lay, title), lay.blank), Joined(lay, chunk)), "");
  }

  lemma PlainConcat(a: string, b: string)
    requires Plain(a) && a != "" && a[0] != '#' && '\n' !in b
    ensures Plain(a + b) && (a + b)[0] != '#'
  {
    assert "## "[0] == '#';
  }

  /** The renderer's own fixed lines are never mistaken for headings. */
  lemma RustLayoutIsPlain()
    ensures PlainLayout(RUST_LAYOUT)
  {
    assert "## "[0] == '#';
    PlainConcat("<!-- ", "generated by ");
    PlainConcat("<!-- " + "generated by ", "scripts/");
    PlainConcat("<!-- " + "generated by " + "scripts/", "render_");
    PlainConcat("<!-- " + "generated by " + "scripts/" + "render_", "domain_");
    PlainConcat("<!-- " + "generated by " + "scripts/" + "render_" + "domain_", "spine.py");
    PlainConcat("<!-- " + "generated by " + "scripts/" + "render_" + "domain_" + "spine.py", ", do not ");
    PlainConcat("<!-- " + "generated by " + "scripts/" + "render_" + "domain_" + "spine.py" + ", do not ", "edit -->");
    assert RUST_LAYOUT.open[0] == '`' && RUST_LAYOUT.close[0] == '`';
  }
}
