/** The pages of one module: a single page while it fits and was never split, otherwise
    bounded pages per kind of declaration, rendered against the pages of the last run. */
module ModulePages {
  import opened Prelude
  import opened Text
  import opened PageText
  import opened Placement

  datatype Kind = Traits | Functions | Types

  datatype Item = Item(kind: Kind, block: Block)

  /** The files written for a module. */
  datatype ModuleFiles = Whole(text: string) | Split(pages: map<Kind, seq<string>>)

  /** What the previous run left in the module's directory: whether any page is there, and
      the pages of each kind in numeric order. */
  datatype Previous = Previous(any: bool, pages: map<Kind, seq<string>>)

  function KindName(kind: Kind): string {
    match kind
    case Traits => "traits"
    case Functions => "functions"
    case Types => "types"
  }

  function Title(name: string, kind: Kind): string {
    name + ": " + KindName(kind)
  }

  function Suffix(number: nat): (s: string)
    ensures NoBreak(s)
  {
    if number == 1 then "" else "-" + Decimal(number)
  }

  function BlocksOf(items: seq<Item>): seq<Block> {
    seq(|items|, i requires 0 <= i < |items| => items[i].block)
  }

  function Group(items: seq<Item>, kind: Kind): seq<Block> {
    if items == [] then []
    else
      var front := Group(items[..|items| - 1], kind);
      if Last(items).kind == kind then front + [Last(items).block] else front
  }

  function Head(lay: Layout): Block -> string {
    b => HeadingOf(lay, b)
  }

  function Room(lay: Layout, title: string): seq<Block> -> bool {
    blocks => Fits(Page(lay, title, blocks))
  }

  function PageTexts(lay: Layout, title: string, chunks: seq<seq<Block>>): seq<string> {
    seq(|chunks|, i requires 0 <= i < |chunks| => Page(lay, title + Suffix(i + 1), chunks[i]))
  }

  function ReadHeadings(pages: seq<string>): seq<seq<string>> {
    seq(|pages|, i requires 0 <= i < |pages| => FindHeadings(pages[i]))
  }

  predicate AllFit(pages: seq<string>) {
    forall p | p in pages :: Fits(p)
  }

  /** The pages of one nonempty group, or `None` when the limits cannot be met. */
  function RenderGroup(lay: Layout, title: string, blocks: seq<Block>, previous: seq<string>): Option<seq<string>> {
    match PlaceAll(Head(lay), Room(lay, title), BreaksOf(ReadHeadings(previous)), [[]], blocks)
    case None => None
    case Some(chunks) =>
      var pages := PageTexts(lay, title, chunks);
      if AllFit(pages) then Some(pages) else None
  }

  function PreviousPages(previous: Previous, kind: Kind): seq<string> {
    if kind in previous.pages then previous.pages[kind] else []
  }

  function RenderKind(lay: Layout, name: string, items: seq<Item>, previous: Previous, kind: Kind): Option<seq<string>> {
    RenderGroup(lay, Title(name, kind), Group(items, kind), PreviousPages(previous, kind))
  }

  /** The kinds a module has declarations of. */
  function KindsIn(items: seq<Item>): set<Kind> {
    set i | 0 <= i < |items| :: items[i].kind
  }

  function KindRenderer(lay: Layout, name: string, items: seq<Item>, previous: Previous): Kind -> Option<seq<string>> {
    kind => RenderKind(lay, name, items, previous, kind)
  }

  /** The pages of every kind, or `None` when the limits cannot be met for some kind. */
  function Assemble(kinds: set<Kind>, render: Kind -> Option<seq<string>>): Option<map<Kind, seq<string>>> {
    if forall kind | kind in kinds :: render(kind).Some? then Some(map kind | kind in kinds :: render(kind).value)
    else None
  }

  function RenderSplit(lay: Layout, name: string, items: seq<Item>, previous: Previous): Option<map<Kind, seq<string>>> {
    Assemble(KindsIn(items), KindRenderer(lay, name, items, previous))
  }

  function Render(lay: Layout, name: string, items: seq<Item>, previous: Previous): Option<ModuleFiles> {
    var whole := Page(lay, name, BlocksOf(items));
    if items == [] || (Fits(whole) && !previous.any) then
      if Fits(whole) then Some(Whole(whole)) else None
    else
      match RenderSplit(lay, name, items, previous)
      case None => None
      case Some(pages) => Some(Split(pages))
  }

  /** One group: paginate, then refuse any page over the limits. */
  method RenderOneKind(lay: Layout, name: string, items: seq<Item>, previous: Previous, kind: Kind)
    returns (r: Option<seq<string>>)
    ensures r == KindRenderer(lay, name, items, previous)(kind)
  {
    var title := Title(name, kind);
    var chunks := Paginate(
      Head(lay), Room(lay, title), BreaksOf(ReadHeadings(PreviousPages(previous, kind))), Group(items, kind));
    if chunks.None? || !AllFit(PageTexts(lay, title, chunks.value)) {
      return None;
    }
    r := Some(PageTexts(lay, title, chunks.value));
  }

  /** The loop over the groups of a module that is split. */
  method RenderKinds(lay: Layout, name: string, items: seq<Item>, previous: Previous)
    returns (r: Option<map<Kind, seq<string>>>)
    ensures r == RenderSplit(lay, name, items, previous)
  {
    var files: map<Kind, seq<string>> := map[];
    var all := KindsIn(items);
    var kinds := all;
    ghost var render := KindRenderer(lay, name, items, previous);
    while kinds != {}
      invariant kinds <= all && files.Keys == all - kinds
      invariant Renders(render, files)
    {
      var kind :| kind in kinds;
      var pages := RenderOneKind(lay, name, items, previous, kind);
      if pages.None? {
        OneNotRendered(render, all, kind);
        return None;
      }
      files := files[kind := pages.value];
      kinds := kinds - {kind};
    }
    AllRendered(render, all, files);
    r := Some(files);
  }

  ghost predicate Renders(render: Kind -> Option<seq<string>>, files: map<Kind, seq<string>>) {
    forall kind | kind in files :: render(kind) == Some(files[kind])
  }

  lemma AllRendered(render: Kind -> Option<seq<string>>, kinds: set<Kind>, files: map<Kind, seq<string>>)
    requires Renders(render, files) && files.Keys == kinds
    ensures Assemble(kinds, render) == Some(files)
  {
    assert forall kind | kind in kinds :: kind in files && render(kind).Some?;
    assert files == map kind | kind in kinds :: render(kind).value;
  }

  lemma OneNotRendered(render: Kind -> Option<seq<string>>, kinds: set<Kind>, kind: Kind)
    requires kind in kinds && render(kind).None?
    ensures Assemble(kinds, render) == None
  {
  }

  /** The renderer's pass over one module. */
  method RenderModule(lay: Layout, name: string, items: seq<Item>, previous: Previous) returns (r: Option<ModuleFiles>)
    ensures r == Render(lay, name, items, previous)
  {
    var whole := Page(lay, name, BlocksOf(items));
    if items == [] || (Fits(whole) && !previous.any) {
      return if Fits(whole) then Some(Whole(whole)) else None;
    }
    var pages := RenderKinds(lay, name, items, previous);
    r := if pages.None? then None else Some(Split(pages.value));
  }

  // ---------------------------------------------------------------------------------
  // Whatever the previous pages were: nothing is lost and every file is within limits
  // ---------------------------------------------------------------------------------

  /** The pages are those of a partition of the blocks into consecutive chunks. */
  ghost predicate PagesHold(lay: Layout, title: string, pages: seq<string>, blocks: seq<Block>) {
    exists chunks :: Flatten(chunks) == blocks && pages == PageTexts(lay, title, chunks)
  }

  lemma RenderGroupHolds(lay: Layout, title: string, blocks: seq<Block>, previous: seq<string>)
    requires RenderGroup(lay, title, blocks, previous).Some?
    ensures AllFit(RenderGroup(lay, title, blocks, previous).value)
    ensures PagesHold(lay, title, RenderGroup(lay, title, blocks, previous).value, blocks)
  {
    PlacementKeeps(Head(lay), Room(lay, title), BreaksOf(ReadHeadings(previous)), blocks);
  }

  /** For any previous pages, a successful run writes only files within both limits, and the
      pages of each kind hold exactly that kind's declarations in order. */
  lemma RenderHolds(lay: Layout, name: string, items: seq<Item>, previous: Previous)
    requires Render(lay, name, items, previous).Some?
    ensures
      match Render(lay, name, items, previous).value
      case Whole(text) => Fits(text) && text == Page(lay, name, BlocksOf(items))
      case Split(pages) =>
        && pages.Keys == KindsIn(items)
        && forall kind | kind in pages ::
             AllFit(pages[kind]) && PagesHold(lay, Title(name, kind), pages[kind], Group(items, kind))
  {
    var files := Render(lay, name, items, previous).value;
    if files.Split? {
      forall kind | kind in files.pages
        ensures AllFit(files.pages[kind])
        ensures PagesHold(lay, Title(name, kind), files.pages[kind], Group(items, kind))
      {
        RenderGroupHolds(lay, Title(name, kind), Group(items, kind), PreviousPages(previous, kind));
      }
    }
  }

  // ---------------------------------------------------------------------------------
  // Rendering again on top of one's own output changes nothing
  // ---------------------------------------------------------------------------------

  /** The directory as the next run finds it. */
  function Written(files: ModuleFiles): Previous {
    match files
    case Whole(_) => Previous(false, map[])
    case Split(pages) => Previous(exists kind | kind in pages :: pages[kind] != [], pages)
  }

  ghost predicate Distinct<T>(s: seq<T>) {
    forall i, j :: 0 <= i < j < |s| ==> s[i] != s[j]
  }

  lemma {:induction false} FlattenAt<T>(pages: seq<seq<T>>, i: nat, j: nat)
    requires i < |pages| && j < |pages[i]|
    ensures |Flatten(pages[..i])| + j < |Flatten(pages[..i + 1])| <= |Flatten(pages)|
    ensures Flatten(pages)[|Flatten(pages[..i])| + j] == pages[i][j]
  {
    assert pages == pages[..i + 1] + pages[i + 1..];
    FlattenConcat(pages[..i + 1], pages[i + 1..]);
    FlattenTake(pages, i + 1);
  }

  lemma FlattenMonotone<T>(pages: seq<seq<T>>, i: nat, k: nat)
    requires i <= k <= |pages|
    ensures |Flatten(pages[..i])| <= |Flatten(pages[..k])|
  {
    assert pages[..k] == pages[..i] + pages[i..k];
    FlattenConcat(pages[..i], pages[i..k]);
  }

  lemma UniqueWhenDistinct<T>(head: T -> string, pages: seq<seq<T>>)
    requires Distinct(Heads(head, Flatten(pages)))
    ensures Unique(PageHeads(head, pages))
  {
    var hs := PageHeads(head, pages);
    forall i, j, k, l | 0 <= i < |hs| && 0 <= j < |hs[i]| && 0 <= k < |hs| && 0 <= l < |hs[k]| && hs[i][j] == hs[k][l]
      ensures i == k && j == l
    {
      SameHeadSamePlace(head, pages, i, j, k, l);
    }
  }

  lemma SameHeadSameOffset<T>(head: T -> string, pages: seq<seq<T>>, i: nat, j: nat, k: nat, l: nat)
    requires Distinct(Heads(head, Flatten(pages)))
    requires i < |pages| && j < |pages[i]| && k < |pages| && l < |pages[k]|
    requires head(pages[i][j]) == head(pages[k][l])
    ensures |Flatten(pages[..i])| + j == |Flatten(pages[..k])| + l
    ensures |Flatten(pages[..i])| + j < |Flatten(pages[..i + 1])| && |Flatten(pages[..k])| + l < |Flatten(pages[..k + 1])|
  {
    FlattenAt(pages, i, j);
    FlattenAt(pages, k, l);
    SameHeadSameIndex(head, Flatten(pages), |Flatten(pages[..i])| + j, |Flatten(pages[..k])| + l);
  }

  lemma SameHeadSameIndex<T>(head: T -> string, blocks: seq<T>, p: nat, q: nat)
    requires Distinct(Heads(head, blocks)) && p < |blocks| && q < |blocks| && head(blocks[p]) == head(blocks[q])
    ensures p == q
  {
    assert Heads(head, blocks)[p] == Heads(head, blocks)[q];
  }

  lemma SameHeadSamePlace<T>(head: T -> string, pages: seq<seq<T>>, i: nat, j: nat, k: nat, l: nat)
    requires Distinct(Heads(head, Flatten(pages)))
    requires i < |pages| && j < |pages[i]| && k < |pages| && l < |pages[k]|
    requires head(pages[i][j]) == head(pages[k][l])
    ensures i == k && j == l
  {
    SameHeadSameOffset(head, pages, i, j, k, l);
    if i < k {
      FlattenMonotone(pages, i + 1, k);
    } else if k < i {
      FlattenMonotone(pages, k + 1, i);
    }
  }

  lemma RoomyWhenFitting(lay: Layout, title: string, chunks: seq<seq<Block>>)
    requires NoBreak(title) && AllFit(PageTexts(lay, title, chunks))
    ensures Roomy(Room(lay, title), chunks)
  {
    forall i, j | 0 <= i < |chunks| && 0 < j <= |chunks[i]| ensures Room(lay, title)(chunks[i][..j]) {
      assert PageTexts(lay, title, chunks)[i] == Page(lay, title + Suffix(i + 1), chunks[i]);
      ShorterTitleFits(lay, title, Suffix(i + 1), chunks[i]);
      FewerBlocksFit(lay, title, chunks[i], j);
    }
  }

  lemma ReadBackPage(lay: Layout, title: string, chunk: seq<Block>)
    requires PlainLayout(lay) && NoBreak(title) && forall b | b in chunk :: WellFormed(b)
    ensures FindHeadings(Page(lay, title, chunk)) == Heads(Head(lay), chunk)
  {
    PageHeadings(lay, title, chunk);
    assert Headings(lay, chunk) == Heads(Head(lay), chunk);
  }

  lemma ReadBackAt(lay: Layout, title: string, chunks: seq<seq<Block>>, i: nat)
    requires PlainLayout(lay) && NoBreak(title) && i < |chunks| && forall b | b in chunks[i] :: WellFormed(b)
    ensures ReadHeadings(PageTexts(lay, title, chunks))[i] == PageHeads(Head(lay), chunks)[i]
  {
    NumberedTitle(title, i + 1);
    ReadBackPage(lay, title + Suffix(i + 1), chunks[i]);
    assert PageTexts(lay, title, chunks)[i] == Page(lay, title + Suffix(i + 1), chunks[i]);
  }

  lemma NumberedTitle(title: string, n: nat)
    requires NoBreak(title) && n >= 1
    ensures NoBreak(title + Suffix(n))
  {
  }

  lemma ReadBack(lay: Layout, title: string, chunks: seq<seq<Block>>)
    requires PlainLayout(lay) && NoBreak(title)
    requires forall i, b | 0 <= i < |chunks| && b in chunks[i] :: WellFormed(b)
    ensures ReadHeadings(PageTexts(lay, title, chunks)) == PageHeads(Head(lay), chunks)
  {
    forall i | 0 <= i < |chunks|
      ensures ReadHeadings(PageTexts(lay, title, chunks))[i] == PageHeads(Head(lay), chunks)[i]
    {
      ReadBackAt(lay, title, chunks, i);
    }
  }

  /** The blocks of one kind: well formed, and no two with the same heading. */
  ghost predicate Renderable(lay: Layout, blocks: seq<Block>) {
    (forall b | b in blocks :: WellFormed(b)) && Distinct(Heads(Head(lay), blocks))
  }

  lemma RenderGroupIsStable(lay: Layout, title: string, blocks: seq<Block>, previous: seq<string>)
    requires PlainLayout(lay) && NoBreak(title) && blocks != [] && Renderable(lay, blocks)
    requires RenderGroup(lay, title, blocks, previous).Some?
    ensures
      var pages := RenderGroup(lay, title, blocks, previous).value;
      pages != [] && RenderGroup(lay, title, blocks, pages) == Some(pages)
  {
    var head, room := Head(lay), Room(lay, title);
    var br := BreaksOf(ReadHeadings(previous));
    PlacementKeeps(head, room, br, blocks);
    var chunks := PlaceAll(head, room, br, [[]], blocks).value;
    forall i, b | 0 <= i < |chunks| && b in chunks[i] ensures WellFormed(b) {
      var j :| 0 <= j < |chunks[i]| && chunks[i][j] == b;
      FlattenAt(chunks, i, j);
    }
    RoomyWhenFitting(lay, title, chunks);
    UniqueWhenDistinct(head, chunks);
    ReadBack(lay, title, chunks);
    PlacementIsStable(head, room, chunks);
  }

  lemma {:induction false} GroupHolds(items: seq<Item>, kind: Kind)
    ensures kind in KindsIn(items) <==> Group(items, kind) != []
  {
    if items != [] {
      var front := items[..|items| - 1];
      GroupHolds(front, kind);
      assert items == front + [Last(items)];
      if kind in KindsIn(front) {
        var i :| 0 <= i < |front| && front[i].kind == kind;
        assert items[i].kind == kind;
      }
      if kind in KindsIn(items) && Last(items).kind != kind {
        var i :| 0 <= i < |items| && items[i].kind == kind;
        assert front[i].kind == kind;
      }
    }
  }

  lemma TitleIsOneLine(name: string, kind: Kind)
    requires NoBreak(name)
    ensures NoBreak(Title(name, kind))
  {
    assert NoBreak(": ") && NoBreak(KindName(kind));
  }

  lemma RenderKindIsStable(lay: Layout, name: string, items: seq<Item>, previous: Previous, next: Previous, kind: Kind)
    requires PlainLayout(lay) && NoBreak(name) && kind in KindsIn(items) && Renderable(lay, Group(items, kind))
    requires RenderKind(lay, name, items, previous, kind) == Some(PreviousPages(next, kind))
    ensures PreviousPages(next, kind) != []
    ensures RenderKind(lay, name, items, next, kind) == Some(PreviousPages(next, kind))
  {
    GroupHolds(items, kind);
    TitleIsOneLine(name, kind);
    RenderGroupIsStable(lay, Title(name, kind), Group(items, kind), PreviousPages(previous, kind));
  }

  lemma RenderSplitIsStable(lay: Layout, name: string, items: seq<Item>, previous: Previous)
    requires PlainLayout(lay) && NoBreak(name) && items != []
    requires forall kind :: Renderable(lay, Group(items, kind))
    requires RenderSplit(lay, name, items, previous).Some?
    ensures
      var pages := RenderSplit(lay, name, items, previous).value;
      Written(Split(pages)).any && RenderSplit(lay, name, items, Written(Split(pages))) == Some(pages)
  {
    var render := KindRenderer(lay, name, items, previous);
    var pages := Assemble(KindsIn(items), render).value;
    var next := Written(Split(pages));
    var again := KindRenderer(lay, name, items, next);
    forall kind | kind in KindsIn(items) ensures pages[kind] != [] && again(kind) == render(kind) {
      assert render(kind) == Some(PreviousPages(next, kind));
      RenderKindIsStable(lay, name, items, previous, next, kind);
    }
    AssembleAgrees(KindsIn(items), render, again);
    assert items[0].kind in pages;
  }

  lemma AssembleAgrees(kinds: set<Kind>, f: Kind -> Option<seq<string>>, g: Kind -> Option<seq<string>>)
    requires forall kind | kind in kinds :: f(kind) == g(kind)
    ensures Assemble(kinds, f) == Assemble(kinds, g)
  {
    if Assemble(kinds, f).Some? {
      assert Assemble(kinds, f).value == Assemble(kinds, g).value;
    }
  }

  /** The renderer reaches a fixed point in one run: whatever pages it started from, running
      it again on the directory it wrote gives back exactly the same files. */
  lemma RenderIsStable(lay: Layout, name: string, items: seq<Item>, previous: Previous)
    requires PlainLayout(lay) && NoBreak(name)
    requires forall kind :: Renderable(lay, Group(items, kind))
    requires Render(lay, name, items, previous).Some?
    ensures
      var files := Render(lay, name, items, previous).value;
      Render(lay, name, items, Written(files)) == Some(files)
  {
    if Render(lay, name, items, previous).value.Split? {
      RenderSplitIsStable(lay, name, items, previous);
    }
  }
}
