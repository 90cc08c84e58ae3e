/** Distributing blocks over pages while keeping the page boundaries of an earlier run.
    `head` names a block and `room` says whether blocks share a page within the limits. */
module Placement {
  import opened Prelude

  /** Where the earlier run put its page breaks: the page index each heading opened, and the
      page number each heading closed. */
  datatype Breaks = Breaks(starts: map<string, nat>, boundaries: map<string, nat>)

  /** Empty pages are appended until page index `n` exists. */
  function Fill<T>(chunks: seq<seq<T>>, n: nat): (r: seq<seq<T>>)
    ensures |r| >= |chunks| && |r| > n
    decreases n + 1 - |chunks|
  {
    if |chunks| <= n then Fill(chunks + [[]], n) else chunks
  }

  function Get(m: map<string, nat>, h: string): nat {
    if h in m then m[h] else 0
  }

  function Last<T>(s: seq<T>): T
    requires s != []
  {
    s[|s| - 1]
  }

  /** Whether a block must open a new page after the blocks already on the last one. */
  predicate Overflows<T>(head: T -> string, room: seq<T> -> bool, br: Breaks, chunks: seq<seq<T>>, b: T)
    requires chunks != []
  {
    var page := Last(chunks);
    (page != [] && Get(br.boundaries, head(Last(page))) == |chunks|) || !room(page + [b])
  }

  /** Adds one block; `None` when the block alone exceeds the limits of an empty page. */
  function Place<T>(head: T -> string, room: seq<T> -> bool, br: Breaks, chunks: seq<seq<T>>, b: T)
    : (r: Option<seq<seq<T>>>)
    requires chunks != []
    ensures r.Some? ==> r.value != []
  {
    var filled := Fill(chunks, Get(br.starts, head(b)));
    var page := Last(filled);
    if Overflows(head, room, br, filled, b) then
      if page == [] then None else Some(filled + [[b]])
    else
      Some(filled[..|filled| - 1] + [page + [b]])
  }

  function PlaceAll<T>(head: T -> string, room: seq<T> -> bool, br: Breaks, chunks: seq<seq<T>>, blocks: seq<T>)
    : (r: Option<seq<seq<T>>>)
    requires chunks != []
    decreases |blocks|
  {
    if blocks == [] then Some(chunks)
    else
      match Place(head, room, br, chunks, blocks[0])
      case None => None
      case Some(next) => PlaceAll(head, room, br, next, blocks[1..])
  }

  /** The renderer's loop over one group of blocks. */
  method Paginate<T>(head: T -> string, room: seq<T> -> bool, br: Breaks, blocks: seq<T>)
    returns (r: Option<seq<seq<T>>>)
    ensures r == PlaceAll(head, room, br, [[]], blocks)
  {
    var chunks: seq<seq<T>> := [[]];
    for i := 0 to |blocks|
      invariant chunks != []
      invariant PlaceAll(head, room, br, chunks, blocks[i..]) == PlaceAll(head, room, br, [[]], blocks)
    {
      var b := blocks[i];
      ghost var before := chunks;
      assert blocks[i..][0] == b && blocks[i..][1..] == blocks[i + 1..];
      while |chunks| <= Get(br.starts, head(b))
        invariant chunks != []
        invariant Fill(chunks, Get(br.starts, head(b))) == Fill(before, Get(br.starts, head(b)))
      {
        chunks := chunks + [[]];
      }
      if Overflows(head, room, br, chunks, b) {
        if Last(chunks) == [] {
          return None;
        }
        chunks := chunks + [[]];
        assert Last(chunks) + [b] == [b];
      }
      chunks := chunks[..|chunks| - 1] + [Last(chunks) + [b]];
    }
    assert blocks[|blocks|..] == [];
    r := Some(chunks);
  }

  // ---------------------------------------------------------------------------------
  // Nothing is lost, repeated or reordered, whatever the earlier boundaries were
  // ---------------------------------------------------------------------------------

  lemma {:induction false} FillKeeps<T>(chunks: seq<seq<T>>, n: nat)
    ensures Flatten(Fill(chunks, n)) == Flatten(chunks)
    decreases n + 1 - |chunks|
  {
    if |chunks| <= n {
      FlattenSnoc(chunks, []);
      FillKeeps(chunks + [[]], n);
    }
  }

  lemma PlaceKeeps<T>(head: T -> string, room: seq<T> -> bool, br: Breaks, chunks: seq<seq<T>>, b: T)
    requires chunks != [] && Place(head, room, br, chunks, b).Some?
    ensures Flatten(Place(head, room, br, chunks, b).value) == Flatten(chunks) + [b]
    ensures Last(Place(head, room, br, chunks, b).value) != []
  {
    var n := Get(br.starts, head(b));
    FillKeeps(chunks, n);
    var filled := Fill(chunks, n);
    if Overflows(head, room, br, filled, b) {
      FlattenSnoc(filled, [b]);
    } else {
      FlattenGrow(filled, b);
    }
  }

  lemma FlattenGrow<T>(chunks: seq<seq<T>>, b: T)
    requires chunks != []
    ensures Flatten(chunks[..|chunks| - 1] + [Last(chunks) + [b]]) == Flatten(chunks) + [b]
  {
    FlattenSnoc(chunks[..|chunks| - 1], Last(chunks) + [b]);
  }

  lemma PlaceFirst<T>(
    head: T -> string, room: seq<T> -> bool, br: Breaks, chunks: seq<seq<T>>, blocks: seq<T>, r: seq<seq<T>>)
    returns (next: seq<seq<T>>)
    requires chunks != [] && blocks != [] && PlaceAll(head, room, br, chunks, blocks) == Some(r)
    ensures next != [] && Last(next) != [] && Flatten(next) == Flatten(chunks) + [blocks[0]]
    ensures PlaceAll(head, room, br, next, blocks[1..]) == Some(r)
  {
    next := Place(head, room, br, chunks, blocks[0]).value;
    PlaceKeeps(head, room, br, chunks, blocks[0]);
  }

  lemma {:induction false} PlaceAllKeeps<T>(
    head: T -> string, room: seq<T> -> bool, br: Breaks, chunks: seq<seq<T>>, blocks: seq<T>, r: seq<seq<T>>)
    requires chunks != [] && PlaceAll(head, room, br, chunks, blocks) == Some(r)
    ensures Flatten(r) == Flatten(chunks) + blocks && r != [] && (blocks != [] ==> Last(r) != [])
    decreases |blocks|
  {
    if blocks != [] {
      var b, rest := blocks[0], blocks[1..];
      var next := PlaceFirst(head, room, br, chunks, blocks, r);
      PlaceAllKeeps(head, room, br, next, rest, r);
      Associate(Flatten(chunks), [b], rest);
      assert [b] + rest == blocks;
    }
  }

  /** For any earlier boundaries, even stale ones, the pages hold the blocks in order, each
      exactly once; the last page is never left empty. */
  lemma PlacementKeeps<T>(head: T -> string, room: seq<T> -> bool, br: Breaks, blocks: seq<T>)
    requires PlaceAll(head, room, br, [[]], blocks).Some?
    ensures
      var pages := PlaceAll(head, room, br, [[]], blocks).value;
      Flatten(pages) == blocks && pages != [] && (blocks != [] ==> Last(pages) != [])
  {
    PlaceAllKeeps(head, room, br, [[]], blocks, PlaceAll(head, room, br, [[]], blocks).value);
    assert Flatten<T>([[]]) == [];
  }

  // ---------------------------------------------------------------------------------
  // The boundaries of an earlier run
  // ---------------------------------------------------------------------------------

  /** The page index each of the first `n` pages after page 0 opens with. */
  function Starts(pages: seq<seq<string>>, n: nat): map<string, nat>
    requires n <= |pages|
  {
    if n <= 1 then map[]
    else
      var m := Starts(pages, n - 1);
      if pages[n - 1] == [] then m else m[pages[n - 1][0] := n - 1]
  }

  /** The page number each of the first `n` pages closes with. */
  function Boundaries(pages: seq<seq<string>>, n: nat): map<string, nat>
    requires n <= |pages|
  {
    if n == 0 then map[]
    else
      var m := Boundaries(pages, n - 1);
      if pages[n - 1] == [] then m else m[Last(pages[n - 1]) := n]
  }

  /** Reads the breaks out of the headings of the earlier pages. */
  function BreaksOf(pages: seq<seq<string>>): Breaks {
    Breaks(Starts(pages, |pages|), if pages == [] then map[] else Boundaries(pages, |pages| - 1))
  }

  /** No heading occurs at two places. */
  ghost predicate Unique(pages: seq<seq<string>>) {
    forall i, j, k, l | 0 <= i < |pages| && 0 <= j < |pages[i]| && 0 <= k < |pages| && 0 <= l < |pages[k]| ::
      pages[i][j] == pages[k][l] ==> i == k && j == l
  }

  lemma {:induction false} StartsAt(pages: seq<seq<string>>, n: nat, i: nat, j: nat)
    requires n <= |pages| && Unique(pages) && i < |pages| && j < |pages[i]|
    ensures Get(Starts(pages, n), pages[i][j]) == if j == 0 && i < n then i else 0
  {
    if n > 1 {
      StartsAt(pages, n - 1, i, j);
    }
  }

  lemma {:induction false} BoundariesAt(pages: seq<seq<string>>, n: nat, i: nat, j: nat)
    requires n <= |pages| && Unique(pages) && i < |pages| && j + 1 < |pages[i]|
    ensures Get(Boundaries(pages, n), pages[i][j]) == 0
  {
    if n > 0 {
      BoundariesAt(pages, n - 1, i, j);
    }
  }

  // ---------------------------------------------------------------------------------
  // Placing the same blocks against their own pages changes nothing
  // ---------------------------------------------------------------------------------

  function Heads<T>(head: T -> string, chunk: seq<T>): seq<string> {
    seq(|chunk|, i requires 0 <= i < |chunk| => head(chunk[i]))
  }

  function PageHeads<T>(head: T -> string, pages: seq<seq<T>>): seq<seq<string>> {
    seq(|pages|, i requires 0 <= i < |pages| => Heads(head, pages[i]))
  }

  /** Pages a run may have produced: every page has room for its blocks, as it grew. */
  ghost predicate Roomy<T>(room: seq<T> -> bool, pages: seq<seq<T>>) {
    forall i, j :: 0 <= i < |pages| && 0 < j <= |pages[i]| ==> room(pages[i][..j])
  }

  /** The pages without the empty ones at the end, but never no page at all. */
  function Trim<T>(pages: seq<seq<T>>): (r: seq<seq<T>>)
    ensures r != [] && |r| <= if pages == [] then 1 else |pages|
  {
    if pages == [] then [[]]
    else if Last(pages) == [] then Trim(pages[..|pages| - 1])
    else pages
  }

  lemma {:induction false} FillTrim<T>(pages: seq<seq<T>>)
    ensures Fill(Trim(pages), |pages|) == pages + [[]]
  {
    if pages == [] {
      assert [[]] == pages + [[]];
    } else if Last(pages) == [] {
      var front := pages[..|pages| - 1];
      FillTrim(front);
      FillMore(Trim(front), |front|);
      assert front + [[]] == pages;
    } else {
      assert Fill(pages, |pages|) == Fill(pages + [[]], |pages|);
    }
  }

  lemma {:induction false} FillMore<T>(chunks: seq<seq<T>>, n: nat)
    requires |chunks| <= n + 1
    ensures Fill(chunks, n + 1) == Fill(chunks, n) + [[]]
    decreases n + 1 - |chunks|
  {
    if |chunks| <= n {
      FillMore(chunks + [[]], n);
    } else {
      assert Fill(chunks, n + 1) == Fill(chunks + [[]], n + 1);
    }
  }

  /** One block put back where it was. */
  lemma PlaceBack<T>(head: T -> string, room: seq<T> -> bool, pages: seq<seq<T>>, i: nat, j: nat)
    requires i < |pages| && j < |pages[i]|
    requires Unique(PageHeads(head, pages)) && Roomy(room, pages)
    ensures
      var br := BreaksOf(PageHeads(head, pages));
      var before := if j == 0 then Trim(pages[..i]) else pages[..i] + [pages[i][..j]];
      Place(head, room, br, before, pages[i][j]) == Some(pages[..i] + [pages[i][..j + 1]])
  {
    var hs := PageHeads(head, pages);
    var br := BreaksOf(hs);
    var b := pages[i][j];
    assert head(b) == hs[i][j];
    StartsAt(hs, |hs|, i, j);
    assert pages[i][..j] + [b] == pages[i][..j + 1];
    var filled := pages[..i] + [pages[i][..j]];
    if j == 0 {
      assert |pages[..i]| == i;
      FillTrim(pages[..i]);
      assert Fill(Trim(pages[..i]), i) == filled;
    } else {
      var prior := pages[i][j - 1];
      assert head(prior) == hs[i][j - 1];
      BoundariesAt(hs, |hs| - 1, i, j - 1);
      assert Last(Last(filled)) == prior;
      assert Fill(filled, 0) == filled;
    }
    assert filled[..|filled| - 1] == pages[..i];
    assert !Overflows(head, room, br, filled, b);
  }

  /** The rest of one page put back. */
  lemma {:induction false} PlacePageBack<T>(
    head: T -> string, room: seq<T> -> bool, pages: seq<seq<T>>, i: nat, j: nat)
    requires i < |pages| && j <= |pages[i]|
    requires Unique(PageHeads(head, pages)) && Roomy(room, pages)
    ensures
      var br := BreaksOf(PageHeads(head, pages));
      var before := if j == 0 then Trim(pages[..i]) else pages[..i] + [pages[i][..j]];
      PlaceAll(head, room, br, before, pages[i][j..]) == Some(Trim(pages[..i + 1]))
    decreases |pages[i]| - j
  {
    assert pages[..i + 1] == pages[..i] + [pages[i]];
    if j == |pages[i]| {
      assert pages[i][..j] == pages[i];
      assert pages[..i + 1][..i] == pages[..i];
    } else {
      PlaceBack(head, room, pages, i, j);
      PlacePageBack(head, room, pages, i, j + 1);
      assert pages[i][j..][1..] == pages[i][j + 1..];
    }
  }

  lemma {:induction false} PlaceAllConcat<T>(
    head: T -> string, room: seq<T> -> bool, br: Breaks, chunks: seq<seq<T>>, a: seq<T>, b: seq<T>)
    requires chunks != [] && PlaceAll(head, room, br, chunks, a).Some?
    requires PlaceAll(head, room, br, chunks, a).value != []
    ensures PlaceAll(head, room, br, chunks, a + b)
         == PlaceAll(head, room, br, PlaceAll(head, room, br, chunks, a).value, b)
    decreases |a|
  {
    if a == [] {
      assert a + b == b;
    } else {
      assert (a + b)[1..] == a[1..] + b;
      PlaceAllConcat(head, room, br, Place(head, room, br, chunks, a[0]).value, a[1..], b);
    }
  }

  lemma {:induction false} PlacePagesBack<T>(
    head: T -> string, room: seq<T> -> bool, br: Breaks, pages: seq<seq<T>>, i: nat)
    requires i <= |pages| && Unique(PageHeads(head, pages)) && Roomy(room, pages)
    requires br == BreaksOf(PageHeads(head, pages))
    ensures PlaceAll(head, room, br, [[]], Flatten(pages[..i])) == Some(Trim(pages[..i]))
  {
    if i > 0 {
      PlacePagesBack(head, room, br, pages, i - 1);
      PlacePageBack(head, room, pages, i - 1, 0);
      assert pages[i - 1][0..] == pages[i - 1];
      FlattenTake(pages, i);
      PlaceAllConcat(head, room, br, [[]], Flatten(pages[..i - 1]), pages[i - 1]);
    }
  }

  lemma FlattenTake<T>(pages: seq<seq<T>>, i: nat)
    requires 0 < i <= |pages|
    ensures Flatten(pages[..i]) == Flatten(pages[..i - 1]) + pages[i - 1]
  {
    assert pages[..i] == pages[..i - 1] + [pages[i - 1]];
    FlattenSnoc(pages[..i - 1], pages[i - 1]);
  }

  /** Stability: against the boundaries of their own pages, the same blocks fall into exactly
      the same pages, empty pages in the middle included. */
  lemma PlacementIsStable<T>(head: T -> string, room: seq<T> -> bool, pages: seq<seq<T>>)
    requires pages != [] && Last(pages) != []
    requires Unique(PageHeads(head, pages)) && Roomy(room, pages)
    ensures PlaceAll(head, room, BreaksOf(PageHeads(head, pages)), [[]], Flatten(pages)) == Some(pages)
  {
    PlacePagesBack(head, room, BreaksOf(PageHeads(head, pages)), pages, |pages|);
    assert pages[..|pages|] == pages;
  }
}
