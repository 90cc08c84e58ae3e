/** The route traversal that decides under which `cfg` conditions a public item is
    reachable from the crate root, and the merge of the routes into one condition. */
module CfgRoutes {
  import opened Prelude

  type Id = nat

  /** The text of one `cfg` condition; the traversal never looks inside it. */
  type Gate = string

  datatype Body =
    | Module(items: seq<Id>)
    | Use(target: Option<Id>, complementary: bool)
    | Declaration

  datatype Item = Item(crate: nat, gates: seq<Gate>, body: Body)

  datatype Document = Document(index: map<Id, Item>, root: Id)

  /** A step of the traversal; `skipsGate` marks the extra visit made for a re-export
      that has a complementary twin in the source. */
  datatype Edge = Edge(to: Id, skipsGate: bool)

  function Gates(doc: Document, v: Id): seq<Gate> {
    if v in doc.index then doc.index[v].gates else []
  }

  function Edges(doc: Document, v: Id): seq<Edge>
    requires v in doc.index && doc.root in doc.index
  {
    match doc.index[v].body
    case Module(items) => seq(|items|, i requires 0 <= i < |items| => Edge(items[i], false))
    case Use(Some(t), complementary) =>
      if t in doc.index && doc.index[t].crate == doc.index[doc.root].crate then
        [Edge(t, false)] + if complementary then [Edge(t, true)] else []
      else []
    case Use(None, _) => []
    case Declaration => []
  }

  // ---------------------------------------------------------------------------------
  // What the conditions mean: walks from the root, of any length, cycles included.
  // ---------------------------------------------------------------------------------

  ghost predicate IsWalk(doc: Document, v: Id, es: seq<Edge>, id: Id)
    requires doc.root in doc.index
    decreases |es|
  {
    if es == [] then v == id
    else v in doc.index && es[0] in Edges(doc, v) && IsWalk(doc, es[0].to, es[1..], id)
  }

  predicate AllHold(gates: seq<Gate>, holds: Gate -> bool) {
    forall g | g in gates :: holds(g)
  }

  /** Every gate met on the walk is true; an edge marked `skipsGate` leaves its item ungated. */
  predicate Open(doc: Document, v: Id, es: seq<Edge>, holds: Gate -> bool)
    decreases |es|
  {
    if es == [] then AllHold(Gates(doc, v), holds)
    else (es[0].skipsGate || AllHold(Gates(doc, v), holds)) && Open(doc, es[0].to, es[1..], holds)
  }

  ghost predicate Reachable(doc: Document, id: Id)
    requires doc.root in doc.index
  {
    exists es :: IsWalk(doc, doc.root, es, id)
  }

  ghost predicate Available(doc: Document, id: Id, holds: Gate -> bool)
    requires doc.root in doc.index
  {
    exists es :: IsWalk(doc, doc.root, es, id) && Open(doc, doc.root, es, holds)
  }

  // ---------------------------------------------------------------------------------
  // The traversal, as the list of effects it has in order.
  // ---------------------------------------------------------------------------------

  /** First occurrences only, in order. */
  function Dedup<T(==)>(s: seq<T>): seq<T> {
    if s == [] then []
    else
      var d := Dedup(s[..|s| - 1]);
      if s[|s| - 1] in d then d else d + [s[|s| - 1]]
  }

  lemma {:induction false} DedupKeeps<T(!new)>(s: seq<T>)
    ensures forall x :: x in Dedup(s) <==> x in s
  {
    if s != [] {
      DedupKeeps(s[..|s| - 1]);
      assert s == s[..|s| - 1] + [s[|s| - 1]];
    }
  }

  lemma {:induction false} DedupDistinct<T>(s: seq<T>)
    ensures forall i, j :: 0 <= i < j < |Dedup(s)| ==> Dedup(s)[i] != Dedup(s)[j]
  {
    if s != [] {
      DedupDistinct(s[..|s| - 1]);
    }
  }

  type Route = seq<Gate>

  datatype Effect = Append(id: Id, route: Route) | Missing(id: Id)

  ghost predicate AllAppend(effects: seq<Effect>) {
    forall x :: x in effects ==> x.Append?
  }

  ghost function Unvisited(doc: Document, ancestors: seq<Id>): set<Id> {
    doc.index.Keys - set a | a in ancestors
  }

  lemma UnvisitedShrinks(doc: Document, ancestors: seq<Id>, v: Id)
    requires v in doc.index && v !in ancestors
    ensures Unvisited(doc, ancestors + [v]) < Unvisited(doc, ancestors)
  {
    assert v in Unvisited(doc, ancestors);
    assert v in ancestors + [v];
    assert v !in Unvisited(doc, ancestors + [v]);
  }

  ghost function Trace(doc: Document, v: Id, inherited: Route, ancestors: seq<Id>): seq<Effect>
    requires doc.root in doc.index
    decreases Unvisited(doc, ancestors), 0
  {
    if v in ancestors then []
    else if v !in doc.index then [Missing(v)]
    else
      UnvisitedShrinks(doc, ancestors, v);
      var own := Dedup(inherited + doc.index[v].gates);
      [Append(v, own)] + TraceEdges(doc, Edges(doc, v), own, inherited, ancestors + [v])
  }

  ghost function TraceEdges(doc: Document, es: seq<Edge>, own: Route, inherited: Route, ancestors: seq<Id>): seq<Effect>
    requires doc.root in doc.index
    decreases Unvisited(doc, ancestors), |es|
  {
    if es == [] then []
    else
      TraceEdges(doc, es[..|es| - 1], own, inherited, ancestors)
      + var e := es[|es| - 1]; Trace(doc, e.to, if e.skipsGate then inherited else own, ancestors)
  }

  lemma {:induction false} TraceEdgesContains(
    doc: Document, es: seq<Edge>, own: Route, inherited: Route, ancestors: seq<Id>, x: Effect)
    requires doc.root in doc.index
    ensures x in TraceEdges(doc, es, own, inherited, ancestors) <==>
            exists e :: e in es && x in Trace(doc, e.to, if e.skipsGate then inherited else own, ancestors)
    decreases |es|
  {
    if es != [] {
      var last := es[|es| - 1];
      assert es == es[..|es| - 1] + [last];
      TraceEdgesContains(doc, es[..|es| - 1], own, inherited, ancestors, x);
    }
  }

  /** Every effect of the traversal is explained by a walk carrying exactly its conditions. */
  lemma {:induction false} TraceSound(
    doc: Document, v: Id, inherited: Route, ancestors: seq<Id>, x: Effect) returns (es: seq<Edge>)
    requires doc.root in doc.index
    requires x in Trace(doc, v, inherited, ancestors)
    ensures IsWalk(doc, v, es, x.id)
    ensures x.Append? <==> x.id in doc.index
    ensures x.Append? ==> forall holds: Gate -> bool ::
              AllHold(x.route, holds) <==> AllHold(inherited, holds) && Open(doc, v, es, holds)
    decreases Unvisited(doc, ancestors)
  {
    es := [];
    if v in doc.index {
      var own := Dedup(inherited + doc.index[v].gates);
      DedupKeeps(inherited + doc.index[v].gates);
      if x != Append(v, own) {
        UnvisitedShrinks(doc, ancestors, v);
        TraceEdgesContains(doc, Edges(doc, v), own, inherited, ancestors + [v], x);
        var e :| e in Edges(doc, v)
              && x in Trace(doc, e.to, if e.skipsGate then inherited else own, ancestors + [v]);
        var rest := TraceSound(doc, e.to, if e.skipsGate then inherited else own, ancestors + [v], x);
        es := [e] + rest;
        assert es[1..] == rest;
      }
    }
  }

  /** The identities a walk visits. */
  ghost function Nodes(v: Id, es: seq<Edge>): set<Id>
    decreases |es|
  {
    if es == [] then {v} else {v} + Nodes(es[0].to, es[1..])
  }

  /** No identity is visited twice. */
  ghost predicate Simple(v: Id, es: seq<Edge>)
    decreases |es|
  {
    es == [] || (v !in Nodes(es[0].to, es[1..]) && Simple(es[0].to, es[1..]))
  }

  /** A walk that repeats no item and meets no ancestor is followed by the traversal. */
  lemma {:induction false} TraceComplete(
    doc: Document, v: Id, inherited: Route, ancestors: seq<Id>, es: seq<Edge>, id: Id) returns (x: Effect)
    requires doc.root in doc.index
    requires IsWalk(doc, v, es, id)
    requires Simple(v, es) && forall n :: n in Nodes(v, es) ==> n !in ancestors
    ensures x in Trace(doc, v, inherited, ancestors) && x.id == id
    ensures x.Append? ==> forall holds: Gate -> bool ::
              AllHold(x.route, holds) <==> AllHold(inherited, holds) && Open(doc, v, es, holds)
    decreases |es|
  {
    assert v in Nodes(v, es);
    DedupKeeps(inherited + Gates(doc, v));
    if es == [] {
      x := if v in doc.index then Append(v, Dedup(inherited + doc.index[v].gates)) else Missing(v);
    } else {
      var own := Dedup(inherited + doc.index[v].gates);
      var next := if es[0].skipsGate then inherited else own;
      x := TraceComplete(doc, es[0].to, next, ancestors + [v], es[1..], id);
      TraceEdgesContains(doc, Edges(doc, v), own, inherited, ancestors + [v], x);
    }
  }

  /** A walk that meets `v` can be entered there. */
  lemma {:induction false} EnterAt(doc: Document, u: Id, es: seq<Edge>, id: Id, v: Id) returns (rest: seq<Edge>)
    requires doc.root in doc.index && IsWalk(doc, u, es, id) && v in Nodes(u, es)
    ensures IsWalk(doc, v, rest, id) && |rest| <= |es| && Nodes(v, rest) <= Nodes(u, es)
    ensures forall holds: Gate -> bool :: Open(doc, u, es, holds) ==> Open(doc, v, rest, holds)
    decreases |es|
  {
    if u == v {
      rest := es;
    } else {
      rest := EnterAt(doc, es[0].to, es[1..], id, v);
    }
  }

  /** Cutting every cycle out of a walk loses nothing: the shorter walk is open whenever
      the longer one is. */
  lemma {:induction false} CutCycles(doc: Document, v: Id, es: seq<Edge>, id: Id) returns (cut: seq<Edge>)
    requires doc.root in doc.index && IsWalk(doc, v, es, id)
    ensures IsWalk(doc, v, cut, id) && Simple(v, cut) && Nodes(v, cut) <= Nodes(v, es)
    ensures forall holds: Gate -> bool :: Open(doc, v, es, holds) ==> Open(doc, v, cut, holds)
    decreases |es|
  {
    if es == [] {
      cut := [];
    } else if v in Nodes(es[0].to, es[1..]) {
      var rest := EnterAt(doc, es[0].to, es[1..], id, v);
      cut := CutCycles(doc, v, rest, id);
    } else {
      var rest := CutCycles(doc, es[0].to, es[1..], id);
      cut := [es[0]] + rest;
      assert cut[1..] == rest;
    }
  }

  /** For any document, cyclic or not: the traversal meets `id` with a set of true
      conditions exactly when some walk to it is open. */
  lemma TraceMeaning(doc: Document, id: Id, holds: Gate -> bool)
    requires doc.root in doc.index && id in doc.index
    ensures (exists x :: x in Trace(doc, doc.root, [], []) && x.id == id && x.Append? && AllHold(x.route, holds))
            <==> Available(doc, id, holds)
  {
    if x :| x in Trace(doc, doc.root, [], []) && x.id == id && x.Append? && AllHold(x.route, holds) {
      var es := TraceSound(doc, doc.root, [], [], x);
      assert Open(doc, doc.root, es, holds);
    }
    if Available(doc, id, holds) {
      var es :| IsWalk(doc, doc.root, es, id) && Open(doc, doc.root, es, holds);
      var cut := CutCycles(doc, doc.root, es, id);
      var x := TraceComplete(doc, doc.root, [], [], cut, id);
      var _ := TraceSound(doc, doc.root, [], [], x);
      assert AllHold(x.route, holds);
    }
  }

  /** The traversal touches exactly the reachable identities, and raises exactly when one
      of them is missing from the index. */
  lemma TraceReach(doc: Document, id: Id)
    requires doc.root in doc.index
    ensures (exists x :: x in Trace(doc, doc.root, [], []) && x.id == id) <==> Reachable(doc, id)
    ensures forall x :: x in Trace(doc, doc.root, [], []) ==> (x.Append? <==> x.id in doc.index)
  {
    forall x | x in Trace(doc, doc.root, [], [])
      ensures (x.Append? <==> x.id in doc.index) && Reachable(doc, x.id)
    {
      var es := TraceSound(doc, doc.root, [], [], x);
    }
    if Reachable(doc, id) {
      var es :| IsWalk(doc, doc.root, es, id);
      var cut := CutCycles(doc, doc.root, es, id);
      var x := TraceComplete(doc, doc.root, [], [], cut, id);
    }
  }

  // ---------------------------------------------------------------------------------
  // The routes table and the merged conditions, as the renderer builds them.
  // ---------------------------------------------------------------------------------

  /** A condition tuple: either a conjunction of gate texts, or the single text
      `any(all(..), all(..))` over the alternative routes. */
  datatype Stored = Conjunction(gates: Route) | AnyOf(alternatives: seq<Route>)

  predicate Holds(c: Stored, holds: Gate -> bool) {
    match c
    case Conjunction(gates) => AllHold(gates, holds)
    case AnyOf(alternatives) => exists r | r in alternatives :: AllHold(r, holds)
  }

  function Merge(routes: seq<Route>): (c: Stored)
    requires routes != []
    ensures forall holds: Gate -> bool :: Holds(c, holds) <==> exists r :: r in routes && AllHold(r, holds)
  {
    var alternatives := Dedup(routes);
    DedupKeeps(routes);
    DedupDistinct(routes);
    assert routes[0] in alternatives;
    if [] in alternatives then
      assert forall holds: Gate -> bool :: AllHold([], holds);
      Conjunction([])
    else if |alternatives| == 1 then
      assert forall r :: r in routes <==> r == alternatives[0];
      Conjunction(alternatives[0])
    else AnyOf(alternatives)
  }

  /** The table of routes left behind by a list of appends. */
  ghost function Table(effects: seq<Effect>): map<Id, seq<Route>> {
    if effects == [] then map[]
    else
      var t := Table(effects[..|effects| - 1]);
      match effects[|effects| - 1]
      case Missing(_) => t
      case Append(id, route) => t[id := (if id in t then t[id] else []) + [route]]
  }

  lemma {:induction false} TableContents(effects: seq<Effect>)
    requires AllAppend(effects)
    ensures forall id :: id in Table(effects) ==> Table(effects)[id] != []
    ensures forall id, r :: id in Table(effects) && r in Table(effects)[id] ==> Append(id, r) in effects
    ensures forall x :: x in effects ==> x.id in Table(effects) && x.route in Table(effects)[x.id]
  {
    if effects != [] {
      var front, last := effects[..|effects| - 1], effects[|effects| - 1];
      TableContents(front);
      assert effects == front + [last];
      assert last == Append(last.id, last.route);
    }
  }

  /** A visit ends at once at an ancestor, and raises at an unknown identity. */
  lemma TraceStops(doc: Document, v: Id, inherited: Route, ancestors: seq<Id>, before: seq<Effect>)
    requires doc.root in doc.index && (v in ancestors || v !in doc.index)
    ensures AllAppend(Trace(doc, v, inherited, ancestors)) <==> v in ancestors
    ensures v in ancestors ==> before + Trace(doc, v, inherited, ancestors) == before
  {
    if v !in ancestors {
      assert Missing(v) in Trace(doc, v, inherited, ancestors);
    }
  }

  /** What a visit has done after following `i` of its edges. */
  ghost function TracePrefix(doc: Document, v: Id, inherited: Route, ancestors: seq<Id>, i: nat): seq<Effect>
    requires doc.root in doc.index && v in doc.index && i <= |Edges(doc, v)|
  {
    var own := Dedup(inherited + doc.index[v].gates);
    [Append(v, own)] + TraceEdges(doc, Edges(doc, v)[..i], own, inherited, ancestors + [v])
  }

  lemma TracePrefixStart(doc: Document, v: Id, inherited: Route, ancestors: seq<Id>, before: seq<Effect>)
    requires doc.root in doc.index && v in doc.index
    ensures AllAppend(TracePrefix(doc, v, inherited, ancestors, 0))
    ensures
      var own := Dedup(inherited + doc.index[v].gates);
      var t := Table(before);
      Table(before + TracePrefix(doc, v, inherited, ancestors, 0)) == t[v := (if v in t then t[v] else []) + [own]]
  {
    var after := before + TracePrefix(doc, v, inherited, ancestors, 0);
    assert after == before + [Append(v, Dedup(inherited + doc.index[v].gates))];
    assert after[..|after| - 1] == before;
  }

  lemma TracePrefixStep(doc: Document, v: Id, inherited: Route, ancestors: seq<Id>, before: seq<Effect>, i: nat)
    requires doc.root in doc.index && v in doc.index && i < |Edges(doc, v)|
    ensures
      var own := Dedup(inherited + doc.index[v].gates);
      var e := Edges(doc, v)[i];
      before + TracePrefix(doc, v, inherited, ancestors, i + 1)
      == before + TracePrefix(doc, v, inherited, ancestors, i)
         + Trace(doc, e.to, if e.skipsGate then inherited else own, ancestors + [v])
    ensures
      var own := Dedup(inherited + doc.index[v].gates);
      var e := Edges(doc, v)[i];
      && AllAppend(TracePrefix(doc, v, inherited, ancestors, i))
      && AllAppend(Trace(doc, e.to, if e.skipsGate then inherited else own, ancestors + [v]))
      ==> AllAppend(TracePrefix(doc, v, inherited, ancestors, i + 1))
  {
    var own := Dedup(inherited + doc.index[v].gates);
    var e, first := Edges(doc, v)[i], [Append(v, own)];
    var so, more := TraceEdges(doc, Edges(doc, v)[..i], own, inherited, ancestors + [v]),
                    Trace(doc, e.to, if e.skipsGate then inherited else own, ancestors + [v]);
    TraceEdgesStep(doc, Edges(doc, v), own, inherited, ancestors + [v], i);
    Associate(first, so, more);
    Associate(before, first + so, more);
    AllAppendConcat(first + so, more);
  }

  lemma TraceEdgesStep(doc: Document, es: seq<Edge>, own: Route, inherited: Route, ancestors: seq<Id>, i: nat)
    requires doc.root in doc.index && i < |es|
    ensures
      TraceEdges(doc, es[..i + 1], own, inherited, ancestors)
      == TraceEdges(doc, es[..i], own, inherited, ancestors)
         + Trace(doc, es[i].to, if es[i].skipsGate then inherited else own, ancestors)
  {
    assert es[..i + 1][..i] == es[..i];
  }

  lemma AllAppendConcat(a: seq<Effect>, b: seq<Effect>)
    ensures AllAppend(a + b) <==> AllAppend(a) && AllAppend(b)
  {
    assert forall x | x in a :: x in a + b;
    assert forall x | x in b :: x in a + b;
  }

  lemma TracePrefixEnd(doc: Document, v: Id, inherited: Route, ancestors: seq<Id>)
    requires doc.root in doc.index && v in doc.index && v !in ancestors
    ensures TracePrefix(doc, v, inherited, ancestors, |Edges(doc, v)|) == Trace(doc, v, inherited, ancestors)
  {
    assert Edges(doc, v)[..|Edges(doc, v)|] == Edges(doc, v);
  }

  /** A `KeyError` below one edge reaches the caller of the visit. */
  lemma TraceEscapes(doc: Document, v: Id, inherited: Route, ancestors: seq<Id>, i: nat)
    requires doc.root in doc.index && v in doc.index && v !in ancestors && i < |Edges(doc, v)|
    requires
      var own := Dedup(inherited + doc.index[v].gates);
      var e := Edges(doc, v)[i];
      !AllAppend(Trace(doc, e.to, if e.skipsGate then inherited else own, ancestors + [v]))
    ensures !AllAppend(Trace(doc, v, inherited, ancestors))
  {
    var own := Dedup(inherited + doc.index[v].gates);
    var e := Edges(doc, v)[i];
    var x :| x in Trace(doc, e.to, if e.skipsGate then inherited else own, ancestors + [v]) && !x.Append?;
    TraceEdgesContains(doc, Edges(doc, v), own, inherited, ancestors + [v], x);
    assert x in Trace(doc, v, inherited, ancestors);
  }

  class RouteTable {
    const doc: Document
    var routes: map<Id, seq<Route>>

    constructor (doc: Document)
      ensures this.doc == doc && routes == map[]
    {
      this.doc := doc;
      routes := map[];
    }

    /** Visits one identity; `ok` is false when a `KeyError` escapes. */
    method Visit(v: Id, inherited: Route, ancestors: seq<Id>, ghost before: seq<Effect>) returns (ok: bool)
      requires doc.root in doc.index && routes == Table(before)
      modifies this
      ensures ok <==> AllAppend(Trace(doc, v, inherited, ancestors))
      ensures ok ==> routes == Table(before + Trace(doc, v, inherited, ancestors))
      decreases Unvisited(doc, ancestors), 0
    {
      if v in ancestors || v !in doc.index {
        TraceStops(doc, v, inherited, ancestors, before);
        return v in ancestors;
      }
      UnvisitedShrinks(doc, ancestors, v);
      var own := Dedup(inherited + doc.index[v].gates);
      var es := Edges(doc, v);
      TracePrefixStart(doc, v, inherited, ancestors, before);
      routes := routes[v := (if v in routes then routes[v] else []) + [own]];
      for i := 0 to |es|
        invariant AllAppend(TracePrefix(doc, v, inherited, ancestors, i))
        invariant routes == Table(before + TracePrefix(doc, v, inherited, ancestors, i))
      {
        ok := Follow(v, i, inherited, own, ancestors, before);
        if !ok {
          return;
        }
      }
      TracePrefixEnd(doc, v, inherited, ancestors);
      ok := true;
    }

    /** One edge of a visit: the target inherits the item's own gates unless the edge skips them. */
    method Follow(v: Id, i: nat, inherited: Route, own: Route, ancestors: seq<Id>, ghost before: seq<Effect>)
      returns (ok: bool)
      requires doc.root in doc.index && v in doc.index && v !in ancestors && i < |Edges(doc, v)|
      requires own == Dedup(inherited + doc.index[v].gates)
      requires AllAppend(TracePrefix(doc, v, inherited, ancestors, i))
      requires routes == Table(before + TracePrefix(doc, v, inherited, ancestors, i))
      modifies this
      ensures ok ==> AllAppend(TracePrefix(doc, v, inherited, ancestors, i + 1))
      ensures ok ==> routes == Table(before + TracePrefix(doc, v, inherited, ancestors, i + 1))
      ensures !ok ==> !AllAppend(Trace(doc, v, inherited, ancestors))
      decreases Unvisited(doc, ancestors + [v]), 1
    {
      var e := Edges(doc, v)[i];
      ok := Visit(e.to, if e.skipsGate then inherited else own, ancestors + [v],
                  before + TracePrefix(doc, v, inherited, ancestors, i));
      if ok {
        TracePrefixStep(doc, v, inherited, ancestors, before, i);
      } else {
        TraceEscapes(doc, v, inherited, ancestors, i);
      }
    }
  }

  /** The renderer's condition table. It fails exactly when the root or some reachable
      identity is absent; otherwise its keys are the reachable items, and the condition
      stored for an item is true under an assignment exactly when some walk from the root
      to the item, through however many cycles, has all its gates true. */
  method Conditions(doc: Document) returns (result: Option<map<Id, Stored>>)
    ensures result.None? <==>
            doc.root !in doc.index || exists id :: id !in doc.index && Reachable(doc, id)
    ensures result.Some? ==> forall id :: id in result.value <==> Reachable(doc, id)
    ensures result.Some? ==> forall id, holds: Gate -> bool :: id in result.value ==>
              (Holds(result.value[id], holds) <==> Available(doc, id, holds))
  {
    if doc.root !in doc.index {
      return None;
    }
    var table := new RouteTable(doc);
    var ok := table.Visit(doc.root, [], [], []);
    ghost var effects := Trace(doc, doc.root, [], []);
    assert [] + effects == effects;
    forall id ensures (exists x :: x in effects && x.id == id) <==> Reachable(doc, id) {
      TraceReach(doc, id);
    }
    TraceReach(doc, doc.root);
    if !ok {
      ghost var x :| x in effects && !x.Append?;
      assert x.id !in doc.index;
      return None;
    }
    forall id | Reachable(doc, id) ensures id in doc.index {
      TraceReach(doc, id);
    }
    var routes := table.routes;
    TableContents(effects);
    var merged := map id | id in routes :: Merge(routes[id]);
    forall id, holds: Gate -> bool | id in merged
      ensures Holds(merged[id], holds) <==> Available(doc, id, holds)
    {
      var r0 := routes[id][0];
      assert Append(id, r0) in effects;
      TraceMeaning(doc, id, holds);
      if r :| r in routes[id] && AllHold(r, holds) {
        assert Append(id, r) in effects;
      }
    }
    forall id ensures id in merged <==> Reachable(doc, id) {
      if id in merged {
        assert Append(id, routes[id][0]) in effects;
      }
    }
    result := Some(merged);
  }
}
