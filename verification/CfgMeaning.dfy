/** What the condition texts stored by the renderer mean, as Rust reads them. */
module CfgMeaning {
  import opened Prelude
  import opened CfgParser
  import R = CfgRoutes

  /** Which options are set: bare ones, and names with a value. */
  type Flags = (string, Option<string>) -> bool

  predicate Eval(p: Pred, flags: Flags) {
    match p
    case Leaf(name, literal) => flags(name, literal)
    case Not(inner) => !Eval(inner, flags)
    case Group(all, parts) => if all then EvalAll(parts, flags) else EvalAny(parts, flags)
  }

  predicate EvalAll(parts: Parts, flags: Flags) {
    match parts
    case End => true
    case Part(head, _, rest) => Eval(head, flags) && EvalAll(rest, flags)
  }

  predicate EvalAny(parts: Parts, flags: Flags) {
    match parts
    case End => false
    case Part(head, _, rest) => Eval(head, flags) || EvalAny(rest, flags)
  }

  // ---------------------------------------------------------------------------------
  // Lists of predicates
  // ---------------------------------------------------------------------------------

  function PartsOf(ps: seq<Pred>): Parts {
    if ps == [] then End else Part(ps[0], true, PartsOf(ps[1..]))
  }

  function ShowAll(ps: seq<Pred>): seq<string> {
    seq(|ps|, i requires 0 <= i < |ps| => Show(ps[i]))
  }

  ghost predicate AllTrue(ps: seq<Pred>, flags: Flags) {
    forall i | 0 <= i < |ps| :: Eval(ps[i], flags)
  }

  ghost predicate SomeTrue(ps: seq<Pred>, flags: Flags) {
    exists i :: 0 <= i < |ps| && Eval(ps[i], flags)
  }

  lemma {:induction false} ListMeans(ps: seq<Pred>, flags: Flags)
    ensures ShowParts(PartsOf(ps)) == ShowAll(ps)
    ensures EvalAll(PartsOf(ps), flags) <==> AllTrue(ps, flags)
    ensures EvalAny(PartsOf(ps), flags) <==> SomeTrue(ps, flags)
  {
    if ps != [] {
      var rest := ps[1..];
      ListMeans(rest, flags);
      assert ShowAll(ps) == [Show(ps[0])] + ShowAll(rest);
      assert forall i | 0 <= i < |rest| :: rest[i] == ps[i + 1];
      if AllTrue(rest, flags) && Eval(ps[0], flags) {
        assert forall i | 0 < i < |ps| :: ps[i] == rest[i - 1];
      }
      if i :| 0 <= i < |rest| && Eval(rest[i], flags) {
        assert Eval(ps[i + 1], flags);
      }
      if i :| 0 <= i < |ps| && Eval(ps[i], flags) {
        assert i == 0 || Eval(rest[i - 1], flags);
      }
    }
  }

  // ---------------------------------------------------------------------------------
  // Stored conditions
  // ---------------------------------------------------------------------------------

  /** A way to read condition texts: each is the text of the predicate it is read as. Texts produced
      by the attribute parser are read as the predicates they were parsed from. */
  ghost predicate Reads(read: R.Gate -> Pred) {
    forall g :: Show(read(g)) == g
  }

  /** Any predicate may be among those read: its text can be read as that predicate. */
  lemma AnyPredicateCanBeRead(p: Pred)
    ensures Reads(g => if g == Show(p) then p else Leaf(g, None))
  {
  }

  ghost function Under(read: R.Gate -> Pred, flags: Flags): R.Gate -> bool {
    g => Eval(read(g), flags)
  }

  function AllOf(route: R.Route): string {
    Grouped(true, route)
  }

  /** The tuple of texts the renderer keeps. */
  function Texts(c: R.Stored): seq<string> {
    match c
    case Conjunction(gates) => gates
    case AnyOf(alternatives) => [Grouped(false, seq(|alternatives|, i requires 0 <= i < |alternatives| => AllOf(alternatives[i])))]
  }

  ghost function ReadRoute(read: R.Gate -> Pred, route: R.Route): seq<Pred> {
    seq(|route|, i requires 0 <= i < |route| => read(route[i]))
  }

  ghost function Together(read: R.Gate -> Pred, route: R.Route): Pred {
    Group(true, PartsOf(ReadRoute(read, route)))
  }

  ghost function Alternatives(read: R.Gate -> Pred, routes: seq<R.Route>): seq<Pred> {
    seq(|routes|, i requires 0 <= i < |routes| => Together(read, routes[i]))
  }

  /** The predicates the stored texts are the texts of. */
  ghost function Preds(read: R.Gate -> Pred, c: R.Stored): seq<Pred> {
    match c
    case Conjunction(gates) => ReadRoute(read, gates)
    case AnyOf(alternatives) => [Group(false, PartsOf(Alternatives(read, alternatives)))]
  }

  lemma RouteMeans(read: R.Gate -> Pred, route: R.Route, flags: Flags)
    requires Reads(read)
    ensures ShowAll(ReadRoute(read, route)) == route
    ensures AllTrue(ReadRoute(read, route), flags) <==> R.AllHold(route, Under(read, flags))
    ensures Show(Together(read, route)) == AllOf(route)
    ensures Eval(Together(read, route), flags) <==> R.AllHold(route, Under(read, flags))
  {
    var ps := ReadRoute(read, route);
    ListMeans(ps, flags);
    assert ShowAll(ps) == route;
    if AllTrue(ps, flags) {
      forall g | g in route ensures Under(read, flags)(g) {
        var i :| 0 <= i < |route| && route[i] == g;
        assert Eval(ps[i], flags);
      }
    }
    if R.AllHold(route, Under(read, flags)) {
      forall i | 0 <= i < |ps| ensures Eval(ps[i], flags) {
        assert Under(read, flags)(route[i]);
      }
    }
  }

  lemma AlternativesMean(read: R.Gate -> Pred, routes: seq<R.Route>, flags: Flags)
    requires Reads(read)
    ensures ShowAll(Alternatives(read, routes)) == seq(|routes|, i requires 0 <= i < |routes| => AllOf(routes[i]))
    ensures SomeTrue(Alternatives(read, routes), flags) <==> exists r | r in routes :: R.AllHold(r, Under(read, flags))
  {
    var ps := Alternatives(read, routes);
    forall i | 0 <= i < |routes|
      ensures Show(ps[i]) == AllOf(routes[i]) && (Eval(ps[i], flags) <==> R.AllHold(routes[i], Under(read, flags)))
    {
      RouteMeans(read, routes[i], flags);
    }
    if i :| 0 <= i < |ps| && Eval(ps[i], flags) {
      assert routes[i] in routes;
    }
    if r :| r in routes && R.AllHold(r, Under(read, flags)) {
      var i :| 0 <= i < |routes| && routes[i] == r;
      assert Eval(ps[i], flags);
    }
  }

  /** Every stored text is the text of a predicate, and together those predicates are true exactly when
      the stored condition holds. */
  lemma StoredMeans(read: R.Gate -> Pred, c: R.Stored, flags: Flags)
    requires Reads(read)
    ensures Texts(c) == ShowAll(Preds(read, c))
    ensures AllTrue(Preds(read, c), flags) <==> R.Holds(c, Under(read, flags))
  {
    match c
    case Conjunction(gates) => RouteMeans(read, gates, flags);
    case AnyOf(alternatives) =>
      AlternativesMean(read, alternatives, flags);
      ListMeans(Alternatives(read, alternatives), flags);
      var whole := Preds(read, c)[0];
      assert AllTrue(Preds(read, c), flags) <==> Eval(whole, flags);
      assert ShowAll(Preds(read, c)) == [Show(whole)];
  }

  /** However the gate texts are read, the stored texts are those of predicates which are all true
      exactly when some walk from the root to the item has all its gates true. */
  ghost predicate Means(doc: R.Document, id: R.Id, texts: seq<string>)
    requires doc.root in doc.index
  {
    forall read: R.Gate -> Pred | Reads(read) :: exists ps ::
      && texts == ShowAll(ps)
      && forall flags: Flags :: AllTrue(ps, flags) <==> R.Available(doc, id, Under(read, flags))
  }

  lemma TextsMean(doc: R.Document, id: R.Id, c: R.Stored)
    requires doc.root in doc.index
    requires forall holds: R.Gate -> bool :: R.Holds(c, holds) <==> R.Available(doc, id, holds)
    ensures Means(doc, id, Texts(c))
  {
    forall read: R.Gate -> Pred | Reads(read)
      ensures exists ps ::
        && Texts(c) == ShowAll(ps)
        && forall flags: Flags :: AllTrue(ps, flags) <==> R.Available(doc, id, Under(read, flags))
    {
      var ps := Preds(read, c);
      forall flags: Flags
        ensures Texts(c) == ShowAll(ps) && (AllTrue(ps, flags) <==> R.Available(doc, id, Under(read, flags)))
      {
        StoredMeans(read, c, flags);
      }
      StoredMeans(read, c, (_, _) => true);
    }
  }

  /** The renderer's condition texts: present exactly for the reachable items, and each tuple means that
      some walk from the crate root reaches the item through gates that are all true. */
  method ConditionTexts(doc: R.Document) returns (result: Option<map<R.Id, seq<string>>>)
    ensures result.None? <==>
            doc.root !in doc.index || exists id :: id !in doc.index && R.Reachable(doc, id)
    ensures result.Some? ==> forall id :: id in result.value <==> R.Reachable(doc, id)
    ensures result.Some? ==> forall id :: id in result.value ==> Means(doc, id, result.value[id])
  {
    var stored := R.Conditions(doc);
    if stored.None? {
      return None;
    }
    var texts := map id | id in stored.value :: Texts(stored.value[id]);
    forall id | id in texts ensures Means(doc, id, texts[id]) {
      TextsMean(doc, id, stored.value[id]);
    }
    result := Some(texts);
  }
}
