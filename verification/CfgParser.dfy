/** The recursive-descent parser for rustdoc's `CfgTrace` attributes, over the token list that the
    regular expression finds in the attribute text. */
module CfgParser {
  import opened Prelude

  datatype Token =
    | NameValue(name: string, literal: Option<string>)
    | ListOpen(all: bool)
    | NotOpen
    | CloseList
    | Close
    | Comma

  /** What the token list says. Each element of a list may be followed by a comma. */
  datatype Pred = Leaf(name: string, literal: Option<string>) | Not(inner: Pred) | Group(all: bool, parts: Parts)

  datatype Parts = End | Part(head: Pred, comma: bool, rest: Parts)

  // ---------------------------------------------------------------------------------------
  // The grammar: how predicates are written, followed by anything
  // ---------------------------------------------------------------------------------------

  function Write(p: Pred, rest: seq<Token>): (r: seq<Token>)
    ensures r != [] && r[0] != CloseList && r[0] != Comma
    decreases p
  {
    match p
    case Leaf(name, literal) => [NameValue(name, literal)] + rest
    case Not(inner) => [NotOpen] + Write(inner, [Close] + rest)
    case Group(all, parts) => [ListOpen(all)] + WriteParts(parts, [CloseList] + rest)
  }

  function WriteParts(parts: Parts, rest: seq<Token>): seq<Token>
    decreases parts
  {
    match parts
    case End => rest
    case Part(head, comma, more) =>
      Write(head, if comma then [Comma] + WriteParts(more, rest) else WriteParts(more, rest))
  }

  lemma PartsDoNotStartWithComma(parts: Parts, rest: seq<Token>)
    requires rest == [] || rest[0] != Comma
    ensures WriteParts(parts, rest) == [] || WriteParts(parts, rest)[0] != Comma
  {
  }

  // ---------------------------------------------------------------------------------------
  // The parser, on the tokens that are left
  // ---------------------------------------------------------------------------------------

  function ParsePred(ts: seq<Token>): (r: Option<(Pred, seq<Token>)>)
    ensures r.Some? ==> |r.value.1| < |ts|
    decreases |ts|, 0
  {
    if ts == [] then None
    else
      match ts[0]
      case NameValue(name, literal) => Some((Leaf(name, literal), ts[1..]))
      case NotOpen => (
        match ParsePred(ts[1..])
        case None => None
        case Some((inner, rest)) => if rest != [] && rest[0] == Close then Some((Not(inner), rest[1..])) else None)
      case ListOpen(all) => (
        match ParseParts(ts[1..], true)
        case None => None
        case Some((parts, rest)) => Some((Group(all, parts), rest)))
      case CloseList => None
      case Close => None
      case Comma => None
  }

  function AfterComma(ts: seq<Token>): (r: seq<Token>)
    ensures |r| <= |ts|
  {
    if ts != [] && ts[0] == Comma then ts[1..] else ts
  }

  function ParseParts(ts: seq<Token>, closed: bool): (r: Option<(Parts, seq<Token>)>)
    ensures r.Some? ==> |r.value.1| <= |ts|
    decreases |ts|, 1
  {
    if ts == [] then if closed then None else Some((End, []))
    else if closed && ts[0] == CloseList then Some((End, ts[1..]))
    else
      match ParsePred(ts)
      case None => None
      case Some((head, rest)) =>
        match ParseParts(AfterComma(rest), closed)
        case None => None
        case Some((more, left)) => Some((Part(head, AfterComma(rest) != rest, more), left))
  }

  // ---------------------------------------------------------------------------------------
  // The parser inverts the grammar
  // ---------------------------------------------------------------------------------------

  ghost predicate PredSound(ts: seq<Token>) {
    ParsePred(ts).Some? ==> ts == Write(ParsePred(ts).value.0, ParsePred(ts).value.1)
  }

  /** Tokens after a list: its bracket and the rest, or nothing at the top level. */
  function Tail(closed: bool, rest: seq<Token>): seq<Token> {
    if closed then [CloseList] + rest else rest
  }

  ghost predicate PartsSound(ts: seq<Token>, closed: bool) {
    var r := ParseParts(ts, closed);
    r.Some? ==> ts == WriteParts(r.value.0, Tail(closed, r.value.1)) && (!closed ==> r.value.1 == [])
  }

  lemma HeadAndRest(ts: seq<Token>)
    requires ts != []
    ensures ts == [ts[0]] + ts[1..]
  {
  }

  lemma {:induction false} SoundPred(ts: seq<Token>)
    ensures PredSound(ts)
    decreases |ts|, 0
  {
    if ParsePred(ts).Some? {
      HeadAndRest(ts);
      match ts[0]
      case NameValue(_, _) =>
      case NotOpen =>
        SoundPred(ts[1..]);
        HeadAndRest(ParsePred(ts[1..]).value.1);
      case ListOpen(_) =>
        SoundParts(ts[1..], true);
    }
  }

  lemma {:induction false} SoundParts(ts: seq<Token>, closed: bool)
    ensures PartsSound(ts, closed)
    decreases |ts|, 1
  {
    if ParseParts(ts, closed).Some? && ts != [] {
      HeadAndRest(ts);
      if !(closed && ts[0] == CloseList) {
        var rest := ParsePred(ts).value.1;
        SoundPred(ts);
        SoundParts(AfterComma(rest), closed);
        if AfterComma(rest) != rest {
          HeadAndRest(rest);
        }
      }
    }
  }

  lemma {:induction false} CompletePred(p: Pred, rest: seq<Token>)
    ensures ParsePred(Write(p, rest)) == Some((p, rest))
    decreases p
  {
    match p
    case Leaf(_, _) =>
    case Not(inner) => CompletePred(inner, [Close] + rest);
    case Group(_, parts) => CompleteParts(parts, true, rest);
  }

  lemma {:induction false} CompleteParts(parts: Parts, closed: bool, rest: seq<Token>)
    requires !closed ==> rest == []
    ensures ParseParts(WriteParts(parts, Tail(closed, rest)), closed) == Some((parts, rest))
    decreases parts
  {
    match parts
    case End =>
    case Part(head, comma, more) =>
      var after := WriteParts(more, Tail(closed, rest));
      CompleteParts(more, closed, rest);
      PartsDoNotStartWithComma(more, Tail(closed, rest));
      CompletePred(head, if comma then [Comma] + after else after);
  }

  /** Parsing a whole attribute succeeds exactly on the token lists the grammar writes, and gives
      back the one list of predicates it was written from. */
  lemma {:induction false} ParserInvertsGrammar(ts: seq<Token>, parts: Parts)
    ensures ParseParts(ts, false) == Some((parts, [])) <==> ts == WriteParts(parts, [])
  {
    SoundParts(ts, false);
    CompleteParts(parts, false, []);
  }

  // ---------------------------------------------------------------------------------------
  // The text of a condition
  // ---------------------------------------------------------------------------------------

  function Setting(name: string, literal: Option<string>): string {
    if literal.None? then name else name + " = " + literal.value
  }

  function Negated(text: string): string {
    "not(" + text + ")"
  }

  function Grouped(all: bool, texts: seq<string>): string {
    (if all then "all(" else "any(") + Join(texts) + ")"
  }

  function Show(p: Pred): string {
    match p
    case Leaf(name, literal) => Setting(name, literal)
    case Not(inner) => Negated(Show(inner))
    case Group(all, parts) => Grouped(all, ShowParts(parts))
  }

  function ShowParts(parts: Parts): seq<string> {
    match parts
    case End => []
    case Part(head, _, rest) => [Show(head)] + ShowParts(rest)
  }

  // ---------------------------------------------------------------------------------------
  // The closures that share one position
  // ---------------------------------------------------------------------------------------

  /** What a call of `predicate` gives, and where it leaves the position. */
  ghost predicate ReadsPred(ts: seq<Token>, text: Option<string>, left: seq<Token>) {
    match ParsePred(ts)
    case None => text.None?
    case Some((p, rest)) => text == Some(Show(p)) && left == rest
  }

  ghost predicate ReadsParts(ts: seq<Token>, closed: bool, texts: Option<seq<string>>, left: seq<Token>) {
    match ParseParts(ts, closed)
    case None => texts.None?
    case Some((parts, rest)) => texts == Some(ShowParts(parts)) && left == rest
  }

  /** Parsing from the start is parsing from here with these texts in front. */
  ghost predicate Continues(start: seq<Token>, closed: bool, texts: seq<string>, here: seq<Token>) {
    match ParseParts(here, closed)
    case None => ParseParts(start, closed).None?
    case Some((parts, rest)) =>
      && ParseParts(start, closed).Some?
      && ShowParts(ParseParts(start, closed).value.0) == texts + ShowParts(parts)
      && ParseParts(start, closed).value.1 == rest
  }

  lemma ContinuesOver(
      start: seq<Token>, closed: bool, texts: seq<string>, here: seq<Token>, text: string, rest: seq<Token>)
    requires Continues(start, closed, texts, here)
    requires here != [] && !(closed && here[0] == CloseList)
    requires ParsePred(here).Some? && ParsePred(here).value.1 == rest && text == Show(ParsePred(here).value.0)
    ensures Continues(start, closed, texts + [text], AfterComma(rest))
  {
    var r := ParseParts(AfterComma(rest), closed);
    if r.Some? {
      var more := ShowParts(r.value.0);
      assert texts + ([text] + more) == (texts + [text]) + more;
    }
  }

  lemma ContinuesToEnd(start: seq<Token>, closed: bool, texts: seq<string>, here: seq<Token>)
    requires Continues(start, closed, texts, here) && (here == [] || (closed && here[0] == CloseList))
    ensures closed && here == [] ==> ParseParts(start, closed).None?
    ensures !(closed && here == []) ==>
      ReadsParts(start, closed, Some(texts), if closed then here[1..] else here)
  {
    assert texts + [] == texts;
  }

  lemma ContinuesNowhere(start: seq<Token>, closed: bool, texts: seq<string>, here: seq<Token>)
    requires Continues(start, closed, texts, here)
    requires here != [] && !(closed && here[0] == CloseList) && ParsePred(here).None?
    ensures ParseParts(start, closed).None?
  {
  }

  class Parser {
    const tokens: seq<Token>
    var position: nat

    constructor (tokens: seq<Token>)
      ensures this.tokens == tokens && position == 0
    {
      this.tokens := tokens;
      position := 0;
    }

    /** The tokens not yet read. */
    ghost function Left(): seq<Token>
      requires position <= |tokens|
      reads this
    {
      tokens[position..]
    }

    method Predicate() returns (text: Option<string>)
      requires position <= |tokens|
      modifies this
      ensures old(position) <= position <= |tokens| && ReadsPred(old(Left()), text, Left())
      ensures text.Some? ==> position > old(position)
      decreases |tokens| - position, 0
    {
      if position == |tokens| {
        return None;
      }
      var token := tokens[position];
      position := position + 1;
      assert Left() == old(Left())[1..];
      match token
      case NameValue(name, literal) => text := Some(Setting(name, literal));
      case NotOpen => text := AfterNot();
      case ListOpen(all) =>
        var parts := Predicates(true);
        text := if parts.None? then None else Some(Grouped(all, parts.value));
      case CloseList => text := None;
      case Close => text := None;
      case Comma => text := None;
    }

    /** The negated predicate and its closing parenthesis. */
    method AfterNot() returns (text: Option<string>)
      requires 0 < position <= |tokens| && tokens[position - 1] == NotOpen
      modifies this
      ensures old(position) <= position <= |tokens| && ReadsPred(tokens[old(position) - 1..], text, Left())
      ensures text.Some? ==> position > old(position)
      decreases |tokens| - position, 1
    {
      assert tokens[position - 1..][1..] == Left();
      var inner := Predicate();
      if inner.None? || position == |tokens| || tokens[position] != Close {
        return None;
      }
      position := position + 1;
      text := Some(Negated(inner.value));
    }

    method SkipComma()
      requires position <= |tokens|
      modifies this
      ensures old(position) <= position <= |tokens| && Left() == AfterComma(old(Left()))
    {
      if position < |tokens| && tokens[position] == Comma {
        assert Left()[1..] == tokens[position + 1..];
        position := position + 1;
      }
    }

    /** One element of a list and the comma after it, if there is one. */
    method Element(ghost start: seq<Token>, closed: bool, before: seq<string>) returns (texts: Option<seq<string>>)
      requires position < |tokens| && !(closed && tokens[position] == CloseList)
      requires Continues(start, closed, before, Left())
      modifies this
      ensures old(position) <= position <= |tokens|
      ensures texts.None? ==> ParseParts(start, closed).None?
      ensures texts.Some? ==> position > old(position) && Continues(start, closed, texts.value, Left())
      decreases |tokens| - position, 1
    {
      ghost var here := Left();
      var text := Predicate();
      if text.None? {
        ContinuesNowhere(start, closed, before, here);
        return None;
      }
      ContinuesOver(start, closed, before, here, text.value, Left());
      SkipComma();
      texts := Some(before + [text.value]);
    }

    method Predicates(closed: bool) returns (texts: Option<seq<string>>)
      requires position <= |tokens|
      modifies this
      ensures old(position) <= position <= |tokens| && ReadsParts(old(Left()), closed, texts, Left())
      decreases |tokens| - position, 2
    {
      ghost var start := Left();
      var result: seq<string> := [];
      while position < |tokens| && !(closed && tokens[position] == CloseList)
        invariant old(position) <= position <= |tokens|
        invariant Continues(start, closed, result, Left())
        decreases |tokens| - position
      {
        var longer := Element(start, closed, result);
        if longer.None? {
          return None;
        }
        result := longer.value;
      }
      ContinuesToEnd(start, closed, result, Left());
      if closed {
        if position == |tokens| {
          return None;
        }
        assert Left()[1..] == tokens[position + 1..];
        position := position + 1;
      }
      texts := Some(result);
    }
  }

  /** The conditions of one attribute: the texts of the predicates its tokens were written from, or
      a failure exactly when the tokens are not a list of predicates. */
  method Conditions(tokens: seq<Token>) returns (texts: Option<seq<string>>)
    ensures texts.None? ==> forall parts :: tokens != WriteParts(parts, [])
    ensures forall parts :: tokens == WriteParts(parts, []) ==> texts == Some(ShowParts(parts))
    ensures texts.Some? ==> exists parts :: tokens == WriteParts(parts, [])
  {
    var parser := new Parser(tokens);
    assert parser.Left() == tokens;
    texts := parser.Predicates(false);
    forall parts ensures ParseParts(tokens, false) == Some((parts, [])) <==> tokens == WriteParts(parts, []) {
      ParserInvertsGrammar(tokens, parts);
    }
    SoundParts(tokens, false);
  }
}
