/** XML token streams and the element trees they stand for. */
module Svg {
  import opened Common

  /** An attribute by its local name. */
  datatype Attr = Attr(name: string, value: string)

  /** `Other` is a processing instruction. */
  datatype Token =
    | Start(name: string, attrs: seq<Attr>)
    | End(name: string)
    | Text(data: string)
    | Comment(data: string)
    | Other(data: string)
    | Directive(data: string)

  /** A sequence of sibling nodes: an element with its children, or a token without any, and the siblings behind it. */
  datatype Forest =
    | Empty
    | Element(name: string, attrs: seq<Attr>, children: Forest, rest: Forest)
    | Leaf(token: Token, rest: Forest)

  ghost predicate WellFormed(f: Forest) {
    match f
    case Empty => true
    case Element(_, _, children, rest) => WellFormed(children) && WellFormed(rest)
    case Leaf(token, rest) => !token.Start? && !token.End? && WellFormed(rest)
  }

  function Flatten(f: Forest): seq<Token> {
    match f
    case Empty => []
    case Element(name, attrs, children, rest) =>
      [Start(name, attrs)] + (Flatten(children) + ([End(name)] + Flatten(rest)))
    case Leaf(token, rest) => [token] + Flatten(rest)
  }

  function Append(f: Forest, g: Forest): Forest {
    match f
    case Empty => g
    case Element(name, attrs, children, rest) => Element(name, attrs, children, Append(rest, g))
    case Leaf(token, rest) => Leaf(token, Append(rest, g))
  }

  lemma {:induction false} FlattenAppend(f: Forest, g: Forest)
    ensures Flatten(Append(f, g)) == Flatten(f) + Flatten(g)
    ensures WellFormed(f) && WellFormed(g) ==> WellFormed(Append(f, g))
  {
    match f
    case Empty =>
    case Element(name, attrs, children, rest) =>
      FlattenAppend(rest, g);
      assert Flatten(children) + ([End(name)] + (Flatten(rest) + Flatten(g)))
           == (Flatten(children) + ([End(name)] + Flatten(rest))) + Flatten(g);
    case Leaf(_, rest) => FlattenAppend(rest, g);
  }

  // ---------------------------------------------------------------------------------------------
  // Balance
  // ---------------------------------------------------------------------------------------------

  /**
   Reading the tokens with `open` elements open, every end tag closes the innermost one by name, and none stays open.
   */
  predicate Balanced(tokens: seq<Token>, open: seq<string>) {
    if tokens == [] then open == []
    else
      match tokens[0]
      case Start(name, _) => Balanced(tokens[1..], open + [name])
      case End(name) => open != [] && open[|open| - 1] == name && Balanced(tokens[1..], open[..|open| - 1])
      case _ => Balanced(tokens[1..], open)
  }

  lemma {:induction false} FlattenBalanced(f: Forest, tail: seq<Token>, open: seq<string>)
    requires WellFormed(f)
    ensures Balanced(Flatten(f) + tail, open) == Balanced(tail, open)
  {
    match f
    case Empty => assert [] + tail == tail;
    case Element(name, attrs, children, rest) =>
      var inner := [End(name)] + (Flatten(rest) + tail);
      var all := Flatten(f) + tail;
      assert all[1..] == Flatten(children) + inner;
      FlattenBalanced(children, inner, open + [name]);
      assert inner[1..] == Flatten(rest) + tail;
      assert (open + [name])[..|open|] == open;
      FlattenBalanced(rest, tail, open);
    case Leaf(token, rest) =>
      assert (Flatten(f) + tail)[1..] == Flatten(rest) + tail;
      FlattenBalanced(rest, tail, open);
  }

  lemma ElementTokens(tokens: seq<Token>, children: Forest, name: string, rest: seq<Token>, tail: seq<Token>)
    requires tokens != [] && tokens[1..] == Flatten(children) + ([End(name)] + (rest + tail))
    ensures tokens == ([tokens[0]] + (Flatten(children) + ([End(name)] + rest))) + tail
  {
    assert tokens == [tokens[0]] + tokens[1..];
  }

  /**
   Reading balanced tokens up to the end tag of the innermost open element, or to their end: a tree, and what is behind.
   */
  lemma {:induction false} Parses(tokens: seq<Token>, open: seq<string>) returns (f: Forest, behind: seq<Token>)
    requires Balanced(tokens, open)
    ensures WellFormed(f)
    ensures open == [] ==> tokens == Flatten(f)
    ensures open != [] ==>
              && tokens == Flatten(f) + ([End(open[|open| - 1])] + behind)
              && Balanced(behind, open[..|open| - 1])
    decreases |tokens|
  {
    behind := [];
    if tokens == [] {
      f := Empty;
    } else {
      match tokens[0] {
        case Start(name, attrs) =>
          var children, siblings := Parses(tokens[1..], open + [name]);
          assert (open + [name])[..|open|] == open;
          var rest, more := Parses(siblings, open);
          f, behind := Element(name, attrs, children, rest), more;
          if open != [] {
            ElementTokens(tokens, children, name, Flatten(rest), [End(open[|open| - 1])] + behind);
          } else {
            ElementTokens(tokens, children, name, Flatten(rest), []);
            assert Flatten(rest) + [] == Flatten(rest) && Flatten(f) + [] == Flatten(f);
          }
        case End(name) =>
          f, behind := Empty, tokens[1..];
          assert tokens == [] + ([End(name)] + behind);
        case _ =>
          var rest, more := Parses(tokens[1..], open);
          f, behind := Leaf(tokens[0], rest), more;
          assert tokens == [tokens[0]] + tokens[1..];
      }
    }
  }

  /** A sequence of tokens is balanced exactly if it is the token sequence of a tree. */
  lemma BalancedIsTree(tokens: seq<Token>)
    ensures Balanced(tokens, []) <==> exists f :: WellFormed(f) && Flatten(f) == tokens
  {
    if Balanced(tokens, []) {
      var f, _ := Parses(tokens, []);
    }
    forall f | WellFormed(f) && Flatten(f) == tokens
      ensures Balanced(tokens, [])
    {
      FlattenBalanced(f, [], []);
      assert Flatten(f) + [] == Flatten(f);
    }
  }

  /** The tree of a balanced document. */
  ghost function TreeOf(tokens: seq<Token>): (f: Forest)
    requires Balanced(tokens, [])
    ensures WellFormed(f) && Flatten(f) == tokens
  {
    BalancedIsTree(tokens);
    var f :| WellFormed(f) && Flatten(f) == tokens;
    f
  }

  // ---------------------------------------------------------------------------------------------
  // Attributes
  // ---------------------------------------------------------------------------------------------

  /** `attrsMap(attrs)[name]`: the last one wins, and a missing one reads as the empty string. */
  function Get(attrs: seq<Attr>, name: string): string {
    if attrs == [] then ""
    else
      var last := attrs[|attrs| - 1];
      if last.name == name then last.value else Get(attrs[..|attrs| - 1], name)
  }

  predicate IsData(name: string) {
    |name| >= 5 && name[..5] == "data-"
  }

  function StripData(attrs: seq<Attr>): seq<Attr> {
    if attrs == [] then []
    else if IsData(attrs[0].name) then StripData(attrs[1..])
    else [attrs[0]] + StripData(attrs[1..])
  }

  /** `setAttr`: the first one of that name is changed, or a new one appended. */
  function SetAttr(attrs: seq<Attr>, name: string, value: string): seq<Attr> {
    if attrs == [] then [Attr(name, value)]
    else if attrs[0].name == name then [Attr(name, value)] + attrs[1..]
    else [attrs[0]] + SetAttr(attrs[1..], name, value)
  }
}
