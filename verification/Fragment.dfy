/** Splicing a widget module's output into a document. */
module Fragment {
  import opened Common
  import opened Svg

  /** Lower-casing, and the attribute rules of the document, left abstract. */
  datatype Rules = Rules(lower: string -> string, validAttrs: seq<Attr> -> bool)

  predicate Forbidden(name: string) {
    name in {"script", "foreignobject", "animate", "animatemotion", "animatetransform", "set", "audio", "video",
             "iframe"}
  }

  predicate AllowedElement(r: Rules, name: string, attrs: seq<Attr>) {
    && !Forbidden(r.lower(name)) && r.validAttrs(attrs)
    && Get(attrs, "data-widget") == "" && Get(attrs, "data-action") == "" && Get(attrs, "data-region") == ""
  }

  /** `encodeWidgetFragment`: the tokens it encodes, or an error. */
  method EncodeFragment(r: Rules, tokens: seq<Token>) returns (out: Option<seq<Token>>)
    ensures out == Encode(r, tokens, 0, 0)
  {
    var depth, roots, i := 0, 0, 0;
    var encoded: seq<Token> := [];
    PrependAppend([], [], Encode(r, tokens, 0, 0));
    while i < |tokens|
      invariant 0 <= i <= |tokens| && 0 <= depth && 0 <= roots
      invariant Encode(r, tokens, 0, 0) == Prepend(encoded, Encode(r, tokens[i..], depth, roots))
    {
      var t := tokens[i];
      assert tokens[i..][1..] == tokens[i + 1..];
      match t {
        case Directive(_) => return None;
        case Other(_) => return None;
        case Comment(_) =>
        case Text(_) =>
          PrependAppend(encoded, [t], Encode(r, tokens[i + 1..], depth, roots));
          encoded := encoded + [t];
        case Start(name, attrs) =>
          if depth == 0 {
            roots := roots + 1;
            if r.lower(name) != "g" {
              return None;
            }
          }
          if !AllowedElement(r, name, attrs) {
            return None;
          }
          PrependAppend(encoded, [Start(name, StripData(attrs))], Encode(r, tokens[i + 1..], depth + 1, roots));
          encoded := encoded + [Start(name, StripData(attrs))];
          depth := depth + 1;
        case End(_) =>
          if depth == 0 {
            return None;
          }
          PrependAppend(encoded, [t], Encode(r, tokens[i + 1..], depth - 1, roots));
          depth := depth - 1;
          encoded := encoded + [t];
      }
      i := i + 1;
    }
    if roots != 1 || depth != 0 {
      return None;
    }
    assert encoded + [] == encoded;
    out := Some(encoded);
  }

  /** The loop from some depth and root count on. */
  function Encode(r: Rules, tokens: seq<Token>, depth: nat, roots: nat): Option<seq<Token>> {
    if tokens == [] then (if roots != 1 || depth != 0 then None else Some([]))
    else
      var t := tokens[0];
      match t
      case Directive(_) => None
      case Other(_) => None
      case Comment(_) => Encode(r, tokens[1..], depth, roots)
      case Text(_) => Prepend([t], Encode(r, tokens[1..], depth, roots))
      case Start(name, attrs) =>
        if (depth == 0 && r.lower(name) != "g") || !AllowedElement(r, name, attrs) then None
        else Prepend([Start(name, StripData(attrs))],
                     Encode(r, tokens[1..], depth + 1, if depth == 0 then roots + 1 else roots))
      case End(_) => if depth == 0 then None else Prepend([t], Encode(r, tokens[1..], depth - 1, roots))
  }

  // ---------------------------------------------------------------------------------------------
  // What a fragment may be, as a tree
  // ---------------------------------------------------------------------------------------------

  function TopElements(f: Forest): nat {
    match f
    case Empty => 0
    case Element(_, _, _, rest) => 1 + TopElements(rest)
    case Leaf(_, rest) => TopElements(rest)
  }

  /** Every element is allowed, elements at the top are groups, and there is nothing but elements, text and comments. */
  predicate Acceptable(r: Rules, f: Forest, top: bool) {
    match f
    case Empty => true
    case Element(name, attrs, children, rest) =>
      (top ==> r.lower(name) == "g") && AllowedElement(r, name, attrs) && Acceptable(r, children, false)
        && Acceptable(r, rest, top)
    case Leaf(token, rest) => (token.Text? || token.Comment?) && Acceptable(r, rest, top)
  }

  /** Comments and data attributes removed. */
  function Cleaned(f: Forest): Forest {
    match f
    case Empty => Empty
    case Element(name, attrs, children, rest) => Element(name, StripData(attrs), Cleaned(children), Cleaned(rest))
    case Leaf(token, rest) => if token.Comment? then Cleaned(rest) else Leaf(token, Cleaned(rest))
  }

  /** Reading a forest at some depth, then what follows it. */
  lemma {:induction false} EncodeForest(r: Rules, f: Forest, tail: seq<Token>, depth: nat, roots: nat)
    requires WellFormed(f)
    ensures Encode(r, Flatten(f) + tail, depth, roots)
         == if Acceptable(r, f, depth == 0)
            then Prepend(Flatten(Cleaned(f)),
                         Encode(r, tail, depth, if depth == 0 then roots + TopElements(f) else roots)) else None
    decreases f, 1
  {
    hide AllowedElement, Prepend;
    PrependNone<Token>();
    match f
    case Empty =>
      assert [] + tail == tail;
      PrependAppend([], [], Encode(r, tail, depth, roots));
    case Element(_, _, _, _) => EncodeElement(r, f, tail, depth, roots);
    case Leaf(token, rest) =>
      assert (Flatten(f) + tail)[1..] == Flatten(rest) + tail;
      EncodeForest(r, rest, tail, depth, roots);
      var last := Encode(r, tail, depth, if depth == 0 then roots + TopElements(f) else roots);
      PrependAppend([token], Flatten(Cleaned(rest)), last);
  }

  lemma EncodeElement(r: Rules, f: Forest, tail: seq<Token>, depth: nat, roots: nat)
    requires WellFormed(f) && f.Element?
    ensures Encode(r, Flatten(f) + tail, depth, roots)
         == if Acceptable(r, f, depth == 0)
            then Prepend(Flatten(Cleaned(f)),
                         Encode(r, tail, depth, if depth == 0 then roots + TopElements(f) else roots)) else None
    decreases f, 0
  {
    hide AllowedElement, Prepend;
    PrependNone<Token>();
    var Element(name, attrs, children, rest) := f;
    var below := if depth == 0 then roots + 1 else roots;
    var inner := [End(name)] + (Flatten(rest) + tail);
    assert (Flatten(f) + tail)[1..] == Flatten(children) + inner;
    EncodeForest(r, children, inner, depth + 1, below);
    assert inner[1..] == Flatten(rest) + tail;
    EncodeForest(r, rest, tail, depth, below);
    var last := Encode(r, tail, depth, if depth == 0 then roots + TopElements(f) else roots);
    PrependElement(name, StripData(attrs), Flatten(Cleaned(children)), Flatten(Cleaned(rest)), last);
  }

  lemma PrependElement(name: string, attrs: seq<Attr>, children: seq<Token>, rest: seq<Token>, last: Option<seq<Token>>)
    ensures Prepend([Start(name, attrs)], Prepend(children, Prepend([End(name)], Prepend(rest, last))))
         == Prepend([Start(name, attrs)] + (children + ([End(name)] + rest)), last)
  {
    if last.Some? {
      assert [Start(name, attrs)] + (children + ([End(name)] + (rest + last.value)))
          == [Start(name, attrs)] + (children + ([End(name)] + rest)) + last.value;
    }
  }

  /** The group a fragment may consist of: one top-level element among text, cleaned. */
  function Spliced(r: Rules, f: Forest): Option<Forest> {
    if Acceptable(r, f, true) && TopElements(f) == 1 then Some(Cleaned(f)) else None
  }

  /**
   A well-formed fragment is spliced exactly when it is one allowed `g`, and then as that element, cleaned, still
   balanced.
   */
  lemma FragmentSplices(r: Rules, f: Forest)
    requires WellFormed(f)
    ensures Encode(r, Flatten(f), 0, 0) == match Spliced(r, f) case None => None case Some(g) => Some(Flatten(g))
    ensures WellFormed(Cleaned(f)) && TopElements(Cleaned(f)) == TopElements(f) && Balanced(Flatten(Cleaned(f)), [])
  {
    assert Flatten(f) + [] == Flatten(f);
    EncodeForest(r, f, [], 0, 0);
    CleanedWellFormed(f);
    FlattenBalanced(Cleaned(f), [], []);
    assert Flatten(Cleaned(f)) + [] == Flatten(Cleaned(f));
  }

  /** All elements of a forest, by name and attributes, and all its other tokens. */
  function Nodes(f: Forest): seq<(string, seq<Attr>)> {
    match f
    case Empty => []
    case Element(name, attrs, children, rest) => [(name, attrs)] + Nodes(children) + Nodes(rest)
    case Leaf(_, rest) => Nodes(rest)
  }

  function Leaves(f: Forest): seq<Token> {
    match f
    case Empty => []
    case Element(_, _, children, rest) => Leaves(children) + Leaves(rest)
    case Leaf(token, rest) => [token] + Leaves(rest)
  }

  /** The names of the elements at the top. */
  function Tops(f: Forest): seq<string> {
    match f
    case Empty => []
    case Element(name, _, _, rest) => [name] + Tops(rest)
    case Leaf(_, rest) => Tops(rest)
  }

  /** Nothing that runs, moves or embeds, no widget, and nothing to touch. */
  ghost predicate Harmless(r: Rules, node: (string, seq<Attr>)) {
    && r.lower(node.0) !in {"script", "foreignobject", "animate", "animatemotion", "animatetransform", "set", "audio",
                            "video", "iframe"}
    && r.validAttrs(node.1)
    && Get(node.1, "data-widget") == "" && Get(node.1, "data-action") == "" && Get(node.1, "data-region") == ""
  }

  lemma {:induction false} AcceptableNodes(r: Rules, f: Forest, top: bool)
    ensures Acceptable(r, f, top) <==>
              && (forall n | n in Nodes(f) :: Harmless(r, n))
              && (forall t | t in Leaves(f) :: t.Text? || t.Comment?)
              && (top ==> forall name | name in Tops(f) :: r.lower(name) == "g")
    ensures TopElements(f) == |Tops(f)|
  {
    hide Get;
    match f
    case Empty =>
    case Element(name, attrs, children, rest) =>
      AcceptableNodes(r, children, false);
      AcceptableNodes(r, rest, top);
      var all := [(name, attrs)] + Nodes(children) + Nodes(rest);
      assert forall n :: n in all <==> n == (name, attrs) || n in Nodes(children) || n in Nodes(rest);
      assert forall t :: t in Leaves(f) <==> t in Leaves(children) || t in Leaves(rest);
      assert forall n :: n in Tops(f) <==> n == name || n in Tops(rest);
      assert Harmless(r, (name, attrs)) <==> AllowedElement(r, name, attrs);
    case Leaf(token, rest) =>
      AcceptableNodes(r, rest, top);
      assert forall t :: t in Leaves(f) <==> t == token || t in Leaves(rest);
  }

  /**
   The tokens of a fragment are accepted exactly if it has one element at the top, a group, every element is harmless,
   and there is nothing else but text and comments.
   */
  lemma FragmentAccepted(r: Rules, f: Forest)
    requires WellFormed(f)
    ensures Encode(r, Flatten(f), 0, 0).Some? <==>
              && |Tops(f)| == 1 && r.lower(Tops(f)[0]) == "g"
              && (forall n | n in Nodes(f) :: Harmless(r, n))
              && (forall t | t in Leaves(f) :: t.Text? || t.Comment?)
  {
    hide Encode, Acceptable, Harmless, Flatten;
    FragmentSplices(r, f);
    AcceptableNodes(r, f, true);
  }

  /** Of the elements only the data attributes are lost, and of the other tokens only the comments. */
  lemma {:induction false} CleanedNodes(f: Forest)
    ensures |Nodes(Cleaned(f))| == |Nodes(f)|
    ensures forall i | 0 <= i < |Nodes(f)| :: Nodes(Cleaned(f))[i] == (Nodes(f)[i].0, StripData(Nodes(f)[i].1))
    ensures Leaves(Cleaned(f)) == NoComments(Leaves(f))
  {
    hide StripData;
    match f
    case Empty =>
    case Element(_, _, children, rest) =>
      CleanedNodes(children);
      CleanedNodes(rest);
      NoCommentsAppend(Leaves(children), Leaves(rest));
    case Leaf(token, rest) => CleanedNodes(rest);
  }

  function NoComments(tokens: seq<Token>): seq<Token> {
    if tokens == [] then []
    else (if tokens[0].Comment? then [] else [tokens[0]]) + NoComments(tokens[1..])
  }

  lemma {:induction false} NoCommentsAppend(a: seq<Token>, b: seq<Token>)
    ensures NoComments(a + b) == NoComments(a) + NoComments(b)
  {
    if a == [] {
      assert a + b == b;
    } else {
      NoCommentsAppend(a[1..], b);
      assert (a + b)[1..] == a[1..] + b;
    }
  }

  lemma {:induction false} CleanedWellFormed(f: Forest)
    requires WellFormed(f)
    ensures WellFormed(Cleaned(f)) && TopElements(Cleaned(f)) == TopElements(f)
  {
    match f
    case Empty =>
    case Element(_, _, children, rest) =>
      CleanedWellFormed(children);
      CleanedWellFormed(rest);
    case Leaf(_, rest) => CleanedWellFormed(rest);
  }
}
