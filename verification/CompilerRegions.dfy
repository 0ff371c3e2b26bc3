/** Where hit boxes end up: each is the bounding box of its element under all transforms from the root down to it. */
module CompilerRegions {
  import opened Common
  import opened Svg
  import opened Substitution
  import opened Compiler
  import opened CompilerTree
  import HitBox

  function Boxes(rs: seq<Region>): (boxes: seq<HitBox.Box>)
    ensures |boxes| == |rs|
  {
    seq(|rs|, i requires 0 <= i < |rs| => rs[i].box)
  }

  /** A box inside elements with the transforms `chain`, from the root inwards, on the display. */
  function Located(view: HitBox.View, chain: seq<HitBox.Matrix>, box: HitBox.Box): HitBox.Box
    requires HitBox.Positive(view)
  {
    HitBox.Rounded(HitBox.ExtentOf(box, HitBox.Accumulate(chain)), view)
  }

  function LocatedAll(view: HitBox.View, chain: seq<HitBox.Matrix>, rs: seq<Region>): seq<HitBox.Box>
    requires HitBox.Positive(view)
  {
    seq(|rs|, i requires 0 <= i < |rs| => Located(view, chain, rs[i].box))
  }

  /** The element's own hit box, for its action or for its region. */
  predicate Marked(f: Facts, actions: bool) {
    f.hit.Some? && Get(f.attrs, if actions then "data-action" else "data-region") != ""
  }

  /** What one element contributes: its own box, and a calendar's buttons. */
  function BoxesAt(f: Facts, chain: seq<HitBox.Matrix>, view: HitBox.View, actions: bool): seq<HitBox.Box>
    requires HitBox.Positive(view)
  {
    (if Marked(f, actions) then [Located(view, chain, f.hit.value)] else [])
    + (if actions && f.content.Some? then LocatedAll(view, chain, f.content.value.1) else [])
  }

  /** The boxes of a tree in document order; `own` are the transforms of the elements around it. */
  function BoxesOf(c: Settings, v: Values, f: Forest, rooted: bool, own: seq<HitBox.Matrix>, view: HitBox.View,
                   actions: bool): seq<HitBox.Box>
    requires HitBox.Positive(view)
  {
    match f
    case Empty => []
    case Leaf(_, rest) => BoxesOf(c, v, rest, rooted, own, view, actions)
    case Element(tag, attrs, children, rest) =>
      match Look(c, v, rooted, tag, attrs)
      case None => []
      case Some(facts) =>
        BoxesAt(facts, own + [facts.own], view, actions)
        + BoxesOf(c, v, children, true, own + [facts.own], view, actions)
        + BoxesOf(c, v, rest, true, own, view, actions)
  }

  // ---------------------------------------------------------------------------------------------
  // The same with the matrix the compiler carries along
  // ---------------------------------------------------------------------------------------------

  function PlacedAll(view: HitBox.View, m: HitBox.Matrix, rs: seq<Region>): seq<HitBox.Box> {
    seq(|rs|, i requires 0 <= i < |rs| => Place(view, m, rs[i].box))
  }

  function PlacedAt(f: Facts, m: HitBox.Matrix, view: HitBox.View, actions: bool): seq<HitBox.Box> {
    (if Marked(f, actions) then [Place(view, m, f.hit.value)] else [])
    + (if actions && f.content.Some? then PlacedAll(view, m, f.content.value.1) else [])
  }

  function PlacedOf(c: Settings, v: Values, f: Forest, rooted: bool, m: HitBox.Matrix, view: HitBox.View,
                    actions: bool): seq<HitBox.Box> {
    match f
    case Empty => []
    case Leaf(_, rest) => PlacedOf(c, v, rest, rooted, m, view, actions)
    case Element(tag, attrs, children, rest) =>
      match Look(c, v, rooted, tag, attrs)
      case None => []
      case Some(facts) =>
        PlacedAt(facts, HitBox.Mul(m, facts.own), view, actions)
        + PlacedOf(c, v, children, true, HitBox.Mul(m, facts.own), view, actions)
        + PlacedOf(c, v, rest, true, m, view, actions)
  }

  lemma AtChain(f: Facts, chain: seq<HitBox.Matrix>, view: HitBox.View, actions: bool)
    requires HitBox.Positive(view)
    ensures PlacedAt(f, HitBox.Accumulate(chain), view, actions) == BoxesAt(f, chain, view, actions)
  {
    hide HitBox.Accumulate, HitBox.Rounded, HitBox.ExtentOf;
    if f.content.Some? {
      assert PlacedAll(view, HitBox.Accumulate(chain), f.content.value.1) == LocatedAll(view, chain, f.content.value.1);
    }
  }

  lemma ChainStep(own: seq<HitBox.Matrix>, m: HitBox.Matrix)
    ensures HitBox.Accumulate(own + [m]) == HitBox.Mul(HitBox.Accumulate(own), m)
  {
    hide HitBox.Mul;
    assert (own + [m])[..|own|] == own;
  }

  /** The matrix carried along is the product of the transforms around. */
  lemma {:induction false} CarriedIsChain(c: Settings, v: Values, f: Forest, rooted: bool, own: seq<HitBox.Matrix>,
                                          view: HitBox.View, actions: bool)
    requires HitBox.Positive(view)
    ensures PlacedOf(c, v, f, rooted, HitBox.Accumulate(own), view, actions)
         == BoxesOf(c, v, f, rooted, own, view, actions)
  {
    hide HitBox.Accumulate, HitBox.Mul, HitBox.Positive, Look, PlacedAt, BoxesAt;
    match f
    case Empty =>
    case Leaf(_, rest) => CarriedIsChain(c, v, rest, rooted, own, view, actions);
    case Element(tag, attrs, children, rest) =>
      match Look(c, v, rooted, tag, attrs) {
        case None =>
        case Some(facts) =>
          ChainStep(own, facts.own);
          AtChain(facts, own + [facts.own], view, actions);
          CarriedIsChain(c, v, children, true, own + [facts.own], view, actions);
          CarriedIsChain(c, v, rest, true, own, view, actions);
      }
  }

  // ---------------------------------------------------------------------------------------------
  // One element
  // ---------------------------------------------------------------------------------------------

  lemma {:induction false} PlacedBoxes(rs: seq<Region>, view: HitBox.View, m: HitBox.Matrix, order: nat)
    ensures Boxes(Placed(rs, view, m, order)) == PlacedAll(view, m, rs)
  {
    hide Place;
    if rs != [] {
      PlacedBoxes(rs[..|rs| - 1], view, m, order);
      var p := Placed(rs, view, m, order);
      assert Boxes(p) == Boxes(p[..|p| - 1]) + [p[|p| - 1].box];
    }
  }

  lemma AppendBoxes(rs: seq<Region>, more: seq<Region>)
    ensures Boxes(rs + more) == Boxes(rs) + Boxes(more)
  {
  }

  lemma RegionPlaces(level: Level, g: Document, f: Facts, view: HitBox.View)
    requires g.view == Some(view) && !level.skip
    requires NoteRegion(level, g, f).Some?
    ensures var g' := NoteRegion(level, g, f).value;
            && Boxes(g'.actions) == Boxes(g.actions)
                 + (if Marked(f, true) then [Place(view, level.matrix, f.hit.value)] else [])
            && Boxes(g'.regions) == Boxes(g.regions)
                 + (if Marked(f, false) then [Place(view, level.matrix, f.hit.value)] else [])
            && g'.view == g.view
  {
    hide Place;
    assert Boxes(g.actions) + [] == Boxes(g.actions) && Boxes(g.regions) + [] == Boxes(g.regions);
  }

  lemma WritePlaces(c: Settings, level: Level, g: Document, rooted: bool, tag: string, f: Facts, view: HitBox.View)
    requires g.view == Some(view) && !level.skip
    requires Write(c, level, g, rooted, tag, f).Some?
    ensures f.content.Some?
    ensures var g' := Write(c, level, g, rooted, tag, f).value;
            && Boxes(g'.actions) == Boxes(g.actions) + PlacedAll(view, level.matrix, f.content.value.1)
            && g'.regions == g.regions && g'.view == g.view
  {
    hide Place, Placed, OutAttrs;
    PlacedBoxes(f.content.value.1, view, level.matrix, g.order);
    AppendBoxes(g.actions, Placed(f.content.value.1, view, level.matrix, g.order));
  }

  lemma NotesPlaceNothing(c: Settings, parent: Level, g: Document, f: Facts)
    ensures NotePage(parent, g, f).actions == g.actions && NotePage(parent, g, f).regions == g.regions
            && NotePage(parent, g, f).view == g.view
    ensures EnterRoot(c, g, f.name, f.attrs).Some? ==>
              var g' := EnterRoot(c, g, f.name, f.attrs).value;
              g'.actions == g.actions && g'.regions == g.regions && (g.view.Some? ==> g'.view == g.view)
    ensures NoteDynamic(g, f).Some? ==>
              var g' := NoteDynamic(g, f).value; g'.actions == g.actions && g'.regions == g.regions && g'.view == g.view
  {
    hide ParseRoot, DepsOf;
  }

  lemma RootSeen(c: Settings, g: Document, name: string, attrs: seq<Attr>)
    ensures EnterRoot(c, g, name, attrs).Some? ==> EnterRoot(c, g, name, attrs).value.view.Some?
  {
  }

  /** A start tag that is kept. */
  lemma EnterPlaces(c: Settings, v: Values, level: Level, g: Document, tag: string, attrs: seq<Attr>)
    requires Enter(c, v, level, g, tag, attrs).Some? && !level.skip && !(PageOf(c, attrs) != "" && g.pageID.Some?)
    ensures Look(c, v, g.view.Some?, tag, attrs).Some?
    ensures var f := Look(c, v, g.view.Some?, tag, attrs).value;
            var (inner, g') := Enter(c, v, level, g, tag, attrs).value;
            && inner.matrix == HitBox.Mul(level.matrix, f.own) && !inner.skip
            && g'.view.Some? && (g.view.Some? ==> g'.view == g.view)
            && Boxes(g'.actions) == Boxes(g.actions) + PlacedAt(f, inner.matrix, g'.view.value, true)
            && Boxes(g'.regions) == Boxes(g.regions) + PlacedAt(f, inner.matrix, g'.view.value, false)
  {
    hide Look, NotePage, EnterRoot, NoteDynamic, NoteRegion, Write, Boxes, Marked, PlacedAll, Place, HitBox.Mul;
    EnterWrites(c, v, level, g, tag, attrs);
    var f := Look(c, v, g.view.Some?, tag, attrs).value;
    var inner := Open(level, g, f);
    var g0 := NotePage(level, g, f);
    NotesPlaceNothing(c, level, g, f);
    NotesPlaceNothing(c, level, g0, f);
    RootSeen(c, g0, f.name, f.attrs);
    var g1 := EnterRoot(c, g0, f.name, f.attrs).value;
    NotesPlaceNothing(c, level, g1, f);
    var g2 := NoteDynamic(g1, f).value;
    RegionPlaces(inner, g2, f, g1.view.value);
    var g3 := NoteRegion(inner, g2, f).value;
    WritePlaces(c, inner, g3, g.view.Some?, tag, f, g1.view.value);
  }

  // ---------------------------------------------------------------------------------------------
  // The whole document
  // ---------------------------------------------------------------------------------------------

  lemma PlainPlaces(c: Settings, level: Level, g: Document, token: Token)
    requires !token.Start? && !token.End? && Plain(c, level, g, token).Some?
    ensures var g' := Plain(c, level, g, token).value;
            g'.actions == g.actions && g'.regions == g.regions && g'.view == g.view && g'.pageID == g.pageID
  {
  }

  /** A view box once met is kept. */
  lemma {:induction false} WalkView(c: Settings, v: Values, f: Forest, level: Level, g: Document)
    requires g.view.Some? && Walk(c, v, f, level, g).Some?
    ensures Walk(c, v, f, level, g).value.view == g.view
  {
    hide Enter;
    match f
    case Empty =>
    case Leaf(token, rest) => WalkView(c, v, rest, level, Plain(c, level, g, token).value);
    case Element(tag, attrs, children, rest) =>
      EnterView(c, v, level, g, tag, attrs);
      var (inner, g1) := Enter(c, v, level, g, tag, attrs).value;
      WalkView(c, v, children, inner, g1);
      WalkView(c, v, rest, level, Leave(inner, Walk(c, v, children, inner, g1).value, tag));
  }

  lemma EnterView(c: Settings, v: Values, level: Level, g: Document, tag: string, attrs: seq<Attr>)
    requires g.view.Some? && Enter(c, v, level, g, tag, attrs).Some?
    ensures Enter(c, v, level, g, tag, attrs).value.1.view == g.view
  {
    hide Look, OutAttrs, Placed, Place, DepsOf;
  }

  /** What a tree adds: the boxes of what is left of it, under the matrix it stands in. */
  ghost predicate Adds(c: Settings, v: Values, kept: Forest, rooted: bool, m: HitBox.Matrix, view: HitBox.View,
                       g: Document, g': Document) {
    && Boxes(g'.actions) == Boxes(g.actions) + PlacedOf(c, v, kept, rooted, m, view, true)
    && Boxes(g'.regions) == Boxes(g.regions) + PlacedOf(c, v, kept, rooted, m, view, false)
  }

  lemma {:induction false} WalkPlaces(c: Settings, v: Values, f: Forest, level: Level, g: Document, view: HitBox.View)
    requires g.view.Some? ==> g.view.value == view
    requires Walk(c, v, f, level, g).Some? && !level.skip && (g.pageID.Some? ==> g.view.Some?)
    requires Walk(c, v, f, level, g).value.view.Some? ==> Walk(c, v, f, level, g).value.view.value == view
    ensures Adds(c, v, ErasePages(c, f, g.pageID.Some?), g.view.Some?, level.matrix, view, g,
                 Walk(c, v, f, level, g).value)
    decreases f
  {
    hide Look, Enter, Plain, PlacedAt, HitBox.Mul, Boxes;
    match f
    case Empty => assert Boxes(g.actions) + [] == Boxes(g.actions) && Boxes(g.regions) + [] == Boxes(g.regions);
    case Leaf(token, rest) =>
      PlainPlaces(c, level, g, token);
      WalkPlaces(c, v, rest, level, Plain(c, level, g, token).value, view);
    case Element(tag, attrs, children, rest) =>
      if PageOf(c, attrs) != "" && g.pageID.Some? {
        EnterSkips(c, v, level, g, tag, attrs);
        var (inner, g1) := Enter(c, v, level, g, tag, attrs).value;
        SkippedWrites(c, v, children, inner, g1);
        WalkPlaces(c, v, rest, level, Walk(c, v, children, inner, g1).value, view);
      } else {
        ElementPlaces(c, v, tag, attrs, children, rest, level, g, view);
      }
  }

  /** The boxes of a kept element after erasing. */
  lemma BoxesKept(c: Settings, v: Values, tag: string, attrs: seq<Attr>, children: Forest, rest: Forest, seen: bool,
                  rooted: bool, m: HitBox.Matrix, view: HitBox.View, actions: bool)
    requires !(seen && PageOf(c, attrs) != "") && Look(c, v, rooted, tag, attrs).Some?
    ensures var facts, within := Look(c, v, rooted, tag, attrs).value, seen || PageOf(c, attrs) != "";
            PlacedOf(c, v, ErasePages(c, Element(tag, attrs, children, rest), seen), rooted, m, view, actions)
              == PlacedAt(facts, HitBox.Mul(m, facts.own), view, actions)
                 + PlacedOf(c, v, ErasePages(c, children, within), true, HitBox.Mul(m, facts.own), view, actions)
                 + PlacedOf(c, v, ErasePages(c, rest, within || Pages(c, children) != []), true, m, view, actions)
  {
    hide Look, PlacedAt, HitBox.Mul;
  }

  /** The page noted inside and behind a kept element. */
  lemma KeptPages(c: Settings, v: Values, tag: string, attrs: seq<Attr>, children: Forest, level: Level, g: Document)
    requires Enter(c, v, level, g, tag, attrs).Some? && !level.skip && !(PageOf(c, attrs) != "" && g.pageID.Some?)
    requires g.pageID.Some? ==> g.view.Some?
    requires var (inner, g1) := Enter(c, v, level, g, tag, attrs).value; Walk(c, v, children, inner, g1).Some?
    ensures var (inner, g1) := Enter(c, v, level, g, tag, attrs).value;
            && (g1.pageID.Some? <==> g.pageID.Some? || PageOf(c, attrs) != "")
            && (Walk(c, v, children, inner, g1).value.pageID.Some? <==> g1.pageID.Some? || Pages(c, children) != [])
  {
    hide Enter, Walk, Look, Replace, Flatten, OutAttrs, ErasePages;
    EnterWrites(c, v, level, g, tag, attrs);
    var (inner, g1) := Enter(c, v, level, g, tag, attrs).value;
    WalkWrites(c, v, children, inner, g1);
  }

  lemma ElementPlaces(c: Settings, v: Values, tag: string, attrs: seq<Attr>, children: Forest, rest: Forest,
                      level: Level, g: Document, view: HitBox.View)
    requires g.view.Some? ==> g.view.value == view
    requires var f := Element(tag, attrs, children, rest);
             && Walk(c, v, f, level, g).Some? && !level.skip && (g.pageID.Some? ==> g.view.Some?)
             && (Walk(c, v, f, level, g).value.view.Some? ==> Walk(c, v, f, level, g).value.view.value == view)
    requires !(PageOf(c, attrs) != "" && g.pageID.Some?)
    ensures var f := Element(tag, attrs, children, rest);
            Adds(c, v, ErasePages(c, f, g.pageID.Some?), g.view.Some?, level.matrix, view, g,
                 Walk(c, v, f, level, g).value)
    decreases Element(tag, attrs, children, rest), 0
  {
    hide Look, Enter, PlacedAt, HitBox.Mul, Boxes, PlacedOf, ErasePages, Replace, Flatten, OutAttrs;
    EnterPlaces(c, v, level, g, tag, attrs);
    KeptPages(c, v, tag, attrs, children, level, g);
    var facts := Look(c, v, g.view.Some?, tag, attrs).value;
    var (inner, g1) := Enter(c, v, level, g, tag, attrs).value;
    WalkView(c, v, children, inner, g1);
    var g2 := Walk(c, v, children, inner, g1).value;
    var g3 := Leave(inner, g2, tag);
    WalkView(c, v, rest, level, g3);
    WalkPlaces(c, v, children, inner, g1, view);
    WalkPlaces(c, v, rest, level, g3, view);
    BoxesKept(c, v, tag, attrs, children, rest, g.pageID.Some?, g.view.Some?, level.matrix, view, true);
    BoxesKept(c, v, tag, attrs, children, rest, g.pageID.Some?, g.view.Some?, level.matrix, view, false);
    Joined(Boxes(g.actions), PlacedAt(facts, inner.matrix, view, true));
    Joined(Boxes(g.regions), PlacedAt(facts, inner.matrix, view, false));
  }

  lemma Joined(front: seq<HitBox.Box>, x: seq<HitBox.Box>)
    ensures forall y: seq<HitBox.Box>, z: seq<HitBox.Box> :: ((front + x) + y) + z == front + ((x + y) + z)
  {
  }

  /**
   For every balanced document the compiler accepts: the boxes of its actions and of its regions are, in document order,
   those of the elements outside erased pages - and of their calendars - each transformed by the product of the
   transforms of all its ancestors and its own, bounded, and rounded onto the display.
   */
  lemma RegionsPlaced(c: Settings, v: Values, tokens: seq<Token>)
    requires Sound(c) && Balanced(tokens, []) && Compile(c, v, tokens).Some?
    ensures var g, kept := Compile(c, v, tokens).value, ErasePages(c, TreeOf(tokens), false);
            && g.view.Some? && HitBox.Positive(g.view.value)
            && Boxes(g.actions) == BoxesOf(c, v, kept, false, [], g.view.value, true)
            && Boxes(g.regions) == BoxesOf(c, v, kept, false, [], g.view.value, false)
  {
    hide Walk, Compile, BoxesOf, PlacedOf, ErasePages, Sound, HitBox.Positive, HitBox.Accumulate;
    var f := TreeOf(tokens);
    CompileWalks(c, v, f);
    Display(c);
    var view := Compile(c, v, tokens).value.view.value;
    WalkPositive(c, v, f, BASE, START);
    AccumulateEmpty();
    WalkPlaces(c, v, f, BASE, START, view);
    CarriedIsChain(c, v, ErasePages(c, f, false), false, [], view, true);
    CarriedIsChain(c, v, ErasePages(c, f, false), false, [], view, false);
    NoBoxes(BoxesOf(c, v, ErasePages(c, f, false), false, [], view, true));
    NoBoxes(BoxesOf(c, v, ErasePages(c, f, false), false, [], view, false));
  }

  lemma AccumulateEmpty()
    ensures HitBox.Accumulate([]) == HitBox.IDENTITY
  {
  }

  lemma NoBoxes(boxes: seq<HitBox.Box>)
    ensures Boxes([]) + boxes == boxes
  {
  }

  lemma Display(c: Settings)
    requires Sound(c)
    ensures 0 < c.width && 0 < c.height
  {
  }

  lemma {:induction false} WalkPositive(c: Settings, v: Values, f: Forest, level: Level, g: Document)
    requires 0 < c.width && 0 < c.height && g.view == None && Walk(c, v, f, level, g).Some?
    ensures var g' := Walk(c, v, f, level, g).value; g'.view.Some? ==> HitBox.Positive(g'.view.value)
  {
    hide Enter, HitBox.Positive;
    match f
    case Empty =>
    case Leaf(token, rest) => WalkPositive(c, v, rest, level, Plain(c, level, g, token).value);
    case Element(tag, attrs, children, rest) =>
      EnterPositive(c, v, level, g, tag, attrs);
      var (inner, g1) := Enter(c, v, level, g, tag, attrs).value;
      WalkView(c, v, children, inner, g1);
      WalkView(c, v, rest, level, Leave(inner, Walk(c, v, children, inner, g1).value, tag));
  }

  lemma EnterPositive(c: Settings, v: Values, level: Level, g: Document, tag: string, attrs: seq<Attr>)
    requires 0 < c.width && 0 < c.height && g.view == None && Enter(c, v, level, g, tag, attrs).Some?
    ensures var g' := Enter(c, v, level, g, tag, attrs).value.1; g'.view.Some? && HitBox.Positive(g'.view.value)
  {
    hide Look, OutAttrs, Placed, Place, DepsOf;
  }
}
