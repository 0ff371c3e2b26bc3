/** Compiling a balanced document is a transformation of its element tree: pages erased, dynamic parts replaced. */
module CompilerTree {
  import opened Common
  import opened Svg
  import opened Substitution
  import opened Compiler
  import Fragment
  import HitBox

  // ---------------------------------------------------------------------------------------------
  // The stack follows the tree
  // ---------------------------------------------------------------------------------------------

  /** The compiler on a tree: the recursion takes the place of the stack. */
  function Walk(c: Settings, v: Values, f: Forest, level: Level, g: Document): Option<Document> {
    match f
    case Empty => Some(g)
    case Leaf(token, rest) =>
      if token.Start? || token.End? then None
      else
        (match Plain(c, level, g, token)
         case None => None
         case Some(g1) => Walk(c, v, rest, level, g1))
    case Element(tag, attrs, children, rest) =>
      match Enter(c, v, level, g, tag, attrs)
      case None => None
      case Some((inner, g1)) =>
        match Walk(c, v, children, inner, g1)
        case None => None
        case Some(g2) => Walk(c, v, rest, level, Leave(inner, g2, tag))
  }

  /** Reading the tokens of a tree leaves the stack as it was, with any stack below and any tokens behind. */
  lemma {:induction false} FoldWalks(c: Settings, v: Values, f: Forest, stack: seq<Level>, g: Document,
                                     tail: seq<Token>)
    requires WellFormed(f) && stack != []
    ensures Fold(c, v, stack, g, Flatten(f) + tail)
         == match Walk(c, v, f, stack[|stack| - 1], g) case None => None case Some(g') => Fold(c, v, stack, g', tail)
    decreases f, 1
  {
    hide Enter, Plain, Leave;
    var top := stack[|stack| - 1];
    match f
    case Empty => assert [] + tail == tail;
    case Leaf(token, rest) =>
      assert (Flatten(f) + tail)[1..] == Flatten(rest) + tail;
      match Plain(c, top, g, token) {
        case None =>
        case Some(g1) => FoldWalks(c, v, rest, stack, g1, tail);
      }
    case Element(_, _, _, _) => FoldWalksElement(c, v, f, stack, g, tail);
  }

  lemma FoldWalksElement(c: Settings, v: Values, f: Forest, stack: seq<Level>, g: Document, tail: seq<Token>)
    requires WellFormed(f) && stack != [] && f.Element?
    ensures Fold(c, v, stack, g, Flatten(f) + tail)
         == match Walk(c, v, f, stack[|stack| - 1], g) case None => None case Some(g') => Fold(c, v, stack, g', tail)
    decreases f, 0
  {
    hide Enter, Plain, Leave;
    var top := stack[|stack| - 1];
    var Element(tag, attrs, children, rest) := f;
    var inner := [End(tag)] + (Flatten(rest) + tail);
    assert (Flatten(f) + tail)[1..] == Flatten(children) + inner;
    match Enter(c, v, top, g, tag, attrs) {
      case None =>
      case Some((level, g1)) =>
        var deeper := stack + [level];
        FoldWalks(c, v, children, deeper, g1, inner);
        match Walk(c, v, children, level, g1) {
          case None =>
          case Some(g2) =>
            assert deeper[..|deeper| - 1] == stack && inner[1..] == Flatten(rest) + tail;
            FoldWalks(c, v, rest, stack, Leave(level, g2, tag), tail);
        }
    }
  }

  lemma CompileWalks(c: Settings, v: Values, f: Forest)
    requires WellFormed(f)
    ensures Compile(c, v, Flatten(f))
         == match Walk(c, v, f, BASE, START) case None => None case Some(g) => if g.view == None then None else Some(g)
  {
    assert Flatten(f) + [] == Flatten(f);
    FoldWalks(c, v, f, [BASE], START, []);
  }

  // ---------------------------------------------------------------------------------------------
  // The transformation
  // ---------------------------------------------------------------------------------------------

  function PageOf(c: Settings, raw: seq<Attr>): string {
    Get(c.normalize(raw), "data-page")
  }

  /** All page names in document order. */
  function Pages(c: Settings, f: Forest): seq<string> {
    match f
    case Empty => []
    case Leaf(_, rest) => Pages(c, rest)
    case Element(_, attrs, children, rest) =>
      (if PageOf(c, attrs) != "" then [PageOf(c, attrs)] else []) + Pages(c, children) + Pages(c, rest)
  }

  /** Every page but the first removed, with everything inside it; `seen` when the first one has been met before. */
  function ErasePages(c: Settings, f: Forest, seen: bool): Forest {
    match f
    case Empty => Empty
    case Leaf(token, rest) => Leaf(token, ErasePages(c, rest, seen))
    case Element(tag, attrs, children, rest) =>
      if seen && PageOf(c, attrs) != "" then ErasePages(c, rest, seen)
      else
        var within := seen || PageOf(c, attrs) != "";
        Element(tag, attrs, ErasePages(c, children, within), ErasePages(c, rest, within || Pages(c, children) != []))
  }

  function Elements(f: Forest): nat {
    match f
    case Empty => 0
    case Leaf(_, rest) => Elements(rest)
    case Element(_, _, children, rest) => 1 + Elements(children) + Elements(rest)
  }

  /** What an element is replaced by, given only its own tag and attributes. */
  function Replace(c: Settings, v: Values, f: Forest, rooted: bool, dynamic: bool, style: bool): Forest {
    match f
    case Empty => Empty
    case Leaf(token, rest) =>
      var others := Replace(c, v, rest, rooted, dynamic, style);
      if token.Text? then (if dynamic then others
                           else Leaf(Text(if style then c.css(token.data) else token.data), others))
      else Leaf(token, others)
    case Element(tag, attrs, children, rest) =>
      var others := Replace(c, v, rest, true, dynamic, style);
      match Look(c, v, rooted, tag, attrs)
      case None => Empty
      case Some(facts) =>
        var content := if facts.content.Some? then facts.content.value.0 else Empty;
        Element(tag, OutAttrs(c, rooted, facts.dynamic, facts.attrs),
                Append(content, Replace(c, v, children, true, !facts.dynamic.Static?, facts.name == "style")), others)
  }

  /** An erased subtree changes nothing that is written. */
  lemma {:induction false} SkippedWrites(c: Settings, v: Values, f: Forest, level: Level, g: Document)
    requires level.skip && g.view.Some? && Walk(c, v, f, level, g).Some?
    ensures var g' := Walk(c, v, f, level, g).value;
            && g'.output == g.output && g'.actions == g.actions && g'.regions == g.regions && g'.order == g.order
            && g'.pageID == g.pageID && g'.view == g.view && g.ids <= g'.ids
  {
    hide Look, Open;
    match f
    case Empty =>
    case Leaf(token, rest) => SkippedWrites(c, v, rest, level, Plain(c, level, g, token).value);
    case Element(tag, attrs, children, rest) =>
      EnterSkips(c, v, level, g, tag, attrs);
      var (inner, g1) := Enter(c, v, level, g, tag, attrs).value;
      SkippedWrites(c, v, children, inner, g1);
      var g2 := Walk(c, v, children, inner, g1).value;
      SkippedWrites(c, v, rest, level, Leave(inner, g2, tag));
  }

  lemma EnterSkips(c: Settings, v: Values, level: Level, g: Document, tag: string, attrs: seq<Attr>)
    requires Enter(c, v, level, g, tag, attrs).Some? && g.view.Some?
    requires level.skip || (PageOf(c, attrs) != "" && g.pageID.Some?)
    ensures var (inner, g') := Enter(c, v, level, g, tag, attrs).value;
            && inner.skip && g'.output == g.output && g'.actions == g.actions && g'.regions == g.regions
            && g'.order == g.order
            && g'.pageID == g.pageID && g'.view == g.view && g.ids <= g'.ids
  {
  }

  // ---------------------------------------------------------------------------------------------
  // What is written
  // ---------------------------------------------------------------------------------------------

  /** What the notes taken at a start tag leave alone. */
  lemma NotesKeep(c: Settings, parent: Level, g: Document, level: Level, f: Facts)
    ensures NotePage(parent, g, f).output == g.output && NotePage(parent, g, f).view == g.view
    ensures EnterRoot(c, g, f.name, f.attrs).Some? ==>
              var g' := EnterRoot(c, g, f.name, f.attrs).value;
              g'.output == g.output && g'.pageID == g.pageID && g'.view.Some?
    ensures NoteDynamic(g, f).Some? ==>
              var g' := NoteDynamic(g, f).value; g'.output == g.output && g'.pageID == g.pageID && g'.view == g.view
    ensures NoteRegion(level, g, f).Some? ==>
              var g' := NoteRegion(level, g, f).value;
              g'.output == g.output && g'.pageID == g.pageID && g'.view == g.view
  {
    hide ParseRoot, DepsOf, Place;
  }

  /** A start tag that is kept. */
  lemma EnterWrites(c: Settings, v: Values, level: Level, g: Document, tag: string, attrs: seq<Attr>)
    requires Enter(c, v, level, g, tag, attrs).Some? && !level.skip && !(PageOf(c, attrs) != "" && g.pageID.Some?)
    ensures Look(c, v, g.view.Some?, tag, attrs).Some?
    ensures var f := Look(c, v, g.view.Some?, tag, attrs).value;
            var (inner, g') := Enter(c, v, level, g, tag, attrs).value;
            && f.content.Some? && !level.dynamic
            && !inner.skip && inner.dynamic == !f.dynamic.Static? && inner.name == f.name
            && inner.matrix == HitBox.Mul(level.matrix, f.own)
            && g'.output == g.output + [Start(tag, OutAttrs(c, g.view.Some?, f.dynamic, f.attrs))]
                 + Flatten(f.content.value.0)
            && g'.view.Some? && g'.pageID == if PageOf(c, attrs) != "" then Some(PageOf(c, attrs)) else g.pageID
  {
    hide Look, OutAttrs, Placed, EnterRoot, NoteDynamic, NoteRegion;
    var f := Look(c, v, g.view.Some?, tag, attrs).value;
    var inner := Open(level, g, f);
    var g0 := NotePage(level, g, f);
    var g1 := EnterRoot(c, g0, f.name, f.attrs).value;
    var g2 := NoteDynamic(g1, f).value;
    LookAttrs(c, v, g.view.Some?, tag, attrs);
    NotesKeep(c, level, g, inner, f);
    NotesKeep(c, level, g0, inner, f);
    NotesKeep(c, level, g1, inner, f);
    NotesKeep(c, level, g2, inner, f);
  }

  lemma LookAttrs(c: Settings, v: Values, rooted: bool, tag: string, attrs: seq<Attr>)
    requires Look(c, v, rooted, tag, attrs).Some?
    ensures Look(c, v, rooted, tag, attrs).value.attrs == c.normalize(attrs)
  {
    hide OwnTransform, Inspect, Content, TagAttrs;
  }

  /** What the document notes about pages on the way. */
  function FirstPage(noted: Option<string>, pages: seq<string>): Option<string> {
    if noted.Some? || pages == [] then noted else Some(pages[0])
  }

  /** A kept tree is written as the replacement of its erasure, and the page noted is the first of all. */
  lemma {:induction false} WalkWrites(c: Settings, v: Values, f: Forest, level: Level, g: Document)
    requires Walk(c, v, f, level, g).Some? && !level.skip && (g.pageID.Some? ==> g.view.Some?)
    ensures var g' := Walk(c, v, f, level, g).value;
            && g'.output == g.output + Flatten(Replace(c, v, ErasePages(c, f, g.pageID.Some?), g.view.Some?,
                                                       level.dynamic, level.name == "style"))
            && g'.pageID == FirstPage(g.pageID, Pages(c, f))
            && (g'.view.Some? <==> g.view.Some? || Elements(f) > 0) && (g'.pageID.Some? ==> g'.view.Some?)
    decreases f
  {
    hide Look, Enter, OutAttrs;
    match f
    case Empty => assert g.output + [] == g.output;
    case Leaf(token, rest) => LeafWrites(c, v, token, rest, level, g);
    case Element(tag, attrs, children, rest) =>
      var (inner, g1) := Enter(c, v, level, g, tag, attrs).value;
      var g2 := Walk(c, v, children, inner, g1).value;
      if PageOf(c, attrs) != "" && g.pageID.Some? {
        EnterSkips(c, v, level, g, tag, attrs);
        SkippedWrites(c, v, children, inner, g1);
        WalkWrites(c, v, rest, level, g2);
      } else {
        ElementWrites(c, v, tag, attrs, children, rest, level, g);
      }
  }

  /** A leaf that is kept, dropped or restyled. */
  lemma PlainWrites(c: Settings, level: Level, g: Document, token: Token)
    requires !token.Start? && !token.End? && Plain(c, level, g, token).Some? && !level.skip
    ensures var g1, style := Plain(c, level, g, token).value, level.name == "style";
            && g1.view == g.view && g1.pageID == g.pageID
            && g1.output == g.output + (if token.Text? && level.dynamic then []
                                        else if token.Text? then [Text(if style then c.css(token.data) else token.data)]
                                        else [token])
  {
  }

  lemma LeafWrites(c: Settings, v: Values, token: Token, rest: Forest, level: Level, g: Document)
    requires Walk(c, v, Leaf(token, rest), level, g).Some? && !level.skip && (g.pageID.Some? ==> g.view.Some?)
    ensures var g', f := Walk(c, v, Leaf(token, rest), level, g).value, Leaf(token, rest);
            && g'.output == g.output + Flatten(Replace(c, v, ErasePages(c, f, g.pageID.Some?), g.view.Some?,
                                                       level.dynamic, level.name == "style"))
            && g'.pageID == FirstPage(g.pageID, Pages(c, f))
            && (g'.view.Some? <==> g.view.Some? || Elements(f) > 0) && (g'.pageID.Some? ==> g'.view.Some?)
    decreases Leaf(token, rest), 0
  {
    hide Enter, Look, Plain, FirstPage;
    PlainWrites(c, level, g, token);
    var g1 := Plain(c, level, g, token).value;
    WalkWrites(c, v, rest, level, g1);
    var others := Replace(c, v, ErasePages(c, rest, g.pageID.Some?), g.view.Some?, level.dynamic,
                          level.name == "style");
    if g1.output != g.output {
      var written := g1.output[|g.output|];
      assert g.output + [written] + Flatten(others) == g.output + ([written] + Flatten(others));
    } else {
      assert g.output + [] == g.output;
    }
  }

  lemma ElementWrites(c: Settings, v: Values, tag: string, attrs: seq<Attr>, children: Forest, rest: Forest,
                      level: Level, g: Document)
    requires Walk(c, v, Element(tag, attrs, children, rest), level, g).Some? && !level.skip
             && (g.pageID.Some? ==> g.view.Some?)
    requires !(PageOf(c, attrs) != "" && g.pageID.Some?)
    ensures var g', f := Walk(c, v, Element(tag, attrs, children, rest), level, g).value,
            Element(tag, attrs, children, rest);
            && g'.output == g.output + Flatten(Replace(c, v, ErasePages(c, f, g.pageID.Some?), g.view.Some?,
                                                       level.dynamic, level.name == "style"))
            && g'.pageID == FirstPage(g.pageID, Pages(c, f))
            && g'.view.Some?
    decreases Element(tag, attrs, children, rest), 0
  {
    hide Look, Enter, OutAttrs, Replace, ErasePages, Flatten;
    EnterWrites(c, v, level, g, tag, attrs);
    var facts := Look(c, v, g.view.Some?, tag, attrs).value;
    var (inner, g1) := Enter(c, v, level, g, tag, attrs).value;
    WalkWrites(c, v, children, inner, g1);
    var g2 := Walk(c, v, children, inner, g1).value;
    WalkWrites(c, v, rest, level, Leave(inner, g2, tag));
    assert g2.pageID.Some? <==> g1.pageID.Some? || Pages(c, children) != [];
    ReplaceKept(c, v, tag, attrs, children, rest, g.pageID.Some?, g.view.Some?, level.dynamic, level.name == "style");
    var inside := Replace(c, v, ErasePages(c, children, g1.pageID.Some?), true, inner.dynamic, inner.name == "style");
    var others := Replace(c, v, ErasePages(c, rest, g2.pageID.Some?), true, level.dynamic, level.name == "style");
    Concatenate(g.output, Start(tag, OutAttrs(c, g.view.Some?, facts.dynamic, facts.attrs)),
                Flatten(facts.content.value.0), Flatten(inside), End(tag), Flatten(others));
  }

  /** The tokens of a kept element after erasing and replacing. */
  lemma ReplaceKept(c: Settings, v: Values, tag: string, attrs: seq<Attr>, children: Forest, rest: Forest,
                    seen: bool, rooted: bool, dynamic: bool, style: bool)
    requires !(seen && PageOf(c, attrs) != "") && Look(c, v, rooted, tag, attrs).Some?
             && Look(c, v, rooted, tag, attrs).value.content.Some?
    ensures var facts, within := Look(c, v, rooted, tag, attrs).value, seen || PageOf(c, attrs) != "";
            var inside := Replace(c, v, ErasePages(c, children, within), true, !facts.dynamic.Static?,
                                  facts.name == "style");
            var others := Replace(c, v, ErasePages(c, rest, within || Pages(c, children) != []), true, dynamic, style);
            Flatten(Replace(c, v, ErasePages(c, Element(tag, attrs, children, rest), seen), rooted, dynamic, style))
              == [Start(tag, OutAttrs(c, rooted, facts.dynamic, facts.attrs))]
                 + ((Flatten(facts.content.value.0) + Flatten(inside)) + ([End(tag)] + Flatten(others)))
  {
    hide Look, OutAttrs, Append;
    var facts, within := Look(c, v, rooted, tag, attrs).value, seen || PageOf(c, attrs) != "";
    FlattenAppend(facts.content.value.0,
                  Replace(c, v, ErasePages(c, children, within), true, !facts.dynamic.Static?, facts.name == "style"));
  }

  lemma Concatenate(front: seq<Token>, start: Token, content: seq<Token>, inside: seq<Token>, end: Token,
                    others: seq<Token>)
    ensures (((front + [start] + content) + inside) + [end]) + others
         == front + ([start] + ((content + inside) + ([end] + others)))
  {
  }

  // ---------------------------------------------------------------------------------------------
  // Erased pages leave no trace
  // ---------------------------------------------------------------------------------------------

  /** Two documents that differ in notes only: dependencies, widgets and refresh. */
  ghost predicate SameVisible(g: Document, h: Document) {
    && g.output == h.output && g.actions == h.actions && g.regions == h.regions && g.order == h.order
    && g.pageID == h.pageID && g.view == h.view && h.ids <= g.ids
  }

  lemma NotesSame(c: Settings, parent: Level, g: Document, h: Document, f: Facts)
    requires SameVisible(g, h)
    ensures SameVisible(NotePage(parent, g, f), NotePage(parent, h, f)) && Open(parent, g, f) == Open(parent, h, f)
    ensures EnterRoot(c, g, f.name, f.attrs).Some? ==>
              && EnterRoot(c, h, f.name, f.attrs).Some?
              && SameVisible(EnterRoot(c, g, f.name, f.attrs).value, EnterRoot(c, h, f.name, f.attrs).value)
    ensures NoteDynamic(g, f).Some? ==>
              NoteDynamic(h, f).Some? && SameVisible(NoteDynamic(g, f).value, NoteDynamic(h, f).value)
  {
    hide ParseRoot, DepsOf;
  }

  lemma WritesSame(c: Settings, level: Level, g: Document, h: Document, rooted: bool, tag: string, f: Facts)
    requires SameVisible(g, h)
    ensures NoteRegion(level, g, f).Some? ==>
              && NoteRegion(level, h, f).Some?
              && SameVisible(NoteRegion(level, g, f).value, NoteRegion(level, h, f).value)
    ensures Write(c, level, g, rooted, tag, f).Some? ==>
              && Write(c, level, h, rooted, tag, f).Some?
              && SameVisible(Write(c, level, g, rooted, tag, f).value, Write(c, level, h, rooted, tag, f).value)
  {
    hide OutAttrs, Placed, Place;
  }

  lemma EnterSame(c: Settings, v: Values, level: Level, g: Document, h: Document, tag: string, attrs: seq<Attr>)
    requires Enter(c, v, level, g, tag, attrs).Some? && SameVisible(g, h)
    ensures Enter(c, v, level, h, tag, attrs).Some?
    ensures var ((i, g'), (j, h')) :=
              (Enter(c, v, level, g, tag, attrs).value, Enter(c, v, level, h, tag, attrs).value);
            i == j && SameVisible(g', h')
  {
    hide Look, NotePage, EnterRoot, NoteDynamic, NoteRegion, Write, Open;
    var f := Look(c, v, g.view.Some?, tag, attrs).value;
    NotesSame(c, level, g, h, f);
    var g0, h0 := NotePage(level, g, f), NotePage(level, h, f);
    NotesSame(c, level, g0, h0, f);
    var g1, h1 := EnterRoot(c, g0, f.name, f.attrs).value, EnterRoot(c, h0, f.name, f.attrs).value;
    NotesSame(c, level, g1, h1, f);
    var g2, h2 := NoteDynamic(g1, f).value, NoteDynamic(h1, f).value;
    WritesSame(c, Open(level, g, f), g2, h2, g.view.Some?, tag, f);
    var g3, h3 := NoteRegion(Open(level, g, f), g2, f).value, NoteRegion(Open(level, g, f), h2, f).value;
    WritesSame(c, Open(level, g, f), g3, h3, g.view.Some?, tag, f);
  }

  /** Compiling the tree without the erased pages succeeds as well and shows exactly the same. */
  lemma {:induction false} ErasureInvisible(c: Settings, v: Values, f: Forest, level: Level, g: Document, h: Document)
    requires Walk(c, v, f, level, g).Some? && SameVisible(g, h) && !level.skip && (g.pageID.Some? ==> g.view.Some?)
    ensures var e := ErasePages(c, f, g.pageID.Some?);
            Walk(c, v, e, level, h).Some? && SameVisible(Walk(c, v, f, level, g).value, Walk(c, v, e, level, h).value)
  {
    hide Look, Enter, Replace;
    match f
    case Empty =>
    case Leaf(token, rest) =>
      ErasureInvisible(c, v, rest, level, Plain(c, level, g, token).value, Plain(c, level, h, token).value);
    case Element(tag, attrs, children, rest) =>
      var (inner, g1) := Enter(c, v, level, g, tag, attrs).value;
      var g2 := Walk(c, v, children, inner, g1).value;
      if PageOf(c, attrs) != "" && g.pageID.Some? {
        EnterSkips(c, v, level, g, tag, attrs);
        SkippedWrites(c, v, children, inner, g1);
        ErasureInvisible(c, v, rest, level, g2, h);
      } else {
        EnterWrites(c, v, level, g, tag, attrs);
        EnterSame(c, v, level, g, h, tag, attrs);
        var h1 := Enter(c, v, level, h, tag, attrs).value.1;
        WalkWrites(c, v, children, inner, g1);
        ErasureInvisible(c, v, children, inner, g1, h1);
        var h2 := Walk(c, v, ErasePages(c, children, g1.pageID.Some?), inner, h1).value;
        ErasureInvisible(c, v, rest, level, Leave(inner, g2, tag), Leave(inner, h2, tag));
      }
  }

  function First(pages: seq<string>): seq<string> {
    if pages == [] then [] else [pages[0]]
  }

  /** Exactly the first page, in document order, survives. */
  lemma {:induction false} PagesErased(c: Settings, f: Forest, seen: bool)
    ensures Pages(c, ErasePages(c, f, seen)) == if seen then [] else First(Pages(c, f))
  {
    match f
    case Empty =>
    case Leaf(_, rest) => PagesErased(c, rest, seen);
    case Element(_, attrs, children, rest) =>
      var within := seen || PageOf(c, attrs) != "";
      PagesErased(c, rest, seen);
      PagesErased(c, children, within);
      PagesErased(c, rest, within || Pages(c, children) != []);
  }

  /** A document with at most one page is left as it is. */
  lemma {:induction false} OnePageKept(c: Settings, f: Forest, seen: bool)
    requires |Pages(c, f)| <= if seen then 0 else 1
    ensures ErasePages(c, f, seen) == f
  {
    match f
    case Empty =>
    case Leaf(_, rest) => OnePageKept(c, rest, seen);
    case Element(_, attrs, children, rest) =>
      var within := seen || PageOf(c, attrs) != "";
      OnePageKept(c, children, within);
      OnePageKept(c, rest, within || Pages(c, children) != []);
  }

  lemma ContentWellFormed(c: Settings, v: Values, rooted: bool, tag: string, attrs: seq<Attr>)
    requires Sound(c) && Look(c, v, rooted, tag, attrs).Some? && Look(c, v, rooted, tag, attrs).value.content.Some?
    ensures WellFormed(Look(c, v, rooted, tag, attrs).value.content.value.0)
  {
    hide Inspect, OwnTransform, TagAttrs;
    var facts := Look(c, v, rooted, tag, attrs).value;
    if facts.dynamic.Module? && !c.metadataOnly {
      Fragment.CleanedWellFormed(c.fragment(facts.dynamic.widget).value);
    }
  }

  lemma {:induction false} ReplaceWellFormed(c: Settings, v: Values, f: Forest, rooted: bool, dynamic: bool,
                                             style: bool)
    requires Sound(c) && WellFormed(f)
    ensures WellFormed(Replace(c, v, f, rooted, dynamic, style))
  {
    hide Look, Sound;
    match f
    case Empty =>
    case Leaf(_, rest) => ReplaceWellFormed(c, v, rest, rooted, dynamic, style);
    case Element(tag, attrs, children, rest) =>
      ReplaceWellFormed(c, v, rest, true, dynamic, style);
      match Look(c, v, rooted, tag, attrs) {
        case None =>
        case Some(facts) =>
          var below := Replace(c, v, children, true, !facts.dynamic.Static?, facts.name == "style");
          ReplaceWellFormed(c, v, children, true, !facts.dynamic.Static?, facts.name == "style");
          if facts.content.Some? {
            ContentWellFormed(c, v, rooted, tag, attrs);
            FlattenAppend(facts.content.value.0, below);
          } else {
            FlattenAppend(Empty, below);
          }
      }
  }

  lemma {:induction false} EraseWellFormed(c: Settings, f: Forest, seen: bool)
    requires WellFormed(f)
    ensures WellFormed(ErasePages(c, f, seen))
  {
    match f
    case Empty =>
    case Leaf(_, rest) => EraseWellFormed(c, rest, seen);
    case Element(_, attrs, children, rest) =>
      var within := seen || PageOf(c, attrs) != "";
      EraseWellFormed(c, rest, seen);
      EraseWellFormed(c, children, within);
      EraseWellFormed(c, rest, within || Pages(c, children) != []);
  }

  /**
   For every balanced document the compiler accepts: its output is balanced, and is the document's tree with every page
   but the first erased and each element left replaced by what its own tag and attributes say. The erased pages add
   nothing else either: without them the document compiles to the same output, hit boxes and page.
   */
  lemma WellNestedErasure(c: Settings, v: Values, tokens: seq<Token>)
    requires Sound(c) && Balanced(tokens, []) && Compile(c, v, tokens).Some?
    ensures var g, f := Compile(c, v, tokens).value, TreeOf(tokens);
            var kept := ErasePages(c, f, false);
            var tree := Replace(c, v, kept, false, false, false);
            && Flatten(f) == tokens && g.output == Flatten(tree) && WellFormed(tree) && Balanced(g.output, [])
            && Pages(c, kept) == First(Pages(c, f)) && g.pageID == FirstPage(None, Pages(c, f))
            && Compile(c, v, Flatten(kept)).Some?
            && SameVisible(g, Compile(c, v, Flatten(kept)).value)
  {
    hide Walk, Compile, Replace, Sound;
    var f := TreeOf(tokens);
    var kept := ErasePages(c, f, false);
    CompileWalks(c, v, f);
    WalkWrites(c, v, f, BASE, START);
    EraseWellFormed(c, f, false);
    ReplaceWellFormed(c, v, kept, false, false, false);
    var tree := Replace(c, v, kept, false, false, false);
    FlattenBalanced(tree, [], []);
    assert Flatten(tree) + [] == Flatten(tree) && [] + Flatten(tree) == Flatten(tree);
    PagesErased(c, f, false);
    ErasureInvisible(c, v, f, BASE, START, START);
    CompileWalks(c, v, kept);
  }
}
