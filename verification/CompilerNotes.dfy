/**
 What a compiled design records besides its tokens: dependencies, widgets, refresh interval and the order of its hit
 boxes.
 */
module CompilerNotes {
  import opened Common
  import opened Svg
  import opened Substitution
  import opened Compiler
  import opened CompilerTree
  import HitBox

  // ---------------------------------------------------------------------------------------------
  // Order numbers and widget ids
  // ---------------------------------------------------------------------------------------------

  /** Hit boxes are numbered in document order, so the one drawn last has the largest number. */
  ghost predicate Numbered(rs: seq<Region>, order: nat) {
    && (forall i | 0 <= i < |rs| :: rs[i].order < order)
    && (forall i, j | 0 <= i < j < |rs| :: rs[i].order < rs[j].order)
  }

  /** No two widgets share an id, and the ids noted are those of the widgets. */
  ghost predicate DistinctWidgets(ws: seq<Widget>, ids: set<string>) {
    && (forall i, j | 0 <= i < j < |ws| && ws[i].instance != "" :: ws[i].instance != ws[j].instance)
    && (forall i | 0 <= i < |ws| && ws[i].instance != "" :: ws[i].instance in ids)
  }

  ghost predicate Tidy(g: Document) {
    Numbered(g.actions, g.order) && Numbered(g.regions, g.order) && DistinctWidgets(g.widgets, g.ids)
  }

  lemma {:induction false} PlacedNumbers(rs: seq<Region>, view: HitBox.View, m: HitBox.Matrix, order: nat)
    ensures var p := Placed(rs, view, m, order); |p| == |rs| && forall i | 0 <= i < |p| :: p[i].order == order + i
  {
    hide Place;
    if rs != [] {
      PlacedNumbers(rs[..|rs| - 1], view, m, order);
    }
  }

  lemma RegionTidy(level: Level, g: Document, f: Facts)
    requires Tidy(g) && NoteRegion(level, g, f).Some?
    ensures Tidy(NoteRegion(level, g, f).value) && NoteRegion(level, g, f).value.deps == g.deps
            && NoteRegion(level, g, f).value.refresh == g.refresh
  {
    hide Place;
  }

  lemma DynamicTidy(g: Document, f: Facts)
    requires Tidy(g) && NoteDynamic(g, f).Some?
    ensures Tidy(NoteDynamic(g, f).value)
    ensures NoteDynamic(g, f).value.deps == g.deps + DepsOf(f.dynamic, f.attrs)
    ensures NoteDynamic(g, f).value.refresh == RefreshAfter(g.refresh, f)
  {
    hide DepsOf, Navigable;
  }

  lemma WriteTidy(c: Settings, level: Level, g: Document, rooted: bool, tag: string, f: Facts)
    requires Tidy(g) && Write(c, level, g, rooted, tag, f).Some?
    ensures Tidy(Write(c, level, g, rooted, tag, f).value)
    ensures Write(c, level, g, rooted, tag, f).value.deps == g.deps
            && Write(c, level, g, rooted, tag, f).value.refresh == g.refresh
  {
    hide OutAttrs, Placed;
    if !level.skip {
      PlacedNumbers(f.content.value.1, g.view.value, level.matrix, g.order);
    }
  }

  /** A navigable calendar caps the interval at one minute. */
  function RefreshAfter(refresh: nat, f: Facts): nat {
    if f.dynamic.Calendar? && Navigable(f.attrs) && (refresh == 0 || refresh > 1) then 1 else refresh
  }

  function RootRefresh(c: Settings, g: Document, f: Facts): nat {
    if g.view.Some? then g.refresh
    else match ParseRoot(c, f.name, f.attrs) case None => 0 case Some((_, m)) => m
  }

  lemma EnterTidy(c: Settings, v: Values, level: Level, g: Document, tag: string, raw: seq<Attr>)
    requires Tidy(g) && Enter(c, v, level, g, tag, raw).Some?
    ensures Look(c, v, g.view.Some?, tag, raw).Some?
    ensures var (f, g') := (Look(c, v, g.view.Some?, tag, raw).value, Enter(c, v, level, g, tag, raw).value.1);
            && Tidy(g') && g'.view.Some? && g'.deps == g.deps + DepsOf(f.dynamic, f.attrs)
            && g'.refresh == RefreshAfter(RootRefresh(c, g, f), f)
  {
    hide Look, NoteDynamic, NoteRegion, Write, Open, DepsOf, ParseRoot, RefreshAfter;
    var f := Look(c, v, g.view.Some?, tag, raw).value;
    var g0 := NotePage(level, g, f);
    var g1 := EnterRoot(c, g0, f.name, f.attrs).value;
    DynamicTidy(g1, f);
    var g2 := NoteDynamic(g1, f).value;
    RegionTidy(Open(level, g, f), g2, f);
    var g3 := NoteRegion(Open(level, g, f), g2, f).value;
    WriteTidy(c, Open(level, g, f), g3, g.view.Some?, tag, f);
    ViewKept(c, Open(level, g, f), g1, f, g.view.Some?, tag);
  }

  lemma ViewKept(c: Settings, level: Level, g1: Document, f: Facts, rooted: bool, tag: string)
    requires g1.view.Some?
    ensures NoteDynamic(g1, f).Some? ==> NoteDynamic(g1, f).value.view == g1.view
    ensures forall g: Document | g.view.Some? && NoteRegion(level, g, f).Some? ::
              NoteRegion(level, g, f).value.view == g.view
    ensures forall g: Document | g.view.Some? && Write(c, level, g, rooted, tag, f).Some? ::
              Write(c, level, g, rooted, tag, f).value.view == g.view
  {
    hide DepsOf, Place, OutAttrs, Placed;
  }

  // ---------------------------------------------------------------------------------------------
  // Exactly the keys of all elements
  // ---------------------------------------------------------------------------------------------

  /** The keys of every element, erased pages included. */
  function AllDeps(c: Settings, v: Values, f: Forest, rooted: bool): set<string> {
    match f
    case Empty => {}
    case Leaf(_, rest) => AllDeps(c, v, rest, rooted)
    case Element(tag, attrs, children, rest) =>
      (match Look(c, v, rooted, tag, attrs) case None => {} case Some(facts) => DepsOf(facts.dynamic, facts.attrs))
      + AllDeps(c, v, children, true) + AllDeps(c, v, rest, true)
  }

  /** Some element is a navigable calendar. */
  predicate HasNavigation(c: Settings, v: Values, f: Forest, rooted: bool) {
    match f
    case Empty => false
    case Leaf(_, rest) => HasNavigation(c, v, rest, rooted)
    case Element(tag, attrs, children, rest) =>
      || (match Look(c, v, rooted, tag, attrs) case None => false
         case Some(facts) => facts.dynamic.Calendar? && Navigable(facts.attrs))
      || HasNavigation(c, v, children, true) || HasNavigation(c, v, rest, true)
  }

  function Capped(refresh: nat, navigable: bool): nat {
    if navigable && (refresh == 0 || refresh > 1) then 1 else refresh
  }

  lemma {:induction false} WalkNotes(c: Settings, v: Values, f: Forest, level: Level, g: Document)
    requires Tidy(g) && Walk(c, v, f, level, g).Some?
    ensures var g' := Walk(c, v, f, level, g).value;
            && Tidy(g') && g'.deps == g.deps + AllDeps(c, v, f, g.view.Some?) && (g.view.Some? ==> g'.view.Some?)
            && (g.view.Some? ==> g'.refresh == Capped(g.refresh, HasNavigation(c, v, f, true)))
    decreases f
  {
    hide Look, Enter, DepsOf, Tidy, Navigable;
    match f
    case Empty =>
    case Leaf(token, rest) =>
      PlainTidy(c, level, g, token);
      WalkNotes(c, v, rest, level, Plain(c, level, g, token).value);
    case Element(tag, attrs, children, rest) =>
      EnterTidy(c, v, level, g, tag, attrs);
      var (inner, g1) := Enter(c, v, level, g, tag, attrs).value;
      WalkNotes(c, v, children, inner, g1);
      var g2 := Walk(c, v, children, inner, g1).value;
      LeaveTidy(inner, g2, tag);
      WalkNotes(c, v, rest, level, Leave(inner, g2, tag));
  }

  lemma PlainTidy(c: Settings, level: Level, g: Document, token: Token)
    requires !token.Start? && !token.End? && Tidy(g) && Plain(c, level, g, token).Some?
    ensures var g' := Plain(c, level, g, token).value;
            Tidy(g') && g'.deps == g.deps && g'.view == g.view && g'.refresh == g.refresh
  {
  }

  lemma LeaveTidy(level: Level, g: Document, name: string)
    requires Tidy(g)
    ensures var g' := Leave(level, g, name);
            Tidy(g') && g'.deps == g.deps && g'.view == g.view && g'.refresh == g.refresh
  {
  }

  /**
   For every balanced document the compiler accepts: it records exactly the keys its elements name, no two widgets
   share an id, and hit boxes carry strictly increasing order numbers, so that the topmost one is well defined.
   */
  lemma CompiledNotes(c: Settings, v: Values, tokens: seq<Token>)
    requires Balanced(tokens, []) && Compile(c, v, tokens).Some?
    ensures var g := Compile(c, v, tokens).value;
            && g.deps == AllDeps(c, v, TreeOf(tokens), false)
            && (forall i, j | 0 <= i < j < |g.widgets| && g.widgets[i].instance != "" ::
                g.widgets[i].instance != g.widgets[j].instance)
            && (forall i, j | 0 <= i < j < |g.actions| :: g.actions[i].order < g.actions[j].order)
            && (forall i, j | 0 <= i < j < |g.regions| :: g.regions[i].order < g.regions[j].order)
  {
    hide Walk, Compile, AllDeps;
    CompileWalks(c, v, TreeOf(tokens));
    WalkNotes(c, v, TreeOf(tokens), BASE, START);
  }

  // ---------------------------------------------------------------------------------------------
  // The same keys, read off the attributes
  // ---------------------------------------------------------------------------------------------

  /** The attributes of all elements, erased pages included. */
  function Attributes(c: Settings, f: Forest): seq<seq<Attr>> {
    match f
    case Empty => []
    case Leaf(_, rest) => Attributes(c, rest)
    case Element(_, attrs, children, rest) => [c.normalize(attrs)] + Attributes(c, children) + Attributes(c, rest)
  }

  /**
   An element names the keys of its text, the date and the locale for a calendar, the month offset of its id for one
   that can be paged, and the time for any other widget.
   */
  predicate Names(attrs: seq<Attr>, key: string) {
    var widget := Get(attrs, "data-widget");
    || key in Keys(Get(attrs, "data-value"))
    || (widget == "calendar" && (key == "system.date" || key == "system.locale"))
    || (widget == "calendar" && Get(attrs, "data-navigation") == "true"
        && key == "widget." + Get(attrs, "id") + ".month_offset")
    || (widget != "" && widget != "calendar" && key == "system.time")
  }

  lemma LookNames(c: Settings, v: Values, rooted: bool, tag: string, attrs: seq<Attr>, key: string)
    requires Look(c, v, rooted, tag, attrs).Some?
    ensures var f := Look(c, v, rooted, tag, attrs).value;
            key in DepsOf(f.dynamic, f.attrs) <==> Names(c.normalize(attrs), key)
  {
    hide Content, OwnTransform, TagAttrs, Substitute, Keys, Get;
    var name, raw := c.rules.lower(tag), c.normalize(attrs);
    assert "text" != "g" by {
      assert |"text"| != |"g"|;
    }
    NoKeys();
    WidgetKept(c, raw);
  }

  lemma NoKeys()
    ensures Keys("") == []
  {
  }

  lemma WidgetKept(c: Settings, attrs: seq<Attr>)
    ensures ParseWidget(c, attrs).Some? ==> ParseWidget(c, attrs).value.provider == Get(attrs, "data-widget")
  {
    hide Get, Navigable;
  }

  lemma {:induction false} AllDepsNamed(c: Settings, v: Values, f: Forest, level: Level, g: Document, key: string)
    requires Tidy(g) && Walk(c, v, f, level, g).Some?
    ensures key in AllDeps(c, v, f, g.view.Some?) <==> exists attrs | attrs in Attributes(c, f) :: Names(attrs, key)
    decreases f
  {
    hide Look, Enter, DepsOf, Tidy, Names;
    match f
    case Empty =>
    case Leaf(token, rest) =>
      PlainTidy(c, level, g, token);
      AllDepsNamed(c, v, rest, level, Plain(c, level, g, token).value, key);
    case Element(tag, attrs, children, rest) =>
      EnterTidy(c, v, level, g, tag, attrs);
      LookNames(c, v, g.view.Some?, tag, attrs, key);
      LookFields(c, v, g.view.Some?, tag, attrs);
      var (inner, g1) := Enter(c, v, level, g, tag, attrs).value;
      AllDepsNamed(c, v, children, inner, g1, key);
      WalkNotes(c, v, children, inner, g1);
      var g2 := Walk(c, v, children, inner, g1).value;
      LeaveTidy(inner, g2, tag);
      AllDepsNamed(c, v, rest, level, Leave(inner, g2, tag), key);
      var all := Attributes(c, f);
      assert all == [c.normalize(attrs)] + Attributes(c, children) + Attributes(c, rest);
      assert forall a :: a in all <==>
                           a == c.normalize(attrs) || a in Attributes(c, children) || a in Attributes(c, rest);
  }

  /**
   For every balanced document the compiler accepts, a key is recorded exactly if the attributes of an element name it.
   */
  lemma DepsExactly(c: Settings, v: Values, tokens: seq<Token>, key: string)
    requires Balanced(tokens, []) && Compile(c, v, tokens).Some?
    ensures key in Compile(c, v, tokens).value.deps <==>
              exists attrs | attrs in Attributes(c, TreeOf(tokens)) :: Names(attrs, key)
  {
    hide Walk, Compile, AllDeps, Names, Attributes;
    CompileWalks(c, v, TreeOf(tokens));
    CompiledNotes(c, v, tokens);
    AllDepsNamed(c, v, TreeOf(tokens), BASE, START, key);
  }

  /** The first element, with its children and what follows it. */
  function FirstElement(f: Forest): Forest {
    match f
    case Leaf(_, rest) => FirstElement(rest)
    case _ => f
  }

  lemma {:induction false} WalkRefresh(c: Settings, v: Values, f: Forest, level: Level, g: Document)
    requires Tidy(g) && g.view == None && Walk(c, v, f, level, g).Some? && Walk(c, v, f, level, g).value.view.Some?
    ensures var e := FirstElement(f);
            && e.Element?
            && var root := ParseRoot(c, c.rules.lower(e.name), c.normalize(e.attrs));
               root.Some? && Walk(c, v, f, level, g).value.refresh
                   == Capped(root.value.1, HasNavigation(c, v, e.children, true) || HasNavigation(c, v, e.rest, true))
    decreases f
  {
    hide Look, Enter, DepsOf, Navigable, Tidy;
    match f
    case Empty =>
    case Leaf(token, rest) =>
      PlainTidy(c, level, g, token);
      WalkRefresh(c, v, rest, level, Plain(c, level, g, token).value);
    case Element(tag, attrs, children, rest) =>
      EnterTidy(c, v, level, g, tag, attrs);
      RootIsSvg(c, v, level, g, tag, attrs);
      var (inner, g1) := Enter(c, v, level, g, tag, attrs).value;
      WalkNotes(c, v, children, inner, g1);
      var g2 := Walk(c, v, children, inner, g1).value;
      LeaveTidy(inner, g2, tag);
      WalkNotes(c, v, rest, level, Leave(inner, g2, tag));
  }

  /**
   For every balanced document the compiler accepts, the refresh interval is the root's, but at most a minute with a
   navigable calendar anywhere inside, erased pages included.
   */
  lemma CompiledRefresh(c: Settings, v: Values, tokens: seq<Token>)
    requires Balanced(tokens, []) && Compile(c, v, tokens).Some?
    ensures var g, e := Compile(c, v, tokens).value, FirstElement(TreeOf(tokens));
            && e.Element?
            && var root := ParseRoot(c, c.rules.lower(e.name), c.normalize(e.attrs));
               && root.Some?
               && g.refresh ==
                    Capped(root.value.1, HasNavigation(c, v, e.children, true) || HasNavigation(c, v, e.rest, true))
  {
    hide Walk, Compile, FirstElement, Look;
    CompileWalks(c, v, TreeOf(tokens));
    StartTidy();
    WalkRefresh(c, v, TreeOf(tokens), BASE, START);
  }

  lemma StartTidy()
    ensures Tidy(START)
  {
  }

  /** The root is an svg element, so it is no widget. */
  lemma RootIsSvg(c: Settings, v: Values, level: Level, g: Document, tag: string, attrs: seq<Attr>)
    requires g.view == None && Enter(c, v, level, g, tag, attrs).Some?
    ensures Look(c, v, false, tag, attrs).Some? && ParseRoot(c, c.rules.lower(tag), c.normalize(attrs)).Some?
    ensures var f := Look(c, v, false, tag, attrs).value;
            f.name == c.rules.lower(tag) && f.attrs == c.normalize(attrs) && !f.dynamic.Calendar?
  {
    hide NoteDynamic, NoteRegion, Write, Look, Open, ParseRoot;
    var f := Look(c, v, false, tag, attrs).value;
    LookFields(c, v, false, tag, attrs);
    RootName(c, f.name, f.attrs);
  }

  lemma LookFields(c: Settings, v: Values, rooted: bool, tag: string, attrs: seq<Attr>)
    requires Look(c, v, rooted, tag, attrs).Some?
    ensures var f := Look(c, v, rooted, tag, attrs).value;
            && f.name == c.rules.lower(tag) && f.attrs == c.normalize(attrs)
            && (f.name == "svg" ==> !f.dynamic.Calendar?)
  {
    hide Content, OwnTransform, TagAttrs, Inspect;
    var name, raw := c.rules.lower(tag), c.normalize(attrs);
    if name == "svg" {
      SvgStatic(c, v, name, raw);
    }
  }

  lemma SvgStatic(c: Settings, v: Values, name: string, attrs: seq<Attr>)
    requires name == "svg" && Inspect(c, v, name, attrs).Some?
    ensures Inspect(c, v, name, attrs).value.Static?
  {
    hide Substitute, ParseWidget, Get;
    assert |name| == 3;
  }

  lemma RootName(c: Settings, name: string, attrs: seq<Attr>)
    ensures ParseRoot(c, name, attrs).Some? ==> name == "svg"
  {
  }
}
