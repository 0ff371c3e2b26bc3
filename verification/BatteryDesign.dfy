/** A design that shows the battery level, and three renders of it after which a wrong frame stays queued. */
module BatteryDesign {
  import opened Common
  import opened Svg
  import opened Substitution
  import opened Compiler
  import opened Dependencies
  import Fragment
  import HitBox

  const BATTERY := "device.battery"
  const EXPRESSION := "${device.battery}"

  const ROOT := [Attr("viewBox", "0 0 4 4")]
  const TEXT := [Attr("data-value", EXPRESSION)]

  /** `<svg viewBox="0 0 4 4"><text data-value="${device.battery}"></text></svg>`. */
  const DESIGN: seq<Token> := [Start("svg", ROOT), Start("text", TEXT), End("text"), End("svg")]

  /** Lexing and attribute rules take this design for what it is. */
  predicate Ordinary(c: Settings) {
    && c.rules.lower("svg") == "svg" && c.rules.lower("text") == "text"
    && c.normalize(ROOT) == ROOT && c.normalize(TEXT) == TEXT
    && c.rules.validAttrs(RootAttrs(c, ROOT)) && c.rules.validAttrs(TEXT)
    && var n := c.numbers("0 0 4 4");
       n.Some? && |n.value| == 4 && 0.0 < n.value[2] && 0.0 < n.value[3]
  }

  /** A display of 4 by 4 pixels, and lexing as far as this design needs it; there are no widgets. */
  const SETTINGS := Settings(
    4, 4, false, Fragment.Rules(s => s, _ => true), attrs => attrs, s => s, _ => true, _ => [],
    s => if s == "0 0 4 4" then Some([0.0, 0.0, 4.0, 4.0]) else None, _ => None, _ => "4", _ => None, (_, _) => None,
    _ => false, _ => None, _ => None, _ => true, (_, _, _, _) => None)

  lemma SettingsOrdinary()
    ensures Ordinary(SETTINGS)
  {
    assert SETTINGS.numbers("0 0 4 4") == Some([0.0, 0.0, 4.0, 4.0]);
  }

  /** Everything a render collects, with this battery level. */
  function Collection(level: string): Values {
    map key | key in PROVIDED :: if key == BATTERY then level else "?"
  }

  lemma CollectionClean(level: string)
    requires NUL !in level
    ensures Collected(Collection(level)) && CleanValues(Collection(level))
    ensures BATTERY in Collection(level) && Collection(level)[BATTERY] == level
  {
    assert BATTERY in PROVIDED;
  }

  lemma ExpressionKeys()
    ensures Keys(EXPRESSION) == [BATTERY]
  {
    hide Match;
    WholeExpression();
    FirstReplaced("", BATTERY, "", map[]);
    assert Keys("") == [];
  }

  lemma WholeExpression()
    ensures EXPRESSION == "" + ("${" + BATTERY + "}" + "") && IsKey(BATTERY) && !HasOpening("")
  {
  }

  lemma ExpressionReplaced(v: Values)
    ensures Substitute(EXPRESSION, v).Some? ==> BATTERY in v
    ensures BATTERY in v && !HasOpening(v[BATTERY]) ==> Substitute(EXPRESSION, v) == Some((v[BATTERY], [BATTERY]))
  {
    hide HasOpening, Match, Replaced;
    WholeExpression();
    FirstReplaced("", BATTERY, "", v);
    ExpressionKeys();
    PlainKept("", v);
    if BATTERY in v {
      EmptyTail("" + v[BATTERY]);
      assert "" + v[BATTERY] == v[BATTERY];
    }
  }

  /** What the text shows, None if its expression cannot be replaced. */
  function Displayed(v: Values): Option<string> {
    match Substitute(EXPRESSION, v)
    case None => None
    case Some((shown, _)) => Some(shown)
  }

  // ---------------------------------------------------------------------------------------------
  // Compiling it
  // ---------------------------------------------------------------------------------------------

  function RootView(c: Settings): HitBox.View
    requires Ordinary(c)
  {
    var n := c.numbers("0 0 4 4").value;
    HitBox.View(n[0], n[1], n[2], n[3], c.width, c.height)
  }

  function RootFacts(c: Settings): Facts {
    Facts("svg", ROOT, HitBox.IDENTITY, Static, c.hit("svg", ROOT), Some((Empty, [])))
  }

  function TextFacts(c: Settings, shown: string): Facts {
    Facts("text", TEXT, HitBox.IDENTITY, Replacement(shown), c.hit("text", TEXT), Some((Leaf(Text(shown), Empty), [])))
  }

  /** The level the root opens, and the one its text opens. */
  function Opened(parent: Level): Level {
    Level(HitBox.Mul(parent.matrix, HitBox.IDENTITY), false, false, "svg")
  }

  function Inner(parent: Level): Level {
    Level(HitBox.Mul(parent.matrix, HitBox.IDENTITY), false, true, "text")
  }

  /** The document after the root's start tag. */
  function Rooted(c: Settings): Document
    requires Ordinary(c)
  {
    START.(view := Some(RootView(c)), output := [Start("svg", OutAttrs(c, false, Static, ROOT))])
  }

  /** The document after the text's start tag. */
  function Showing(c: Settings, shown: string): Document
    requires Ordinary(c)
  {
    Rooted(c).(deps := {BATTERY}, output := Rooted(c).output + [Start("text", []), Text(shown)])
  }

  /** The finished document. */
  function Shown(c: Settings, shown: string): Document
    requires Ordinary(c)
  {
    Showing(c, shown).(output := Showing(c, shown).output + [End("text")] + [End("svg")])
  }

  lemma GetOne(a: Attr, name: string)
    ensures Get([a], name) == if a.name == name then a.value else ""
  {
    assert [a][..0] == [];
  }

  lemma NonePlaced(view: HitBox.View, m: HitBox.Matrix, order: nat)
    ensures Placed([], view, m, order) == []
  {
  }

  lemma RootLooks(c: Settings, v: Values)
    requires Ordinary(c)
    ensures Look(c, v, false, "svg", ROOT) == Some(RootFacts(c))
    ensures ParseRoot(c, "svg", ROOT) == Some((RootView(c), 0))
  {
    hide RootAttrs;
  }

  lemma RootPlain()
    ensures Get(ROOT, "data-page") == "" && !Touchable(ROOT) && DepsOf(Static, ROOT) == {}
  {
  }

  lemma RootWritten(c: Settings, level: Level)
    requires Ordinary(c) && !level.skip
    ensures var g := START.(view := Some(RootView(c)));
            && NoteDynamic(g, RootFacts(c)) == Some(g)
            && Write(c, level, g, false, "svg", RootFacts(c)) == Some(Rooted(c))
  {
    hide OutAttrs, Place, Placed, Ordinary, RootView;
    RootPlain();
    var g := START.(view := Some(RootView(c)));
    assert g.deps + {} == g.deps;
    NonePlaced(RootView(c), level.matrix, g.order);
    assert Flatten(Empty) == [];
    assert g.output + [Start("svg", OutAttrs(c, false, Static, ROOT))] + [] == Rooted(c).output;
    assert g.actions + [] == g.actions;
  }

  lemma RootEnters(c: Settings, v: Values, parent: Level)
    requires Ordinary(c) && !parent.skip && !parent.dynamic
    ensures Enter(c, v, parent, START, "svg", ROOT) == Some((Opened(parent), Rooted(c)))
  {
    hide Look, ParseRoot, HitBox.Mul, Get, Touchable, NoteDynamic, Write, Rooted, RootView, Ordinary;
    RootLooks(c, v);
    RootPlain();
    RootWritten(c, Opened(parent));
    assert NotePage(parent, START, RootFacts(c)) == START;
    assert Open(parent, START, RootFacts(c)) == Opened(parent);
    assert EnterRoot(c, START, "svg", ROOT) == Some(START.(view := Some(RootView(c))));
  }

  lemma TextKeys(shown: string)
    ensures DepsOf(Replacement(shown), TEXT) == {BATTERY}
  {
    hide Match, Keys;
    ExpressionKeys();
    assert Get(TEXT, "data-value") == EXPRESSION;
    assert (set key | key in [BATTERY]) == {BATTERY};
  }

  lemma TextStripped(c: Settings, shown: string)
    ensures OutAttrs(c, true, Replacement(shown), TEXT) == []
  {
    hide EXPRESSION;
    assert "data-value"[..5] == "data-" && TEXT[1..] == [];
    assert IsData(TEXT[0].name);
    assert StripData(TEXT) == [];
  }

  lemma TextPlain(c: Settings, shown: string)
    ensures Get(TEXT, "data-page") == "" && !Touchable(TEXT)
    ensures DepsOf(Replacement(shown), TEXT) == {BATTERY}
    ensures OutAttrs(c, true, Replacement(shown), TEXT) == []
  {
    hide OutAttrs, DepsOf;
    GetOne(TEXT[0], "data-page");
    GetOne(TEXT[0], "data-action");
    GetOne(TEXT[0], "data-region");
    assert "data-region"[5] == 'r' && "data-value"[5] == 'v';
    TextKeys(shown);
    TextStripped(c, shown);
  }

  lemma TextLooks(c: Settings, v: Values)
    requires Ordinary(c)
    ensures Look(c, v, true, "text", TEXT)
         == if Displayed(v) == None then None else Some(TextFacts(c, Displayed(v).value))
  {
    hide Substitute, Touchable, RootAttrs;
    assert Get(TEXT, "data-value") == EXPRESSION && Get(TEXT, "data-widget") == "" && Get(TEXT, "transform") == "";
    assert Inspect(c, v, "text", TEXT)
        == if Displayed(v) == None then None else Some(Replacement(Displayed(v).value));
  }

  lemma TextWritten(c: Settings, level: Level, shown: string)
    requires Ordinary(c) && !level.skip
    ensures var g := Rooted(c).(deps := {BATTERY});
            && NoteDynamic(Rooted(c), TextFacts(c, shown)) == Some(g)
            && Write(c, level, g, true, "text", TextFacts(c, shown)) == Some(Showing(c, shown))
  {
    hide OutAttrs, Place, Placed, Rooted, DepsOf, Ordinary, RootView;
    TextPlain(c, shown);
    RootedPlain(c);
    var g := Rooted(c).(deps := {BATTERY});
    assert {} + {BATTERY} == {BATTERY};
    NonePlaced(RootView(c), level.matrix, g.order);
    assert Flatten(Leaf(Text(shown), Empty)) == [Text(shown)];
    assert g.output + [Start("text", [])] + [Text(shown)] == Showing(c, shown).output;
    assert g.actions + [] == g.actions;
  }

  lemma RootedPlain(c: Settings)
    requires Ordinary(c)
    ensures var g := Rooted(c); g.view == Some(RootView(c)) && g.deps == {} && g.order == 0 && g.pageID == None
  {
  }

  lemma ShowingPlain(c: Settings, shown: string)
    requires Ordinary(c)
    ensures Showing(c, shown).view == Some(RootView(c)) && Showing(c, shown).deps == {BATTERY}
  {
    RootedPlain(c);
  }

  lemma TextEnters(c: Settings, v: Values, parent: Level)
    requires Ordinary(c) && !parent.skip && !parent.dynamic
    ensures Enter(c, v, parent, Rooted(c), "text", TEXT)
         == if Displayed(v) == None then None else Some((Inner(parent), Showing(c, Displayed(v).value)))
  {
    hide Look, HitBox.Mul, Get, Touchable, NoteDynamic, Write, Rooted, Showing, Displayed, RootView, Ordinary;
    TextLooks(c, v);
    RootedPlain(c);
    if Displayed(v).Some? {
      var shown := Displayed(v).value;
      TextPlain(c, shown);
      TextWritten(c, Inner(parent), shown);
    }
  }

  lemma ClosingTags(c: Settings, v: Values, base: Level, outer: Level, inner: Level, g: Document)
    requires !outer.skip && !inner.skip
    ensures Fold(c, v, [base, outer, inner], g, [End("text"), End("svg")])
         == Some(([base], g.(output := g.output + [End("text")] + [End("svg")])))
  {
    var tail := [End("text"), End("svg")];
    assert tail[1..] == [End("svg")] && [End("svg")][1..] == [];
    assert [base, outer, inner][..2] == [base, outer] && [base, outer][..1] == [base];
    var g1 := Leave(inner, g, "text");
    var g2 := Leave(outer, g1, "svg");
    assert Fold(c, v, [base], g2, []) == Some(([base], g2));
    assert Fold(c, v, [base, outer], g1, [End("svg")]) == Some(([base], g2));
  }

  lemma DesignFolds(c: Settings, v: Values, base: Level)
    requires Ordinary(c) && !base.skip && !base.dynamic
    ensures Fold(c, v, [base], START, DESIGN)
         == if Displayed(v) == None then None else Some(([base], Shown(c, Displayed(v).value)))
  {
    hide Enter, Rooted, Showing, Displayed, HitBox.Mul, Ordinary;
    var outer, inner := Opened(base), Inner(Opened(base));
    assert [base] + [outer] == [base, outer] && [base, outer] + [inner] == [base, outer, inner];
    RootEnters(c, v, base);
    TextEnters(c, v, outer);
    assert DESIGN[1..] == [Start("text", TEXT), End("text"), End("svg")];
    assert DESIGN[1..][1..] == [End("text"), End("svg")];
    if Displayed(v).Some? {
      var shown := Displayed(v).value;
      ClosingTags(c, v, base, outer, inner, Showing(c, shown));
      assert Fold(c, v, [base, outer], Rooted(c), DESIGN[1..])
          == Fold(c, v, [base, outer, inner], Showing(c, shown), [End("text"), End("svg")]);
    } else {
      assert Fold(c, v, [base, outer], Rooted(c), DESIGN[1..]) == None;
    }
  }

  /** The design shows the battery level it is given, and depends on nothing else. */
  lemma DesignCompiles(c: Settings, v: Values)
    requires Ordinary(c)
    ensures Compile(c, v, DESIGN)
         == if Displayed(v) == None then None else Some(Shown(c, Displayed(v).value))
    ensures Compile(c, v, DESIGN).Some? ==> Compile(c, v, DESIGN).value.deps == {BATTERY}
  {
    hide Fold, Showing, Displayed, RootView, Ordinary;
    DesignFolds(c, v, BASE);
    if Displayed(v).Some? {
      ShowingPlain(c, Displayed(v).value);
    }
  }

  lemma ShownDiffers(c: Settings, a: string, b: string)
    requires Ordinary(c) && a != b
    ensures Shown(c, a) != Shown(c, b)
  {
    hide Rooted, Ordinary;
    assert Shown(c, a).output[|Rooted(c).output| + 1] == Text(a);
    assert Shown(c, b).output[|Rooted(c).output| + 1] == Text(b);
  }

  /** The frames for two battery levels differ, and no key the design can depend on holds a NUL. */
  lemma LevelsDiffer(c: Settings, a: string, b: string)
    requires Ordinary(c) && a != b && NUL !in a && NUL !in b && !HasOpening(a) && !HasOpening(b)
    ensures Compile(c, Collection(a), DESIGN) == Some(Shown(c, a))
    ensures Compile(c, Collection(b), DESIGN) == Some(Shown(c, b))
    ensures Shown(c, a) != Shown(c, b) && CleanKeys(c, DESIGN)
  {
    hide Compile, Shown, Substitute, Collection, PROVIDED, Collected, CleanValues, HasOpening, Ordinary;
    CollectionClean(a);
    CollectionClean(b);
    DesignCompiles(c, Collection(a));
    DesignCompiles(c, Collection(b));
    ExpressionReplaced(Collection(a));
    ExpressionReplaced(Collection(b));
    ShownDiffers(c, a, b);
    forall v | Compile(c, v, DESIGN).Some?
      ensures Compile(c, v, DESIGN).value.deps == {BATTERY}
    {
      DesignCompiles(c, v);
    }
  }

  // ---------------------------------------------------------------------------------------------
  // Three renders
  // ---------------------------------------------------------------------------------------------

  ghost function Listing(keys: set<string>): (list: seq<string>)
    ensures forall k :: k in list <==> k in keys
  {
    if keys == {} then []
    else
      var k :| k in keys;
      [k] + Listing(keys - {k})
  }

  /** The conditions on the hashing can be met. */
  lemma IdealExists()
    ensures exists h :: Ideal(h)
  {
    var h := Hashing(s => "x" + s, keys => Listing(keys));
    forall s, t | h.digest(s) == h.digest(t)
      ensures s == t
    {
      assert ("x" + s)[1..] == s && ("x" + t)[1..] == t;
    }
    assert Ideal(h);
  }

  /**
   The battery falls from 100 to 99 and is charged to 100 again, and the hash of the frame for 99 is not saved: the
   third render is skipped, with the frame for 99 as the newest one queued.
   */
  method StaleBattery(settings: Settings, h: Hashing) returns (design: ActiveDesign, last: Rendering)
    requires Ordinary(settings) && Ideal(h)
    ensures fresh(design) && design.Valid() && last.Skipped? && !design.Current()
    ensures design.queue == [Shown(settings, "100"), Shown(settings, "99")]
    ensures Compile(settings, Collection("100"), DESIGN) == Some(Shown(settings, "100"))
    ensures Shown(settings, "100") != Shown(settings, "99")
  {
    hide Compile, Shown, Collected, CleanKeys, CleanValues, Ideal, Collection, HasOpening, Ordinary;
    NoOpening("100");
    NoOpening("99");
    CollectionClean("100");
    CollectionClean("99");
    assert "100"[0] == '1' && "99"[0] == '9';
    LevelsDiffer(settings, "100", "99");
    design, last := StaleSkip(settings, h, DESIGN, Collection("100"), Collection("99"), Collection("100"), false);
    assert design.queue == [design.queue[0], design.queue[1]];
  }

  lemma NoOpening(s: string)
    requires '$' !in s
    ensures !HasOpening(s)
  {
  }
}
