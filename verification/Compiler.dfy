/** The design compiler: one pass over the tokens of an SVG design, with a stack of open elements. */
module Compiler {
  import opened Common
  import opened Svg
  import opened Substitution
  import Fragment
  import HitBox

  // ---------------------------------------------------------------------------------------------
  // What the compiler is given besides the tokens
  // ---------------------------------------------------------------------------------------------

  datatype Widget = Widget(instance: string, provider: string, x: int, y: int, width: int, height: int,
                           attrs: seq<Attr>)

  datatype Region = Region(box: HitBox.Box, name: string, action: string, region: string, recipient: string,
                           provider: string, instance: string, event: string, order: nat)

  /**
   Fixed parameters of a compilation: the display, the lexing of attribute values, the attribute rules, and the widget
   renderers. `draw` writes the calendar's tokens, given its attributes, today's date, the locale and the month offset.
   */
  datatype Settings = Settings(
    width: int, height: int, metadataOnly: bool,
    rules: Fragment.Rules, normalize: seq<Attr> -> seq<Attr>, css: string -> string, validStyle: string -> bool,
    calls: string -> seq<HitBox.Call>, numbers: string -> Option<seq<real>>, integer: string -> Option<int>,
    decimal: int -> string, minutes: string -> Option<nat>, hit: (string, seq<Attr>) -> Option<HitBox.Box>,
    registered: string -> bool, fragment: Widget -> Option<Forest>,
    date: string -> Option<int>, locale: string -> bool,
    draw: (seq<Attr>, int, string, int) -> Option<(Forest, seq<Region>)>)

  /** The renderers produce element trees: an XML decoder accepts nothing else. */
  ghost predicate Sound(c: Settings) {
    && 0 < c.width && 0 < c.height
    && (forall w :: c.fragment(w).Some? ==> WellFormed(c.fragment(w).value))
    && (forall a, d, l, o :: c.draw(a, d, l, o).Some? ==> WellFormed(c.draw(a, d, l, o).value.0))
  }

  // ---------------------------------------------------------------------------------------------
  // State
  // ---------------------------------------------------------------------------------------------

  /** One open element. */
  datatype Level = Level(matrix: HitBox.Matrix, skip: bool, dynamic: bool, name: string)

  const BASE := Level(HitBox.IDENTITY, false, false, "")

  /** Everything but the stack; a refresh of 0 minutes means none. */
  datatype Document = Document(
    view: Option<HitBox.View>, pageID: Option<string>, order: nat, ids: set<string>, deps: set<string>, refresh: nat,
    widgets: seq<Widget>, actions: seq<Region>, regions: seq<Region>, output: seq<Token>)

  const START := Document(None, None, 0, {}, {}, 0, [], [], [], [])

  // ---------------------------------------------------------------------------------------------
  // One element by itself
  // ---------------------------------------------------------------------------------------------

  datatype Dynamic = Static | Replacement(text: string) | Calendar(widget: Widget) | Module(widget: Widget)

  function Value(v: Values, key: string): string {
    if key in v then v[key] else ""
  }

  function OffsetKey(attrs: seq<Attr>): string {
    "widget." + Get(attrs, "id") + ".month_offset"
  }

  predicate Navigable(attrs: seq<Attr>) {
    Get(attrs, "data-navigation") == "true"
  }

  predicate OneOf(value: string, first: string, second: string) {
    value == "" || value == first || value == second
  }

  /** The month offset: only a navigable calendar looks its own up, and a missing one is 0. */
  function MonthOffset(c: Settings, v: Values, attrs: seq<Attr>): Option<int> {
    if !Navigable(attrs) then Some(0)
    else
      var stored := Value(v, OffsetKey(attrs));
      if stored == "" then Some(0)
      else
        match c.integer(stored)
        case None => None
        case Some(n) => if -12 <= n <= 12 then Some(n) else None
  }

  /** `emitCalendar`: what it looks up in the values it is handed, the checks in their order, and the drawing. */
  function EmitCalendar(c: Settings, v: Values, attrs: seq<Attr>): Option<(Forest, seq<Region>)> {
    match c.date(Value(v, "system.date"))
    case None => None
    case Some(today) =>
      if !c.locale(Value(v, "system.locale")) then None
      else if !OneOf(Get(attrs, "data-week-start"), "monday", "sunday")
        || !OneOf(Get(attrs, "data-spillover"), "true", "false")
              || !OneOf(Get(attrs, "data-navigation"), "true", "false") then None
      else
        match MonthOffset(c, v, attrs)
        case None => None
        case Some(offset) => c.draw(attrs, today, Value(v, "system.locale"), offset)
  }

  function ParseWidget(c: Settings, attrs: seq<Attr>): Option<Widget> {
    var provider, id := Get(attrs, "data-widget"), Get(attrs, "id");
    if provider != "calendar" && provider != "departures" && !c.registered(provider) then None
    else if provider != "calendar" && id == "" then None
    else
      match (c.integer(Get(attrs, "data-x")), c.integer(Get(attrs, "data-y")), c.integer(Get(attrs, "data-width")),
             c.integer(Get(attrs, "data-height")))
      case (Some(x), Some(y), Some(w), Some(h)) =>
        if w <= 0 || h <= 0 || (provider == "calendar" && Navigable(attrs) && id == "") then None
        else Some(Widget(id, provider, x, y, w, h, attrs))
      case _ => None
  }

  /** What makes an element dynamic, or None for an error. */
  function Inspect(c: Settings, v: Values, name: string, attrs: seq<Attr>): Option<Dynamic> {
    var value, provider := Get(attrs, "data-value"), Get(attrs, "data-widget");
    if (value != "" && name != "text") || (provider != "" && name != "g") then None
    else if value != "" then
      match Substitute(value, v)
      case None => None
      case Some((text, _)) => Some(Replacement(text))
    else if provider != "" then
      match ParseWidget(c, attrs)
      case None => None
      case Some(w) => Some(if provider == "calendar" then Calendar(w) else Module(w))
    else Some(Static)
  }

  /** The keys recorded for the element. */
  function DepsOf(d: Dynamic, attrs: seq<Attr>): set<string> {
    match d
    case Static => {}
    case Replacement(_) => set key | key in Keys(Get(attrs, "data-value"))
    case Calendar(_) => {"system.date", "system.locale"} + if Navigable(attrs) then {OffsetKey(attrs)} else {}
    case Module(_) => {"system.time"}
  }

  /** The element's own transform, None for an invalid one; no attribute means no transform. */
  function OwnTransform(c: Settings, attrs: seq<Attr>): Option<HitBox.Matrix> {
    var calls := c.calls(Get(attrs, "transform"));
    if Get(attrs, "transform") == "" then Some(HitBox.IDENTITY)
    else if HitBox.Supported(calls) then Some(HitBox.Product(calls)) else None
  }

  /** The root's view box and refresh interval. */
  function ParseRoot(c: Settings, name: string, attrs: seq<Attr>): Option<(HitBox.View, nat)> {
    match c.numbers(Get(attrs, "viewBox"))
    case None => None
    case Some(n) =>
      if name != "svg" || |n| != 4 || n[2] <= 0.0 || n[3] <= 0.0 then None
      else
        var view := HitBox.View(n[0], n[1], n[2], n[3], c.width, c.height);
        if Get(attrs, "data-refresh") == "" then Some((view, 0))
        else
          match c.minutes(Get(attrs, "data-refresh"))
          case None => None
          case Some(m) => Some((view, m))
  }

  /** The attributes written for the root: the display size and a default font. */
  function RootAttrs(c: Settings, attrs: seq<Attr>): seq<Attr> {
    var sized := SetAttr(SetAttr(attrs, "width", c.decimal(c.width)), "height", c.decimal(c.height));
    if Get(attrs, "font-family") == "" then SetAttr(sized, "font-family", "Noto Sans") else sized
  }

  function TagAttrs(c: Settings, rooted: bool, attrs: seq<Attr>): seq<Attr> {
    if rooted then attrs else RootAttrs(c, attrs)
  }

  function OutAttrs(c: Settings, rooted: bool, d: Dynamic, attrs: seq<Attr>): seq<Attr> {
    if d.Module? && !c.metadataOnly then
      [Attr("id", Get(attrs, "id")),
       Attr("transform", "translate(" + Get(attrs, "data-x") + " " + Get(attrs, "data-y") + ")")]
    else StripData(TagAttrs(c, rooted, attrs))
  }

  function Viewport(attrs: seq<Attr>): seq<Attr> {
    [Attr("width", Get(attrs, "data-width")), Attr("height", Get(attrs, "data-height")),
     Attr("viewBox", "0 0 " + Get(attrs, "data-width") + " " + Get(attrs, "data-height")), Attr("overflow", "hidden")]
  }

  /** What is written in front of the element's own content, and the calendar's hit boxes. */
  function Content(c: Settings, v: Values, d: Dynamic, attrs: seq<Attr>): Option<(Forest, seq<Region>)> {
    match d
    case Static => Some((Empty, []))
    case Replacement(text) => Some((Leaf(Text(text), Empty), []))
    case Calendar(_) => EmitCalendar(c, v, attrs)
    case Module(w) =>
      if c.metadataOnly then Some((Empty, []))
      else
        match c.fragment(w)
        case None => None
        case Some(f) =>
          match Fragment.Spliced(c.rules, f)
          case None => None
          case Some(g) => Some((Element("svg", Viewport(attrs), g, Empty), []))
  }

  /** All an element needs that depends on neither the stack nor the document so far. */
  datatype Facts = Facts(name: string, attrs: seq<Attr>, own: HitBox.Matrix, dynamic: Dynamic,
                         hit: Option<HitBox.Box>, content: Option<(Forest, seq<Region>)>)

  function Look(c: Settings, v: Values, rooted: bool, tag: string, raw: seq<Attr>): Option<Facts> {
    var name, attrs := c.rules.lower(tag), c.normalize(raw);
    if Fragment.Forbidden(name) || !c.rules.validAttrs(TagAttrs(c, rooted, attrs)) then None
    else
      match (OwnTransform(c, attrs), Inspect(c, v, name, attrs))
      case (Some(own), Some(d)) => Some(Facts(name, attrs, own, d, c.hit(name, attrs), Content(c, v, d, attrs)))
      case _ => None
  }

  predicate Touchable(attrs: seq<Attr>) {
    Get(attrs, "data-action") != "" || Get(attrs, "data-region") != ""
  }

  // ---------------------------------------------------------------------------------------------
  // Steps
  // ---------------------------------------------------------------------------------------------

  function Place(v: HitBox.View, m: HitBox.Matrix, box: HitBox.Box): HitBox.Box {
    if HitBox.Positive(v) then HitBox.Rounded(HitBox.ExtentOf(box, m), v) else box
  }

  /** Entering the root notes its view box and refresh. */
  function EnterRoot(c: Settings, g: Document, name: string, attrs: seq<Attr>): Option<Document> {
    if g.view.Some? then Some(g)
    else
      match ParseRoot(c, name, attrs)
      case None => None
      case Some((view, minutes)) => Some(g.(view := Some(view), refresh := minutes))
  }

  /** The level an element opens, and whether its page is the document's first. */
  function Open(parent: Level, g: Document, f: Facts): Level {
    var page := Get(f.attrs, "data-page");
    Level(HitBox.Mul(parent.matrix, f.own), parent.skip || (page != "" && g.pageID.Some?), !f.dynamic.Static?, f.name)
  }

  function NotePage(parent: Level, g: Document, f: Facts): Document {
    var page := Get(f.attrs, "data-page");
    if page != "" && !parent.skip && g.pageID == None then g.(pageID := Some(page)) else g
  }

  /** Dependencies, widget ids and refresh are noted even in erased pages. */
  function NoteDynamic(g: Document, f: Facts): Option<Document> {
    var g1 := g.(deps := g.deps + DepsOf(f.dynamic, f.attrs));
    match f.dynamic
    case Static => Some(g1)
    case Replacement(_) => Some(g1)
    case Calendar(w) =>
      if w.instance != "" && w.instance in g.ids then None
      else
        var g2 := g1.(ids := g.ids + (if w.instance != "" then {w.instance} else {}), widgets := g.widgets + [w]);
        Some(if Navigable(f.attrs) && (g.refresh == 0 || g.refresh > 1) then g2.(refresh := 1) else g2)
    case Module(w) =>
      if w.instance in g.ids then None else Some(g1.(ids := g.ids + {w.instance}, widgets := g.widgets + [w]))
  }

  function NoteRegion(level: Level, g: Document, f: Facts): Option<Document> {
    if level.skip || !Touchable(f.attrs) then Some(g)
    else if f.hit == None || g.view == None then None
    else
      var r := Region(Place(g.view.value, level.matrix, f.hit.value), Get(f.attrs, "id"), Get(f.attrs, "data-action"),
                      Get(f.attrs, "data-region"), "webhook", "", "", "", g.order);
      Some(g.(order := g.order + 1,
              actions := if r.action != "" then g.actions + [r] else g.actions,
              regions := if r.region != "" then g.regions + [r] else g.regions))
  }

  function Placed(rs: seq<Region>, view: HitBox.View, m: HitBox.Matrix, order: nat): seq<Region> {
    if rs == [] then []
    else
      var front, last := rs[..|rs| - 1], rs[|rs| - 1];
      Placed(front, view, m, order) + [last.(box := Place(view, m, last.box), order := order + |rs| - 1)]
  }

  function Write(c: Settings, level: Level, g: Document, rooted: bool, tag: string, f: Facts): Option<Document> {
    if level.skip then Some(g)
    else if f.content == None || g.view == None then None
    else
      var (forest, rs) := f.content.value;
      Some(g.(output := g.output + [Start(tag, OutAttrs(c, rooted, f.dynamic, f.attrs))] + Flatten(forest),
              actions := g.actions + Placed(rs, g.view.value, level.matrix, g.order), order := g.order + |rs|))
  }

  /** The start tag of an element. */
  function Enter(c: Settings, v: Values, parent: Level, g: Document, tag: string,
                 raw: seq<Attr>): Option<(Level, Document)> {
    match Look(c, v, g.view.Some?, tag, raw)
    case None => None
    case Some(f) =>
      if parent.dynamic then None
      else
        var level := Open(parent, g, f);
        match EnterRoot(c, NotePage(parent, g, f), f.name, f.attrs)
        case None => None
        case Some(g1) =>
          match NoteDynamic(g1, f)
          case None => None
          case Some(g2) =>
            match NoteRegion(level, g2, f)
            case None => None
            case Some(g3) =>
              match Write(c, level, g3, g.view.Some?, tag, f)
              case None => None
              case Some(g4) => Some((level, g4))
  }

  function Leave(level: Level, g: Document, name: string): Document {
    if level.skip then g else g.(output := g.output + [End(name)])
  }

  /** A token that opens or closes nothing. */
  function Plain(c: Settings, level: Level, g: Document, token: Token): Option<Document>
    requires !token.Start? && !token.End?
  {
    match token
    case Directive(_) => None
    case Text(data) =>
      if level.name == "style" && !c.validStyle(data) then None
      else if level.skip || level.dynamic then Some(g)
      else Some(g.(output := g.output + [Text(if level.name == "style" then c.css(data) else data)]))
    case _ => Some(if level.skip then g else g.(output := g.output + [token]))
  }

  /** The token loop from some stack and document on; an unmatched end tag is the XML decoder's error. */
  function Fold(c: Settings, v: Values, stack: seq<Level>, g: Document,
                tokens: seq<Token>): Option<(seq<Level>, Document)>
    requires stack != []
    decreases |tokens|
  {
    if tokens == [] then Some((stack, g))
    else
      var top := stack[|stack| - 1];
      match tokens[0]
      case Start(tag, attrs) =>
        (match Enter(c, v, top, g, tag, attrs)
         case None => None
         case Some((level, g')) => Fold(c, v, stack + [level], g', tokens[1..]))
      case End(name) =>
        if |stack| == 1 then None else Fold(c, v, stack[..|stack| - 1], Leave(top, g, name), tokens[1..])
      case _ =>
        match Plain(c, top, g, tokens[0])
        case None => None
        case Some(g') => Fold(c, v, stack, g', tokens[1..])
  }

  /** What `compileXMLWithOptions` returns. */
  function Compile(c: Settings, v: Values, tokens: seq<Token>): Option<Document> {
    match Fold(c, v, [BASE], START, tokens)
    case None => None
    case Some((_, g)) => if g.view == None then None else Some(g)
  }

  method CompileXML(c: Settings, v: Values, tokens: seq<Token>) returns (out: Option<Document>)
    ensures out == Compile(c, v, tokens)
  {
    hide Enter, Plain;
    var stack, g, i := [BASE], START, 0;
    while i < |tokens|
      invariant 0 <= i <= |tokens| && stack != []
      invariant Fold(c, v, [BASE], START, tokens) == Fold(c, v, stack, g, tokens[i..])
    {
      var parent := stack[|stack| - 1];
      assert tokens[i..][1..] == tokens[i + 1..];
      match tokens[i] {
        case Start(tag, attrs) =>
          var entered := Enter(c, v, parent, g, tag, attrs);
          if entered == None {
            return None;
          }
          stack := stack + [entered.value.0];
          g := entered.value.1;
        case End(name) =>
          if |stack| == 1 {
            return None;
          }
          if !parent.skip {
            g := g.(output := g.output + [End(name)]);
          }
          stack := stack[..|stack| - 1];
        case _ =>
          var written := Plain(c, parent, g, tokens[i]);
          if written == None {
            return None;
          }
          g := written.value;
      }
      i := i + 1;
    }
    if g.view == None {
      return None;
    }
    out := Some(g);
  }
}
