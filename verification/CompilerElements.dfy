/** One element of a design by its own attributes: when the compiler accepts it, what it writes, and what it notes. */
module CompilerElements {
  import opened Common
  import opened Svg
  import opened Substitution
  import opened Compiler
  import Fragment
  import HitBox

  // ---------------------------------------------------------------------------------------------
  // Attributes
  // ---------------------------------------------------------------------------------------------

  /** Of the attributes exactly those without the prefix are kept, in their order. */
  lemma {:induction false} StripSplits(front: seq<Attr>, a: Attr, behind: seq<Attr>)
    ensures StripData(front + [a] + behind)
         == StripData(front) + (if "data-" <= a.name then [] else [a]) + StripData(behind)
  {
    var all := front + [a] + behind;
    if front == [] {
      assert all[0] == a && all[1..] == behind;
      assert IsData(a.name) <==> "data-" <= a.name;
    } else {
      StripSplits(front[1..], a, behind);
      assert all[0] == front[0] && all[1..] == front[1..] + [a] + behind;
    }
  }

  /** No attribute is given twice. */
  ghost predicate Distinct(attrs: seq<Attr>) {
    forall i, j | 0 <= i < j < |attrs| :: attrs[i].name != attrs[j].name
  }

  lemma {:induction false} GetAbsent(attrs: seq<Attr>, name: string)
    requires forall a | a in attrs :: a.name != name
    ensures Get(attrs, name) == ""
  {
    if attrs != [] {
      GetAbsent(attrs[..|attrs| - 1], name);
    }
  }

  lemma {:induction false} GetMember(attrs: seq<Attr>, i: nat)
    requires Distinct(attrs) && i < |attrs|
    ensures Get(attrs, attrs[i].name) == attrs[i].value
  {
    if i < |attrs| - 1 {
      GetMember(attrs[..|attrs| - 1], i);
    }
  }

  /** Changing the value of one attribute changes what is read for its name alone. */
  lemma ValueReads(attrs: seq<Attr>, i: nat, value: string, other: string)
    requires Distinct(attrs) && i < |attrs|
    ensures var changed := attrs[i := Attr(attrs[i].name, value)];
            Distinct(changed) && Get(changed, other) == if other == attrs[i].name then value else Get(attrs, other)
  {
    hide Get;
    var changed := attrs[i := Attr(attrs[i].name, value)];
    if j :| 0 <= j < |attrs| && attrs[j].name == other {
      assert changed[j].name == other;
      GetMember(attrs, j);
      GetMember(changed, j);
    } else {
      GetAbsent(attrs, other);
      GetAbsent(changed, other);
    }
  }

  lemma {:induction false} SetAttrFirst(attrs: seq<Attr>, name: string, value: string, i: nat)
    requires i <= |attrs| && forall j | 0 <= j < i :: attrs[j].name != name
    requires i < |attrs| ==> attrs[i].name == name
    ensures SetAttr(attrs, name, value)
         == if i < |attrs| then attrs[i := Attr(name, value)] else attrs + [Attr(name, value)]
    decreases i
  {
    if i > 0 {
      SetAttrFirst(attrs[1..], name, value, i - 1);
      assert attrs == [attrs[0]] + attrs[1..];
    }
  }

  lemma SetAttrReads(attrs: seq<Attr>, name: string, value: string, other: string)
    requires Distinct(attrs)
    ensures Distinct(SetAttr(attrs, name, value))
    ensures Get(SetAttr(attrs, name, value), other) == if other == name then value else Get(attrs, other)
  {
    if i :| 0 <= i < |attrs| && attrs[i].name == name {
      hide Get;
      SetAttrFirst(attrs, name, value, i);
      ValueReads(attrs, i, value, other);
    } else {
      SetAttrFirst(attrs, name, value, |attrs|);
      var changed := attrs + [Attr(name, value)];
      assert changed[..|attrs|] == attrs;
    }
  }

  /** The root is written with the display's size, and in Noto Sans unless it names a font. */
  lemma RootSized(c: Settings, attrs: seq<Attr>, name: string)
    requires Distinct(attrs)
    ensures var a := RootAttrs(c, attrs);
            Get(a, name) == if name == "width" then c.decimal(c.width)
                            else if name == "height" then c.decimal(c.height)
                            else if name == "font-family" && Get(attrs, name) == "" then "Noto Sans"
                            else Get(attrs, name)
  {
    hide Get, SetAttr;
    var wide := SetAttr(attrs, "width", c.decimal(c.width));
    var sized := SetAttr(wide, "height", c.decimal(c.height));
    assert "width" != "height" by { assert |"width"| != |"height"|; }
    assert "font-family" != "height" && "font-family" != "width" by {
      assert |"font-family"| > |"height"| > |"width"|;
    }
    SetAttrReads(attrs, "width", c.decimal(c.width), name);
    SetAttrReads(wide, "height", c.decimal(c.height), name);
    SetAttrReads(sized, "font-family", "Noto Sans", name);
  }

  // ---------------------------------------------------------------------------------------------
  // When an element is accepted
  // ---------------------------------------------------------------------------------------------

  /** The element is written: it lies in no erased page and opens none. */
  predicate Kept(parent: Level, g: Document, attrs: seq<Attr>) {
    !parent.skip && !(Get(attrs, "data-page") != "" && g.pageID.Some?)
  }

  /** The first element: an svg with a view box of positive size, and a refresh interval that parses, if any. */
  predicate IsRoot(c: Settings, name: string, attrs: seq<Attr>) {
    var box := c.numbers(Get(attrs, "viewBox"));
    && name == "svg" && box.Some? && |box.value| == 4 && 0.0 < box.value[2] && 0.0 < box.value[3]
    && (Get(attrs, "data-refresh") != "" ==> c.minutes(Get(attrs, "data-refresh")).Some?)
  }

  predicate TransformParses(c: Settings, attrs: seq<Attr>) {
    var calls := c.calls(Get(attrs, "transform"));
    Get(attrs, "transform") != "" ==>
      calls != [] && forall i | 0 <= i < |calls| :: HitBox.Single(calls[i]).Some?
  }

  /** Dynamic text is for text elements, its keys known and no opening left over. */
  predicate TextFits(v: Values, name: string, attrs: seq<Attr>) {
    Get(attrs, "data-value") != "" ==> name == "text" && Substitute(Get(attrs, "data-value"), v).Some?
  }

  /**
   A widget is a group with whole-numbered geometry of positive size and a known provider; it has an id of its own,
   which only a calendar that cannot be paged may do without.
   */
  predicate WidgetFits(c: Settings, ids: set<string>, name: string, attrs: seq<Attr>) {
    var provider, id := Get(attrs, "data-widget"), Get(attrs, "id");
    var (x, y) := (c.integer(Get(attrs, "data-x")), c.integer(Get(attrs, "data-y")));
    var (w, h) := (c.integer(Get(attrs, "data-width")), c.integer(Get(attrs, "data-height")));
    provider != "" ==>
      && name == "g" && (provider == "calendar" || provider == "departures" || c.registered(provider))
      && x.Some? && y.Some? && w.Some? && h.Some? && 0 < w.value && 0 < h.value
      && (id == "" ==> provider == "calendar" && Get(attrs, "data-navigation") != "true")
      && id !in ids - {""}
  }

  /** A kept element with an action or region has a box to touch, and its widget draws. */
  ghost predicate Draws(c: Settings, v: Values, name: string, attrs: seq<Attr>) {
    var provider := Get(attrs, "data-widget");
    && (Get(attrs, "data-action") != "" || Get(attrs, "data-region") != "" ==> c.hit(name, attrs).Some?)
    && (provider == "calendar" ==> EmitCalendar(c, v, attrs).Some?)
    && (provider != "" && provider != "calendar" && !c.metadataOnly ==>
          exists w | ParseWidget(c, attrs) == Some(w) ::
            c.fragment(w).Some? && Fragment.Spliced(c.rules, c.fragment(w).value).Some?)
  }

  /** The checks that concern neither the stack nor the document so far. */
  predicate Fits(c: Settings, v: Values, rooted: bool, name: string, attrs: seq<Attr>) {
    && name !in {"script", "foreignobject", "animate", "animatemotion", "animatetransform", "set", "audio", "video",
                 "iframe"}
    && c.rules.validAttrs(if rooted then attrs else RootAttrs(c, attrs))
    && TransformParses(c, attrs) && TextFits(v, name, attrs) && WidgetFits(c, {}, name, attrs)
  }

  lemma WidgetParses(c: Settings, attrs: seq<Attr>)
    requires Get(attrs, "data-widget") != ""
    ensures ParseWidget(c, attrs).Some? <==> WidgetFits(c, {}, "g", attrs)
    ensures ParseWidget(c, attrs).Some? ==>
              var w := ParseWidget(c, attrs).value;
              && w.provider == Get(attrs, "data-widget") && w.instance == Get(attrs, "id") && w.attrs == attrs
              && c.integer(Get(attrs, "data-x")) == Some(w.x) && c.integer(Get(attrs, "data-y")) == Some(w.y)
              && c.integer(Get(attrs, "data-width")) == Some(w.width)
              && c.integer(Get(attrs, "data-height")) == Some(w.height)
  {
    hide Get;
  }

  /** What the element is, by its attributes. */
  lemma Inspected(c: Settings, v: Values, name: string, attrs: seq<Attr>)
    ensures Inspect(c, v, name, attrs).Some? <==> TextFits(v, name, attrs) && WidgetFits(c, {}, name, attrs)
    ensures Inspect(c, v, name, attrs).Some? ==>
              match Inspect(c, v, name, attrs).value
              case Static => Get(attrs, "data-value") == "" && Get(attrs, "data-widget") == ""
              case Replacement(text) =>
                && Get(attrs, "data-value") != "" && Get(attrs, "data-widget") == ""
                && Substitute(Get(attrs, "data-value"), v) == Some((text, Keys(Get(attrs, "data-value"))))
              case Calendar(w) =>
                Get(attrs, "data-value") == "" && Get(attrs, "data-widget") == "calendar"
                  && ParseWidget(c, attrs) == Some(w)
              case Module(w) =>
                && Get(attrs, "data-value") == "" && Get(attrs, "data-widget") != ""
                && Get(attrs, "data-widget") != "calendar" && ParseWidget(c, attrs) == Some(w)
  {
    hide Get, ParseWidget, Replaced, Keys, HasOpening;
    assert "text" != "g" by { assert |"text"| != |"g"|; }
    if Get(attrs, "data-widget") != "" {
      WidgetParses(c, attrs);
    }
  }

  lemma Looks(c: Settings, v: Values, rooted: bool, tag: string, raw: seq<Attr>)
    ensures var name, attrs := c.rules.lower(tag), c.normalize(raw);
            && (Look(c, v, rooted, tag, raw).Some? <==> Fits(c, v, rooted, name, attrs))
            && (Look(c, v, rooted, tag, raw).Some? ==>
                  var f := Look(c, v, rooted, tag, raw).value;
                  && f.name == name && f.attrs == attrs && f.hit == c.hit(name, attrs)
                  && Inspect(c, v, name, attrs) == Some(f.dynamic) && f.content == Content(c, v, f.dynamic, attrs))
  {
    hide Get, Inspect, Content, RootAttrs, WidgetFits, TextFits;
    Inspected(c, v, c.rules.lower(tag), c.normalize(raw));
  }

  lemma ContentDraws(c: Settings, v: Values, name: string, attrs: seq<Attr>)
    requires Inspect(c, v, name, attrs).Some?
    ensures var d := Inspect(c, v, name, attrs).value;
            && (Content(c, v, d, attrs).Some? && (Touchable(attrs) ==> c.hit(name, attrs).Some?)
                <==> Draws(c, v, name, attrs))
  {
    hide Get, Inspect, ParseWidget, EmitCalendar, Fragment.Spliced, Substitute;
    Inspected(c, v, name, attrs);
  }

  lemma RootParses(c: Settings, name: string, attrs: seq<Attr>)
    ensures ParseRoot(c, name, attrs).Some? <==> IsRoot(c, name, attrs)
  {
    hide Get;
  }

  /** Entering an element that looks right. */
  lemma Enters(c: Settings, v: Values, parent: Level, g: Document, tag: string, raw: seq<Attr>)
    requires Look(c, v, g.view.Some?, tag, raw).Some?
    ensures var f := Look(c, v, g.view.Some?, tag, raw).value;
            Enter(c, v, parent, g, tag, raw).Some? <==>
              && !parent.dynamic && (g.view == None ==> ParseRoot(c, f.name, f.attrs).Some?)
              && NoteDynamic(g, f).Some?
              && (Kept(parent, g, f.attrs) ==> f.content.Some? && (Touchable(f.attrs) ==> f.hit.Some?))
  {
    hide Look, ParseRoot, Get, Touchable, DepsOf, Placed, Place, OutAttrs, Navigable;
  }

  lemma DynamicFits(c: Settings, v: Values, g: Document, name: string, attrs: seq<Attr>, f: Facts)
    requires Inspect(c, v, name, attrs) == Some(f.dynamic)
    ensures NoteDynamic(g, f).Some? <==> WidgetFits(c, g.ids, name, attrs)
  {
    hide Get, Inspect, ParseWidget, DepsOf, Navigable, Substitute;
    Inspected(c, v, name, attrs);
    if Get(attrs, "data-widget") != "" {
      WidgetParses(c, attrs);
    }
  }

  /** A start tag is accepted exactly if all of these hold. */
  lemma Accepted(c: Settings, v: Values, parent: Level, g: Document, tag: string, raw: seq<Attr>)
    ensures var name, attrs := c.rules.lower(tag), c.normalize(raw);
            Enter(c, v, parent, g, tag, raw).Some? <==>
              && !parent.dynamic && Fits(c, v, g.view.Some?, name, attrs) && WidgetFits(c, g.ids, name, attrs)
              && (g.view == None ==> IsRoot(c, name, attrs))
              && (Kept(parent, g, attrs) ==> Draws(c, v, name, attrs))
  {
    hide Look, Inspect, Content, ParseRoot, IsRoot, Fits, Draws, Kept, WidgetFits, Touchable, NoteDynamic;
    var name, attrs := c.rules.lower(tag), c.normalize(raw);
    Looks(c, v, g.view.Some?, tag, raw);
    RootParses(c, name, attrs);
    if Fits(c, v, g.view.Some?, name, attrs) {
      var f := Look(c, v, g.view.Some?, tag, raw).value;
      Enters(c, v, parent, g, tag, raw);
      DynamicFits(c, v, g, name, attrs, f);
      ContentDraws(c, v, name, attrs);
    } else {
      assert Enter(c, v, parent, g, tag, raw) == None;
    }
  }

  /** A token that is no tag is accepted unless it is a directive, or style text against the rules, erased or not. */
  lemma PlainAccepted(c: Settings, level: Level, g: Document, token: Token)
    requires !token.Start? && !token.End?
    ensures Plain(c, level, g, token).Some? <==>
              !token.Directive? && (token.Text? && level.name == "style" ==> c.validStyle(token.data))
    ensures Plain(c, level, g, token).Some? ==>
              Plain(c, level, g, token).value ==
                if level.skip || (token.Text? && level.dynamic) then g
                else g.(output := g.output + [if token.Text? && level.name == "style" then Text(c.css(token.data))
                                              else token])
  {
  }

  // ---------------------------------------------------------------------------------------------
  // What it writes and notes
  // ---------------------------------------------------------------------------------------------

  lemma Entered(c: Settings, v: Values, parent: Level, g: Document, tag: string, raw: seq<Attr>)
    requires Enter(c, v, parent, g, tag, raw).Some?
    ensures Look(c, v, g.view.Some?, tag, raw).Some?
    ensures var f, attrs := Look(c, v, g.view.Some?, tag, raw).value, c.normalize(raw);
            var (level, g') := Enter(c, v, parent, g, tag, raw).value;
            && f.name == c.rules.lower(tag) && f.attrs == attrs && f.hit == c.hit(f.name, attrs)
            && Inspect(c, v, f.name, attrs) == Some(f.dynamic) && f.content == Content(c, v, f.dynamic, attrs)
            && (level.skip <==> !Kept(parent, g, attrs)) && (level.dynamic <==> !f.dynamic.Static?)
            && level.name == c.rules.lower(tag)
            && (!level.skip ==>
                  && f.content.Some?
                  && g'.output == g.output + [Start(tag, OutAttrs(c, g.view.Some?, f.dynamic, attrs))]
                                  + Flatten(f.content.value.0))
  {
    hide Look, Inspect, Content, Get, NotePage, EnterRoot, NoteDynamic, NoteRegion, Write, OutAttrs;
    Looks(c, v, g.view.Some?, tag, raw);
    var f := Look(c, v, g.view.Some?, tag, raw).value;
    var level := Open(parent, g, f);
    var g1 := EnterRoot(c, NotePage(parent, g, f), f.name, f.attrs).value;
    var g2 := NoteDynamic(g1, f).value;
    var g3 := NoteRegion(level, g2, f).value;
    NotesWriteNothing(c, parent, level, g, g1, g2, f);
    if !level.skip {
      WriteWrites(c, level, g3, g.view.Some?, tag, f);
    }
  }

  lemma NotesWriteNothing(c: Settings, parent: Level, level: Level, g: Document, g1: Document, g2: Document, f: Facts)
    ensures EnterRoot(c, NotePage(parent, g, f), f.name, f.attrs) == Some(g1) ==> g1.output == g.output
    ensures NoteDynamic(g1, f) == Some(g2) ==> g2.output == g1.output
    ensures NoteRegion(level, g2, f).Some? ==> NoteRegion(level, g2, f).value.output == g2.output
  {
    hide ParseRoot, DepsOf, Place, Get, Navigable;
  }

  lemma WriteWrites(c: Settings, level: Level, g: Document, rooted: bool, tag: string, f: Facts)
    requires Write(c, level, g, rooted, tag, f).Some? && !level.skip
    ensures f.content.Some?
    ensures Write(c, level, g, rooted, tag, f).value.output
         == g.output + [Start(tag, OutAttrs(c, rooted, f.dynamic, f.attrs))] + Flatten(f.content.value.0)
  {
    hide OutAttrs, Placed, Flatten;
  }

  /** Every widget is noted, erased or not, with its provider, id, place and size. */
  lemma WidgetNoted(c: Settings, v: Values, parent: Level, g: Document, tag: string, raw: seq<Attr>)
    requires Enter(c, v, parent, g, tag, raw).Some?
    ensures var attrs, g' := c.normalize(raw), Enter(c, v, parent, g, tag, raw).value.1;
            if Get(attrs, "data-widget") == "" then g'.widgets == g.widgets
            else
              && ParseWidget(c, attrs).Some?
              && g'.widgets == g.widgets + [ParseWidget(c, attrs).value]
  {
    hide Look, Inspect, ParseWidget, ParseRoot, Get, DepsOf, Place, Placed, OutAttrs, Navigable;
    Looks(c, v, g.view.Some?, tag, raw);
    Inspected(c, v, c.rules.lower(tag), c.normalize(raw));
  }

  /** The attributes a kept element is written with. */
  function Written(c: Settings, rooted: bool, attrs: seq<Attr>): seq<Attr> {
    StripData(if rooted then attrs else RootAttrs(c, attrs))
  }

  /** An element that is neither dynamic text nor a widget is written as it is. */
  lemma StaticWritten(c: Settings, v: Values, parent: Level, g: Document, tag: string, raw: seq<Attr>)
    requires Enter(c, v, parent, g, tag, raw).Some? && Kept(parent, g, c.normalize(raw))
    requires Get(c.normalize(raw), "data-value") == "" && Get(c.normalize(raw), "data-widget") == ""
    ensures Enter(c, v, parent, g, tag, raw).value.1.output
         == g.output + [Start(tag, Written(c, g.view.Some?, c.normalize(raw)))]
  {
    hide Enter, Look, Inspect, Get, Kept, StripData, RootAttrs;
    Entered(c, v, parent, g, tag, raw);
    Inspected(c, v, c.rules.lower(tag), c.normalize(raw));
  }

  /** Dynamic text is written as the element with the text its expressions stand for. */
  lemma TextWritten(c: Settings, v: Values, parent: Level, g: Document, tag: string, raw: seq<Attr>)
    requires Enter(c, v, parent, g, tag, raw).Some? && Kept(parent, g, c.normalize(raw))
    requires Get(c.normalize(raw), "data-value") != ""
    ensures var text := Replaced(Get(c.normalize(raw), "data-value"), v);
            && text.Some? && !HasOpening(text.value)
            && Enter(c, v, parent, g, tag, raw).value.1.output
                 == g.output + [Start(tag, Written(c, g.view.Some?, c.normalize(raw))), Text(text.value)]
  {
    hide Enter, Look, Inspect, Get, Kept, StripData, RootAttrs, Replaced, HasOpening;
    Entered(c, v, parent, g, tag, raw);
    Inspected(c, v, c.rules.lower(tag), c.normalize(raw));
  }

  /** A calendar is written as its group with the month drawn inside. */
  lemma CalendarWritten(c: Settings, v: Values, parent: Level, g: Document, tag: string, raw: seq<Attr>)
    requires Enter(c, v, parent, g, tag, raw).Some? && Kept(parent, g, c.normalize(raw))
    requires Get(c.normalize(raw), "data-widget") == "calendar"
    ensures EmitCalendar(c, v, c.normalize(raw)).Some?
    ensures Enter(c, v, parent, g, tag, raw).value.1.output
         == g.output + [Start(tag, Written(c, g.view.Some?, c.normalize(raw)))]
                     + Flatten(EmitCalendar(c, v, c.normalize(raw)).value.0)
  {
    hide Enter, Look, Inspect, Get, Kept, StripData, RootAttrs, EmitCalendar;
    Entered(c, v, parent, g, tag, raw);
    Inspected(c, v, c.rules.lower(tag), c.normalize(raw));
  }

  /** Any other widget is moved to its place, and its cleaned fragment shown through a viewport of its size. */
  lemma ModuleWritten(c: Settings, v: Values, parent: Level, g: Document, tag: string, raw: seq<Attr>)
    requires Enter(c, v, parent, g, tag, raw).Some? && Kept(parent, g, c.normalize(raw))
    requires Get(c.normalize(raw), "data-widget") != "" && Get(c.normalize(raw), "data-widget") != "calendar"
    ensures ParseWidget(c, c.normalize(raw)).Some?
    ensures var attrs, out := c.normalize(raw), Enter(c, v, parent, g, tag, raw).value.1.output;
            var (x, y) := (Get(attrs, "data-x"), Get(attrs, "data-y"));
            var (w, h) := (Get(attrs, "data-width"), Get(attrs, "data-height"));
            if c.metadataOnly then out == g.output + [Start(tag, Written(c, g.view.Some?, attrs))]
            else
              && var fragment := c.fragment(ParseWidget(c, attrs).value);
                 && fragment.Some? && Fragment.Spliced(c.rules, fragment.value).Some?
                 && out == g.output
                           + [Start(tag, [Attr("id", Get(attrs, "id")),
                                          Attr("transform", "translate(" + x + " " + y + ")")])]
                           + ([Start("svg", [Attr("width", w), Attr("height", h), Attr("viewBox", "0 0 " + w + " " + h),
                                             Attr("overflow", "hidden")])]
                              + (Flatten(Fragment.Spliced(c.rules, fragment.value).value) + ([End("svg")] + [])))
  {
    hide Enter, Look, Inspect, Get, Kept, StripData, RootAttrs, ParseWidget, Fragment.Spliced;
    Entered(c, v, parent, g, tag, raw);
    Inspected(c, v, c.rules.lower(tag), c.normalize(raw));
  }

  /** What a calendar is drawn from: the checks, and the month offset, 0 unless it can be paged and one is stored. */
  lemma CalendarInputs(c: Settings, v: Values, attrs: seq<Attr>)
    ensures var (today, locale) := (c.date(Value(v, "system.date")), Value(v, "system.locale"));
            var stored := Value(v, "widget." + Get(attrs, "id") + ".month_offset");
            var paged := Get(attrs, "data-navigation") == "true" && stored != "";
            EmitCalendar(c, v, attrs) ==
              if today.Some? && c.locale(locale)
                 && Get(attrs, "data-week-start") in {"", "monday", "sunday"}
                 && Get(attrs, "data-spillover") in {"", "true", "false"}
                 && Get(attrs, "data-navigation") in {"", "true", "false"}
                 && (paged ==> c.integer(stored).Some? && -12 <= c.integer(stored).value <= 12)
              then c.draw(attrs, today.value, locale, if paged then c.integer(stored).value else 0) else None
  {
    hide Get, Value;
  }

  /**
   A kept element with an action or a region gets one hit box with its own id, action and region, numbered in turn, for
   each of the two it has.
   */
  lemma RegionNoted(c: Settings, v: Values, parent: Level, g: Document, tag: string, raw: seq<Attr>)
    requires Enter(c, v, parent, g, tag, raw).Some? && Kept(parent, g, c.normalize(raw))
    requires Get(c.normalize(raw), "data-widget") == ""
    ensures var attrs, (level, g') := c.normalize(raw), Enter(c, v, parent, g, tag, raw).value;
            var (action, region) := (Get(attrs, "data-action"), Get(attrs, "data-region"));
            var box := c.hit(c.rules.lower(tag), attrs);
            if action == "" && region == ""
            then g'.actions == g.actions && g'.regions == g.regions && g'.order == g.order
            else
              && box.Some? && g'.view.Some? && g'.order == g.order + 1
              && var r := Region(Place(g'.view.value, level.matrix, box.value), Get(attrs, "id"), action, region,
                                 "webhook", "", "", "", g.order);
                 && g'.actions == g.actions + (if action != "" then [r] else [])
                 && g'.regions == g.regions + (if region != "" then [r] else [])
  {
    hide Look, Inspect, ParseRoot, Get, DepsOf, Place, OutAttrs, Navigable, ParseWidget, EmitCalendar, Replaced,
         Flatten;
    Looks(c, v, g.view.Some?, tag, raw);
    Inspected(c, v, c.rules.lower(tag), c.normalize(raw));
  }
}
