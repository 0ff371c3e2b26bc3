/** The dependency set is sound, so an unchanged hash of the recorded values means an unchanged frame. */
module Dependencies {
  import opened Common
  import opened Svg
  import opened Substitution
  import opened Compiler

  // ---------------------------------------------------------------------------------------------
  // Noninterference
  // ---------------------------------------------------------------------------------------------

  lemma SubstituteReads(s: string, v: Values, w: Values)
    requires Agree(v, w, set key | key in Keys(s))
    ensures Substitute(s, v) == Substitute(s, w)
  {
    ReplacedReads(s, v, w);
  }

  /** The calendar asks for nothing but what is recorded for it. */
  lemma CalendarReads(c: Settings, v: Values, w: Values, attrs: seq<Attr>)
    requires SameAt(v, w, "system.date") && SameAt(v, w, "system.locale")
             && (Navigable(attrs) ==> SameAt(v, w, OffsetKey(attrs)))
    ensures EmitCalendar(c, v, attrs) == EmitCalendar(c, w, attrs)
  {
    assert Navigable(attrs) ==> Value(v, OffsetKey(attrs)) == Value(w, OffsetKey(attrs));
  }

  /** An element looks the same under values that agree on the keys recorded for it. */
  lemma LookReads(c: Settings, v: Values, w: Values, rooted: bool, tag: string, raw: seq<Attr>)
    requires Look(c, v, rooted, tag, raw).Some?
    requires var f := Look(c, v, rooted, tag, raw).value; Agree(v, w, DepsOf(f.dynamic, f.attrs))
    ensures Look(c, w, rooted, tag, raw) == Look(c, v, rooted, tag, raw)
  {
    hide Substitute, TagAttrs, OwnTransform, ParseWidget, EmitCalendar;
    var f := Look(c, v, rooted, tag, raw).value;
    match f.dynamic
    case Static =>
    case Replacement(_) => SubstituteReads(Get(f.attrs, "data-value"), v, w);
    case Calendar(_) =>
      assert SameAt(v, w, "system.date") && SameAt(v, w, "system.locale");
      assert Navigable(f.attrs) ==> SameAt(v, w, OffsetKey(f.attrs));
      CalendarReads(c, v, w, f.attrs);
    case Module(_) =>
  }

  lemma EnterReads(c: Settings, v: Values, w: Values, level: Level, g: Document, tag: string, raw: seq<Attr>)
    requires Enter(c, v, level, g, tag, raw).Some?
    ensures g.deps <= Enter(c, v, level, g, tag, raw).value.1.deps
    ensures Agree(v, w, Enter(c, v, level, g, tag, raw).value.1.deps) ==>
              Enter(c, w, level, g, tag, raw) == Enter(c, v, level, g, tag, raw)
  {
    hide Look, DepsOf, ParseRoot, OutAttrs, Placed, Place, Open;
    var f := Look(c, v, g.view.Some?, tag, raw).value;
    var g' := Enter(c, v, level, g, tag, raw).value.1;
    assert g'.deps == g.deps + DepsOf(f.dynamic, f.attrs);
    if Agree(v, w, g'.deps) {
      LookReads(c, v, w, g.view.Some?, tag, raw);
    }
  }

  lemma {:induction false} FoldReads(c: Settings, v: Values, w: Values, stack: seq<Level>, g: Document,
                                     tokens: seq<Token>)
    requires stack != [] && Fold(c, v, stack, g, tokens).Some?
    ensures g.deps <= Fold(c, v, stack, g, tokens).value.1.deps
    ensures Agree(v, w, Fold(c, v, stack, g, tokens).value.1.deps) ==>
              Fold(c, w, stack, g, tokens) == Fold(c, v, stack, g, tokens)
    decreases |tokens|
  {
    hide Enter, SameAt;
    if tokens != [] {
      var top := stack[|stack| - 1];
      if tokens[0].Start? {
        EnterReads(c, v, w, top, g, tokens[0].name, tokens[0].attrs);
        var (level, g1) := Enter(c, v, top, g, tokens[0].name, tokens[0].attrs).value;
        FoldReads(c, v, w, stack + [level], g1, tokens[1..]);
      } else if tokens[0].End? {
        FoldReads(c, v, w, stack[..|stack| - 1], Leave(top, g, tokens[0].name), tokens[1..]);
      } else if !tokens[0].Directive? {
        FoldReads(c, v, w, stack, Plain(c, top, g, tokens[0]).value, tokens[1..]);
      }
    }
  }

  /**
   Compiling reads no value it does not record: under values that agree on the recorded keys it gives the very same
   document.
   */
  lemma DependencySoundness(c: Settings, v: Values, w: Values, tokens: seq<Token>)
    requires Compile(c, v, tokens).Some? && Agree(v, w, Compile(c, v, tokens).value.deps)
    ensures Compile(c, w, tokens) == Compile(c, v, tokens)
  {
    hide Fold;
    FoldReads(c, v, w, [BASE], START, tokens);
  }

  // ---------------------------------------------------------------------------------------------
  // The hash
  // ---------------------------------------------------------------------------------------------

  const NUL: char := '\0'

  /** What `ValuesHash` feeds to the digest. */
  function Serial(values: Values, deps: seq<string>): string {
    if deps == [] then ""
    else
      var key := deps[|deps| - 1];
      Serial(values, deps[..|deps| - 1]) + key + [NUL] + Value(values, key) + [NUL]
  }

  /** SHA-256 in hex, left abstract but collision-free and never empty; and the sorted list of a set of keys. */
  datatype Hashing = Hashing(digest: string -> string, listing: set<string> -> seq<string>)

  ghost predicate Ideal(h: Hashing) {
    && (forall s, t | h.digest(s) == h.digest(t) :: s == t)
    && (forall s :: h.digest(s) != "")
    && (forall keys, k :: k in h.listing(keys) <==> k in keys)
  }

  method ValuesHash(h: Hashing, values: Values, deps: seq<string>) returns (hash: string)
    ensures hash == h.digest(Serial(values, deps))
  {
    var written, i := "", 0;
    while i < |deps|
      invariant 0 <= i <= |deps| && written == Serial(values, deps[..i])
    {
      assert deps[..i + 1][..i] == deps[..i];
      written := written + deps[i] + [NUL] + Value(values, deps[i]) + [NUL];
      i := i + 1;
    }
    assert deps[..i] == deps;
    hash := h.digest(written);
  }

  ghost predicate NulFree(values: Values, deps: seq<string>) {
    forall key | key in deps :: NUL !in key && NUL !in Value(values, key)
  }

  /** Text without a NUL up to the last NUL but one is determined by the whole. */
  lemma LastField(a: string, x: string, b: string, y: string)
    requires NUL !in x && NUL !in y && a + [NUL] + x + [NUL] == b + [NUL] + y + [NUL]
    ensures a == b && x == y
  {
    var s, t := a + [NUL] + x + [NUL], b + [NUL] + y + [NUL];
    assert forall k | |a| < k < |s| - 1 :: s[k] == x[k - |a| - 1];
    assert forall k | |b| < k < |t| - 1 :: t[k] == y[k - |b| - 1];
    assert s[|a|] == NUL && t[|b|] == NUL && t[|a|] == NUL && s[|b|] == NUL;
    assert a == s[..|a|] && b == t[..|b|];
    assert x == s[|a| + 1..|s| - 1] && y == t[|b| + 1..|t| - 1];
  }

  /** Equal serialisations of the same keys mean equal values, as long as no key or value holds a NUL. */
  lemma {:induction false} SerialInjective(v: Values, w: Values, deps: seq<string>)
    requires NulFree(v, deps) && NulFree(w, deps) && Serial(v, deps) == Serial(w, deps)
    ensures forall key | key in deps :: Value(v, key) == Value(w, key)
  {
    if deps != [] {
      var front, key := deps[..|deps| - 1], deps[|deps| - 1];
      assert deps == front + [key];
      LastField(Serial(v, front) + key, Value(v, key), Serial(w, front) + key, Value(w, key));
      assert Serial(v, front) == (Serial(v, front) + key)[..|Serial(v, front) + key| - |key|];
      assert Serial(w, front) == (Serial(w, front) + key)[..|Serial(w, front) + key| - |key|];
      SerialInjective(v, w, front);
    }
  }

  function Field(v: Values, key: string): string {
    key + [NUL] + Value(v, key) + [NUL]
  }

  lemma SerialLast(v: Values, front: seq<string>, key: string)
    ensures Serial(v, front + [key]) == Serial(v, front) + Field(v, key)
  {
    var deps := front + [key];
    assert deps[..|deps| - 1] == front && deps[|deps| - 1] == key;
  }

  lemma FieldIs(v: Values, key: string)
    ensures Field(v, key) == key + [NUL] + Value(v, key) + [NUL]
  {
  }

  lemma Regroup(a: string, b: string, c: string, d: string)
    ensures ((a + b) + c) + d == (a + b) + (c + d)
  {
  }

  /** Each key and each value is closed by a NUL, wherever it stands. */
  lemma {:induction false} SerialFields(v: Values, front: seq<string>, key: string, behind: seq<string>)
    ensures Serial(v, front + [key] + behind)
         == Serial(v, front) + (key + [NUL] + Value(v, key) + [NUL]) + Serial(v, behind)
  {
    SerialLast(v, front, key);
    if behind == [] {
      assert front + [key] + [] == front + [key];
      assert Serial(v, front) + Field(v, key) + "" == Serial(v, front) + Field(v, key);
    } else {
      hide Serial, Field;
      var rest, last := behind[..|behind| - 1], behind[|behind| - 1];
      assert behind == rest + [last] && front + [key] + behind == front + [key] + rest + [last];
      SerialFields(v, front, key, rest);
      FieldIs(v, key);
      SerialLast(v, rest, last);
      SerialLast(v, front + [key] + rest, last);
      Regroup(Serial(v, front), Field(v, key), Serial(v, rest), Field(v, last));
    }
  }

  lemma {:induction false} SerialReads(v: Values, w: Values, deps: seq<string>)
    requires forall key | key in deps :: Value(v, key) == Value(w, key)
    ensures Serial(v, deps) == Serial(w, deps)
  {
    if deps != [] {
      SerialReads(v, w, deps[..|deps| - 1]);
    }
  }

  // ---------------------------------------------------------------------------------------------
  // Render
  // ---------------------------------------------------------------------------------------------

  /** The keys `valuesAt` always provides. */
  const PROVIDED: set<string> :=
    {"system.name", "system.time", "system.date", "system.date_local", "system.locale", "device.name",
     "device.location", "device.uuid", "device.battery", "device.temperature", "device.humidity", "device.width",
     "device.height", "device.firmware", "device.display_state"}

  /** Values as `Render` collects them: the provided keys, and month offsets, which are never empty. */
  ghost predicate Collected(v: Values) {
    (forall key | key in PROVIDED :: key in v) && (forall key | key in v && key !in PROVIDED :: v[key] != "")
  }

  /** Looking a missing key up as the empty string loses nothing on collected values. */
  lemma SameValue(v: Values, w: Values, key: string)
    requires Collected(v) && Collected(w)
    ensures SameAt(v, w, key) <==> Value(v, key) == Value(w, key)
  {
    hide PROVIDED;
  }

  /** The hashes of two collections are equal exactly when these agree on the keys. */
  lemma HashesAgree(h: Hashing, v: Values, w: Values, keys: set<string>)
    requires Ideal(h) && Collected(v) && Collected(w) && NulFree(v, h.listing(keys)) && NulFree(w, h.listing(keys))
    ensures h.digest(Serial(v, h.listing(keys))) == h.digest(Serial(w, h.listing(keys))) <==> Agree(v, w, keys)
  {
    hide Collected, SameAt, NulFree, Serial;
    var deps := h.listing(keys);
    forall key
      ensures SameAt(v, w, key) <==> Value(v, key) == Value(w, key)
    {
      SameValue(v, w, key);
    }
    if Serial(v, deps) == Serial(w, deps) {
      SerialInjective(v, w, deps);
    }
    if Agree(v, w, keys) {
      SerialReads(v, w, deps);
    }
  }

  ghost predicate CleanValues(v: Values) {
    forall key | key in v :: NUL !in v[key]
  }

  /** No key the design can depend on holds a NUL: XML has no such character. */
  ghost predicate CleanKeys(c: Settings, tokens: seq<Token>) {
    forall w | Compile(c, w, tokens).Some? :: forall key | key in Compile(c, w, tokens).value.deps :: NUL !in key
  }

  datatype Rendering = Skipped | Failed | Queued(frame: Document)

  /** The active design of a device: what was stored by the last render, and the frames queued for the device. */
  class ActiveDesign {
    const settings: Settings
    const hashing: Hashing
    var tokens: seq<Token>
    var deps: seq<string>
    var hash: string
    var queue: seq<Document>

    /** The values behind the stored hash, and the frame queued with it. */
    ghost var basis: Values
    ghost var frame: Option<Document>

    ghost predicate Valid()
      reads this
    {
      hash != "" ==>
        && frame.Some? && frame.value in queue && Compile(settings, basis, tokens) == frame
        && deps == hashing.listing(frame.value.deps) && hash == hashing.digest(Serial(basis, deps))
        && Collected(basis) && CleanValues(basis)
    }

    /** The stored hash belongs to the newest frame queued. */
    ghost predicate Current()
      reads this
    {
      hash != "" ==> queue != [] && frame == Some(queue[|queue| - 1])
    }

    constructor (settings: Settings, hashing: Hashing, tokens: seq<Token>)
      ensures Valid() && this.settings == settings && this.hashing == hashing && this.tokens == tokens && hash == ""
              && queue == []
    {
      this.settings, this.hashing, this.tokens := settings, hashing, tokens;
      deps, hash, queue := [], "", [];
      basis, frame := map[], None;
    }

    /** `SetActiveDesign` forgets the hash. */
    method Assign(source: seq<Token>)
      modifies this
      ensures Valid() && tokens == source && hash == "" && queue == old(queue)
    {
      tokens, deps, hash := source, [], "";
    }

    /**
     `Render`: unforced, it skips exactly when the values agree with those behind the stored hash on everything that
     frame depended on, and then rendering again would have given that frame. `queues` tells whether the frame could be
     queued, and `stores` whether the new hash could be saved after that; when it could not, the hash goes on vouching
     for the frame before it.
     */
    method Render(values: Values, force: bool, queues: bool, stores: bool) returns (r: Rendering)
      requires Valid() && Ideal(hashing) && Collected(values) && CleanValues(values) && CleanKeys(settings, tokens)
      modifies `deps, `hash, `queue, `basis, `frame
      ensures Valid()
      ensures r.Skipped? <==>
                && !force && old(hash) != "" && old(frame).Some?
                && Agree(old(basis), values, old(frame).value.deps)
      ensures r.Skipped? ==> Compile(settings, values, tokens) == old(frame)
      ensures !r.Skipped? ==> r == match Compile(settings, values, tokens) case None => Failed
              case Some(g) => if queues then Queued(g) else Failed
      ensures tokens == old(tokens)
      ensures queue == if r.Queued? then old(queue) + [r.frame] else old(queue)
      ensures if r.Queued? && stores then frame == Some(r.frame) && basis == values && hash != ""
              else frame == old(frame) && basis == old(basis) && hash == old(hash) && deps == old(deps)
      ensures old(Current()) ==> (Current() <==> !r.Queued? || stores || old(hash) == "" || old(frame) == Some(r.frame))
    {
      hide Compile, Collected, Serial, Agree, CleanKeys, CleanValues, NulFree;
      if hash != "" {
        CleanListing(settings, hashing, tokens, basis, values, frame.value);
        HashesAgree(hashing, basis, values, frame.value.deps);
        if Agree(basis, values, frame.value.deps) {
          DependencySoundness(settings, basis, values, tokens);
        }
      }
      if !force && hash != "" {
        var current := ValuesHash(hashing, values, deps);
        if current == hash {
          return Skipped;
        }
      }
      var out := CompileXML(settings, values, tokens);
      if out == None {
        return Failed;
      }
      var list := hashing.listing(out.value.deps);
      var next := ValuesHash(hashing, values, list);
      if !queues {
        return Failed;
      }
      queue := queue + [out.value];
      if stores {
        hash, deps := next, list;
        basis, frame := values, out;
      }
      r := Queued(out.value);
    }
  }

  /**
   Three unforced renders of a new design, under values `v`, `w` and `u`, all frames queued and the first and third hash
   saved: the third is skipped although the frame queued last is not the one `u` gives, exactly if the second frame
   differs from the first, its hash was not saved, and `u` agrees with `v` on what the first frame depended on.
   */
  method StaleSkip(settings: Settings, hashing: Hashing, tokens: seq<Token>, v: Values, w: Values, u: Values,
                   stores: bool)
    returns (design: ActiveDesign, last: Rendering)
    requires Ideal(hashing) && CleanKeys(settings, tokens) && Compile(settings, v, tokens).Some?
    requires Collected(v) && CleanValues(v) && Collected(w) && CleanValues(w) && Collected(u) && CleanValues(u)
    ensures fresh(design) && design.Valid() && design.tokens == tokens && design.settings == settings
    ensures last.Skipped? && !design.Current() <==>
              && !stores && Compile(settings, w, tokens).Some?
              && Compile(settings, w, tokens) != Compile(settings, v, tokens)
              && Agree(v, u, Compile(settings, v, tokens).value.deps)
    ensures last.Skipped? && !design.Current() ==>
              && |design.queue| == 2 && design.queue[1] == Compile(settings, w, tokens).value
              && Compile(settings, u, tokens) == Some(design.queue[0]) && design.queue[0] != design.queue[1]
  {
    hide Compile, Collected, Agree, CleanKeys, CleanValues, Ideal, Serial;
    design := new ActiveDesign(settings, hashing, tokens);
    var first := design.Render(v, false, true, true);
    assert design.queue == [Compile(settings, v, tokens).value] && design.frame == Compile(settings, v, tokens)
           && design.Current();
    var second := design.Render(w, false, true, stores);
    last := design.Render(u, false, true, true);
  }

  lemma CleanListing(c: Settings, h: Hashing, tokens: seq<Token>, v: Values, w: Values, g: Document)
    requires Ideal(h) && CleanKeys(c, tokens) && CleanValues(v) && CleanValues(w) && Compile(c, v, tokens) == Some(g)
    ensures NulFree(v, h.listing(g.deps)) && NulFree(w, h.listing(g.deps))
  {
  }
}
