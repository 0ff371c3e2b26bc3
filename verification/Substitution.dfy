/** Dynamic values: `${key}` expressions in text, and what replacing them depends on. */
module Substitution {
  import opened Common

  type Values = map<string, string>

  predicate KeyStart(ch: char) {
    'a' <= ch <= 'z'
  }

  predicate KeyChar(ch: char) {
    'a' <= ch <= 'z' || '0' <= ch <= '9' || ch == '_' || ch == '.'
  }

  /** The length of the run of key characters at the front. */
  function Run(s: string): (n: nat)
    ensures n <= |s| && (forall i | 0 <= i < n :: KeyChar(s[i])) && (n < |s| ==> !KeyChar(s[n]))
  {
    if s == "" || !KeyChar(s[0]) then 0 else 1 + Run(s[1..])
  }

  /** A match of `\$\{([a-z][a-z0-9_.]*)\}` at the front: its key and what follows. */
  function Match(s: string): (r: Option<(string, string)>)
    ensures r.Some? ==> |r.value.1| < |s| && s == "${" + r.value.0 + "}" + r.value.1
    ensures r.Some? ==> r.value.0 != "" && KeyStart(r.value.0[0]) && forall ch | ch in r.value.0 :: KeyChar(ch)
  {
    if |s| < 2 || s[0] != '$' || s[1] != '{' then None
    else
      var rest := s[2..];
      var n := Run(rest);
      if n == 0 || !KeyStart(rest[0]) || n == |rest| || rest[n] != '}' then None
      else
        assert rest == rest[..n] + [rest[n]] + rest[n + 1..];
        Some((rest[..n], rest[n + 1..]))
  }

  /** The keys of all matches, from left to right. */
  function Keys(s: string): seq<string> {
    if s == "" then []
    else
      match Match(s)
      case None => Keys(s[1..])
      case Some((key, rest)) => [key] + Keys(rest)
  }

  /** Every match replaced by its value, or None if a key is unknown. */
  function Replaced(s: string, values: Values): Option<string> {
    if s == "" then Some("")
    else
      match Match(s)
      case None => Prepend([s[0]], Replaced(s[1..], values))
      case Some((key, rest)) => if key !in values then None else Prepend(values[key], Replaced(rest, values))
  }

  predicate HasOpening(s: string) {
    exists i :: 0 <= i < |s| - 1 && s[i] == '$' && s[i + 1] == '{'
  }

  /** A key as an expression may name it. */
  predicate IsKey(key: string) {
    && key != "" && 'a' <= key[0] <= 'z'
    && forall ch | ch in key :: 'a' <= ch <= 'z' || '0' <= ch <= '9' || ch == '_' || ch == '.'
  }

  lemma RunExactly(s: string, n: nat)
    requires n <= |s| && (forall i | 0 <= i < n :: KeyChar(s[i])) && (n < |s| ==> !KeyChar(s[n]))
    ensures Run(s) == n
  {
    var r := Run(s);
    if r < |s| {
      assert !KeyChar(s[r]);
    }
    if n < |s| {
      assert !KeyChar(s[n]);
    }
  }

  /** An expression in front is one match, whatever follows, and nothing else is. */
  lemma Matches(key: string, post: string)
    ensures Match("${" + key + "}" + post) == Some((key, post)) <==> IsKey(key)
  {
    hide Run;
    var s := "${" + key + "}" + post;
    if IsKey(key) {
      var rest := s[2..];
      assert rest == key + "}" + post;
      assert rest[|key|] == '}' && forall i | 0 <= i < |key| :: rest[i] == key[i] && key[i] in key;
      RunExactly(rest, |key|);
      assert rest[..|key|] == key && rest[|key| + 1..] == post;
    }
  }

  /** Text without an opening stands for itself. */
  lemma {:induction false} PlainKept(s: string, values: Values)
    requires !HasOpening(s)
    ensures Replaced(s, values) == Some(s) && Keys(s) == []
  {
    hide Run;
    if s != "" {
      assert |s| > 1 ==> !(s[0] == '$' && s[1] == '{');
      NoOpeningBehind(s);
      PlainKept(s[1..], values);
      assert [s[0]] + s[1..] == s;
    }
  }

  /** The first expression of a text: what is in front of it stays, its value takes its place, and the rest follows. */
  lemma {:induction false} FirstReplaced(pre: string, key: string, post: string, values: Values)
    requires !HasOpening(pre) && IsKey(key)
    ensures var s := pre + ("${" + key + "}" + post);
            && Keys(s) == [key] + Keys(post)
            && Replaced(s, values) == if key in values then Prepend(pre + values[key], Replaced(post, values)) else None
  {
    hide Run, Match, IsKey;
    var tail := "${" + key + "}" + post;
    var s := pre + tail;
    if pre == "" {
      assert s == tail;
      Matches(key, post);
      assert key in values ==> "" + values[key] == values[key];
    } else {
      NoOpeningBehind(pre);
      FirstReplaced(pre[1..], key, post, values);
      NoMatch(pre, tail);
      assert s[1..] == pre[1..] + tail;
      if key in values {
        PrependAppend([s[0]], pre[1..] + values[key], Replaced(post, values));
        assert [s[0]] + (pre[1..] + values[key]) == pre + values[key];
      }
    }
  }

  lemma NoOpeningBehind(s: string)
    requires s != "" && !HasOpening(s)
    ensures !HasOpening(s[1..])
  {
    var rest := s[1..];
    forall i | 0 <= i < |rest| - 1
      ensures !(rest[i] == '$' && rest[i + 1] == '{')
    {
      assert rest[i] == s[i + 1] && !(s[i + 1] == '$' && s[i + 2] == '{');
    }
  }

  lemma NoMatch(pre: string, tail: string)
    requires pre != "" && !HasOpening(pre) && tail != "" && tail[0] == '$'
    ensures Match(pre + tail) == None
  {
    hide Run;
    var s := pre + tail;
    if |pre| > 1 {
      assert !(pre[0] == '$' && pre[1] == '{');
    } else {
      assert s[1] == '$';
    }
  }

  /** `substitute`: the text and the keys used; an opening left over, even one from a value, is an error. */
  function Substitute(s: string, values: Values): Option<(string, seq<string>)> {
    match Replaced(s, values)
    case None => None
    case Some(text) => if HasOpening(text) then None else Some((text, Keys(s)))
  }

  lemma EmptyTail(out: string)
    ensures Prepend(out, Some("")) == Some(out)
  {
    assert out + "" == out;
  }

  /** The left-to-right scan with an output that grows, as a loop. */
  method ReplaceAll(s: string, values: Values) returns (text: Option<string>, used: seq<string>)
    ensures text == Replaced(s, values)
    ensures text.Some? ==> used == Keys(s)
  {
    hide Match, Prepend;
    PrependNone<char>();
    var rest, out, missing := s, "", false;
    used := [];
    PrependAppend("", "", Replaced(s, values));
    while rest != ""
      invariant !missing ==> used + Keys(rest) == Keys(s)
      invariant missing ==> Replaced(s, values) == None
      invariant !missing ==> Replaced(s, values) == Prepend(out, Replaced(rest, values))
      decreases |rest|
    {
      match Match(rest) {
        case None =>
          PrependAppend(out, [rest[0]], Replaced(rest[1..], values));
          out, rest := out + [rest[0]], rest[1..];
        case Some((key, tail)) =>
          if key !in values {
            missing := true;
          } else {
            PrependAppend(out, values[key], Replaced(tail, values));
            assert used + ([key] + Keys(tail)) == (used + [key]) + Keys(tail);
            out, used := out + values[key], used + [key];
          }
          rest := tail;
      }
    }
    text := if missing then None else Some(out);
    assert used + [] == used;
    assert Prepend(out, Some("")) == Some(out) by {
      EmptyTail(out);
    }
  }

  /** Two value maps give the same answer for a key: both lack it, or both have the same value. */
  predicate SameAt(v: Values, w: Values, key: string) {
    (key in v <==> key in w) && (key in v ==> v[key] == w[key])
  }

  ghost predicate Agree(v: Values, w: Values, keys: set<string>) {
    forall key | key in keys :: SameAt(v, w, key)
  }

  /** A replacement succeeds exactly when all its keys are known. */
  lemma {:induction false} ReplacedDefined(s: string, values: Values)
    ensures Replaced(s, values).Some? <==> forall key | key in Keys(s) :: key in values
  {
    if s != "" {
      match Match(s)
      case None => ReplacedDefined(s[1..], values);
      case Some((key, rest)) =>
        ReplacedDefined(rest, values);
        assert key in Keys(s) && forall k | k in Keys(rest) :: k in Keys(s);
        assert forall k | k in Keys(s) :: k == key || k in Keys(rest);
    }
  }

  /** It reads no value but those of its own keys. */
  lemma {:induction false} ReplacedReads(s: string, v: Values, w: Values)
    requires forall key | key in Keys(s) :: SameAt(v, w, key)
    ensures Replaced(s, v) == Replaced(s, w)
  {
    if s != "" {
      match Match(s)
      case None => ReplacedReads(s[1..], v, w);
      case Some((key, rest)) =>
        assert key in Keys(s) && forall k | k in Keys(rest) :: k in Keys(s);
        ReplacedReads(rest, v, w);
    }
  }
}
