/** The fragment of JavaScript regular expressions the validator's patterns
    use: anchored concatenations of literal strings, character classes with
    a repetition count, and alternatives, optionally preceded by lookaheads
    of the form `(?=.*[...])`.

    Every term of a concatenation except the last must have a fixed width,
    which holds for each pattern of the validator, so a match never searches
    for a split point: a term of variable width in any other position makes
    the match fail. */
module Regex {

  import opened Outcome

  /** A character class `[...]` as a list of inclusive ranges. */
  datatype CharClass = Ranges(ranges: seq<(char, char)>)
  {
    predicate Has(c: char) {
      exists i | 0 <= i < |ranges| :: ranges[i].0 <= c <= ranges[i].1
    }
  }

  /** A class listing single characters, like `[@$!%*?&]`. */
  function Chars(s: string): (cls: CharClass)
    ensures forall c :: cls.Has(c) <==> c in s
  {
    var cls := Ranges(seq(|s|, i requires 0 <= i < |s| => (s[i], s[i])));
    assert forall c :: c in s ==> cls.Has(c) by {
      forall c | c in s ensures cls.Has(c) {
        var i :| 0 <= i < |s| && s[i] == c;
        assert cls.ranges[i].0 <= c <= cls.ranges[i].1;
      }
    }
    cls
  }

  /** `\d`: the ASCII digits. */
  const Digit: CharClass := Ranges([('0', '9')])

  /** One term of a pattern. `max` of `None` is an unbounded `{min,}`. */
  datatype Term =
    | Lit(text: string)
    | Class(cls: CharClass, min: nat, max: Option<nat>)
    | Alt(alternatives: seq<Term>)
    | Cat(terms: seq<Term>)

  /** A class repeated exactly once. */
  function One(cls: CharClass): Term { Class(cls, 1, Some(1)) }

  /** The number of characters every match of `t` has, when that is fixed. */
  function Width(t: Term): Option<nat>
  {
    match t
    case Lit(text) => Some(|text|)
    case Class(_, min, max) => if max == Some(min) then Some(min) else None
    case Alt(alts) =>
      if |alts| == 0 then None
      else if Width(alts[0]).Some? && forall i | 0 <= i < |alts| :: Width(alts[i]) == Width(alts[0])
      then Width(alts[0])
      else None
    case Cat(ts) => CatWidth(ts)
  }

  function CatWidth(ts: seq<Term>): Option<nat>
  {
    if |ts| == 0 then Some(0)
    else match (Width(ts[0]), CatWidth(ts[1..]))
      case (Some(a), Some(b)) => Some(a + b)
      case _ => None
  }

  /** The whole of `s` matches term `t`. */
  predicate MatchTerm(t: Term, s: string)
  {
    match t
    case Lit(text) => s == text
    case Class(cls, min, max) =>
      && min <= |s|
      && (max.None? || |s| <= max.value)
      && forall i | 0 <= i < |s| :: cls.Has(s[i])
    case Alt(alts) => exists i | 0 <= i < |alts| :: MatchTerm(alts[i], s)
    case Cat(ts) => MatchCat(ts, s)
  }

  /** The whole of `s` matches the concatenation `ts`. */
  predicate MatchCat(ts: seq<Term>, s: string)
  {
    if |ts| == 0 then s == ""
    else if |ts| == 1 then MatchTerm(ts[0], s)
    else
      match Width(ts[0])
      case None => false
      case Some(w) => w <= |s| && MatchTerm(ts[0], s[..w]) && MatchCat(ts[1..], s[w..])
  }

  /** A line terminator, which `.` does not match. */
  predicate IsLineTerminator(c: char) {
    c == '\n' || c == '\r' || c == '\U{2028}' || c == '\U{2029}'
  }

  /** The lookahead `(?=.*[cls])` at the start of `s`: some character of the
      class occurs before the first line terminator. */
  predicate LookaheadHolds(cls: CharClass, s: string) {
    exists i | 0 <= i < |s| ::
      cls.Has(s[i]) && forall j | 0 <= j < i :: !IsLineTerminator(s[j])
  }

  /** An anchored pattern `^(?=.*[a])(?=.*[b])...body$`. */
  datatype Pattern = Pattern(lookaheads: seq<CharClass>, body: seq<Term>)

  predicate Matches(p: Pattern, s: string) {
    && (forall k | 0 <= k < |p.lookaheads| :: LookaheadHolds(p.lookaheads[k], s))
    && MatchCat(p.body, s)
  }

  /** A term of fixed width matches only strings of that width. */
  lemma {:induction false} TermMatchWidth(t: Term, s: string)
    requires Width(t).Some? && MatchTerm(t, s)
    ensures |s| == Width(t).value
    decreases t, 1
  {
    match t
    case Lit(_) =>
    case Class(_, _, _) =>
    case Alt(alts) =>
      var i :| 0 <= i < |alts| && MatchTerm(alts[i], s);
      TermMatchWidth(alts[i], s);
    case Cat(ts) =>
      CatMatchWidth(ts, s);
  }

  /** A concatenation of fixed width matches only strings of that width. */
  lemma {:induction false} CatMatchWidth(ts: seq<Term>, s: string)
    requires CatWidth(ts).Some? && MatchCat(ts, s)
    ensures |s| == CatWidth(ts).value
    decreases ts, 0
  {
    if |ts| == 1 {
      assert CatWidth(ts[1..]) == Some(0);
      TermMatchWidth(ts[0], s);
    } else if |ts| > 1 {
      var w := Width(ts[0]).value;
      CatMatchWidth(ts[1..], s[w..]);
    }
  }

  lemma OneMatch(cls: CharClass, s: string)
    ensures Width(One(cls)) == Some(1)
    ensures MatchTerm(One(cls), s) <==> |s| == 1 && cls.Has(s[0])
  {
  }

  /** The width of a two-term concatenation. */
  lemma PairWidth(a: Term, b: Term)
    requires Width(a).Some? && Width(b).Some?
    ensures Width(Cat([a, b])) == Some(Width(a).value + Width(b).value)
  {
    assert [a, b][1..] == [b];
    assert CatWidth([b]) == Some(Width(b).value) by {
      assert [b][1..] == [];
    }
  }

  /** Matching a two-term concatenation whose first term has a fixed width. */
  lemma PairMatch(a: Term, b: Term, s: string)
    requires Width(a).Some?
    ensures MatchTerm(Cat([a, b]), s) <==>
              Width(a).value <= |s| && MatchTerm(a, s[..Width(a).value]) && MatchTerm(b, s[Width(a).value..])
  {
    var ts := [a, b];
    assert ts[0] == a && ts[1..] == [b];
    if Width(a).value <= |s| {
      assert MatchCat([b], s[Width(a).value..]) <==> MatchTerm(b, s[Width(a).value..]);
    }
  }

  /** Matching a concatenation of one term. */
  lemma SingleMatch(t: Term, s: string)
    ensures MatchCat([t], s) <==> MatchTerm(t, s)
  {
  }
}
