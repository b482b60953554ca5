/**
 Message similarity and base issue-type groups (src/analyzer_ng/core/features.py): what the
 Stage-A gate and the boilerplate guard measure.
 */
module Features {
  /** Base issue-type groups; `Ti` is the abstain outcome, `NoLabel` an unrecognised locator. */
  datatype Label = Pb | Ab | Si | Nd | Ti | NoLabel

  const BASE_LABELS: set<Label> := {Pb, Ab, Si, Nd}

  function Lower(c: char): char {
    if 'A' <= c <= 'Z' then (c as int + 32) as char else c
  }

  /** The two-letter prefix of a locator, case-folded, if it is one the model predicts. */
  function BaseGroup(locator: string): (r: Label)
    ensures r in BASE_LABELS || r == NoLabel
  {
    if |locator| < 2 then NoLabel
    else
      match (Lower(locator[0]), Lower(locator[1]))
      case ('p', 'b') => Pb
      case ('a', 'b') => Ab
      case ('s', 'i') => Si
      case ('n', 'd') => Nd
      case _ => NoLabel
  }

  /** A locator belongs to a base group exactly if it begins with the letters of the group, in either case; so
      everything after them does not matter, and no locator belongs to two. */
  lemma {:induction false} BaseGroupReadsPrefix(locator: string)
    ensures var r := BaseGroup(locator);
      if |locator| < 2 then r == NoLabel
      else
        var first, second := locator[0], locator[1];
        && (r == Pb <==> first in {'p', 'P'} && second in {'b', 'B'})
        && (r == Ab <==> first in {'a', 'A'} && second in {'b', 'B'})
        && (r == Si <==> first in {'s', 'S'} && second in {'i', 'I'})
        && (r == Nd <==> first in {'n', 'N'} && second in {'d', 'D'})
        && r != Ti
  {
    if |locator| >= 2 {
      LowerReads(locator[0]);
      LowerReads(locator[1]);
      hide Lower;
    }
  }

  lemma {:induction false} LowerReads(c: char)
    ensures Lower(c) == 'p' <==> c in {'p', 'P'}
    ensures Lower(c) == 'b' <==> c in {'b', 'B'}
    ensures Lower(c) == 'a' <==> c in {'a', 'A'}
    ensures Lower(c) == 's' <==> c in {'s', 'S'}
    ensures Lower(c) == 'i' <==> c in {'i', 'I'}
    ensures Lower(c) == 'n' <==> c in {'n', 'N'}
    ensures Lower(c) == 'd' <==> c in {'d', 'D'}
  {
  }

  function Jaccard(a: set<string>, b: set<string>): (r: real)
    ensures 0.0 <= r <= 1.0
    ensures a + b == {} ==> r == 1.0
    ensures a + b != {} ==> r * |a + b| as real == |a * b| as real
  {
    if a == {} && b == {} then 1.0
    else
      UnionSize(a, b);
      Ratio(|a * b|, |a + b|);
      |a * b| as real / |a + b| as real
  }

  lemma {:induction false} Ratio(n: nat, m: nat)
    requires n <= m && m > 0
    ensures 0.0 <= n as real / m as real <= 1.0
    ensures n as real / m as real == 1.0 <==> n == m
    ensures n as real / m as real == 0.0 <==> n == 0
  {
    var r := n as real / m as real;
    assert r * m as real == n as real;
  }

  lemma {:induction false} UnionSize(a: set<string>, b: set<string>)
    ensures |a + b| == |a| + |b| - |a * b|
    ensures |a * b| <= |a + b| && (|a * b| == |a + b| ==> a == b)
    ensures a != {} || b != {} ==> |a + b| > 0
  {
    assert a + b == (a - b) + (b - a) + a * b;
    assert |a + b| == |a - b| + |b - a| + |a * b|;
    assert a == (a - b) + a * b && b == (b - a) + a * b;
    if |a * b| == |a + b| {
      assert a - b == {} && b - a == {};
    }
  }

  /** Full similarity means the same tokens; none means nothing shared and something to compare. */
  lemma {:induction false} JaccardExtremes(a: set<string>, b: set<string>)
    ensures Jaccard(a, b) == 1.0 <==> a == b
    ensures Jaccard(a, b) == 0.0 <==> a * b == {} && (a != {} || b != {})
  {
    UnionSize(a, b);
    if a != {} || b != {} {
      Ratio(|a * b|, |a + b|);
      if a == b { assert a * b == a == a + b; }
    }
  }

  lemma {:induction false} JaccardSymmetric(a: set<string>, b: set<string>)
    ensures Jaccard(a, b) == Jaccard(b, a)
  {
    assert a * b == b * a && a + b == b + a;
  }

  /** A dotted path, a scope resolution, or a camelCase hump. */
  predicate IsIdentifier(t: string) {
    || (exists i :: 0 <= i < |t| && t[i] == '.')
    || (exists i :: 0 <= i < |t| - 1 && t[i] == ':' && t[i + 1] == ':')
    || (exists i :: 0 <= i < |t| - 1 && 'a' <= t[i] <= 'z' && 'A' <= t[i + 1] <= 'Z')
  }

  /** A token names something exactly if it has a dot, a double colon, or a capital right after a small letter. */
  lemma {:induction false} IdentifierShapes(before: string, after: string, small: char, capital: char)
    requires 'a' <= small <= 'z' && 'A' <= capital <= 'Z'
    ensures IsIdentifier(before + "." + after) && IsIdentifier(before + "::" + after)
    ensures IsIdentifier(before + [small, capital] + after)
    ensures '.' !in before && ':' !in before && (forall c <- before :: !('A' <= c <= 'Z')) ==> !IsIdentifier(before)
  {
    assert (before + "." + after)[|before|] == '.';
    assert (before + "::" + after)[|before|..|before| + 2] == "::";
    var t := before + [small, capital] + after;
    assert t[|before|] == small && t[|before| + 1] == capital;
    assert forall k :: 0 <= k < |before| ==> before[k] in before;
    assert (before + "::" + after)[|before|] == ':' && (before + "::" + after)[|before| + 1] == ':';
  }

  function IdentifierTokens(tokens: set<string>): set<string> {
    set t | t in tokens && IsIdentifier(t)
  }

  /** Similarity over identifier tokens when either side has any, else over all tokens. */
  function IdentifierJaccard(query: set<string>, other: set<string>): (r: real)
    ensures 0.0 <= r <= 1.0
  {
    var qi, oi := IdentifierTokens(query), IdentifierTokens(other);
    if qi != {} || oi != {} then Jaccard(qi, oi) else Jaccard(query, other)
  }

  /** Shared boilerplate cannot inflate the score: with an identifier on either side, words that are
      not identifiers do not count, and disjoint identifiers score nothing. */
  lemma {:induction false} BoilerplateDoesNotCount(query: set<string>, other: set<string>, words: set<string>)
    requires IdentifierTokens(query) != {} || IdentifierTokens(other) != {}
    requires forall w :: w in words ==> !IsIdentifier(w)
    ensures IdentifierJaccard(query + words, other + words) == IdentifierJaccard(query, other)
    ensures IdentifierTokens(query) !! IdentifierTokens(other) ==>
        IdentifierJaccard(query + words, other + words) == 0.0
  {
    assert IdentifierTokens(query + words) == IdentifierTokens(query);
    assert IdentifierTokens(other + words) == IdentifierTokens(other);
    JaccardExtremes(IdentifierTokens(query), IdentifierTokens(other));
  }

  /** Which tokens are compared: the identifiers if either side has one, and otherwise all of them; the similarity
      is the share of the common ones. */
  lemma {:induction false} IdentifiersDecide(query: set<string>, other: set<string>)
    ensures var a, b := set t | t in query && IsIdentifier(t), set t | t in other && IsIdentifier(t);
      var r := IdentifierJaccard(query, other);
      if a + b != {} then r * |a + b| as real == |a * b| as real
      else if query + other != {} then r * |query + other| as real == |query * other| as real
      else r == 1.0
  {
    hide Jaccard;
    assert IdentifierTokens(query) == set t | t in query && IsIdentifier(t);
    assert IdentifierTokens(other) == set t | t in other && IsIdentifier(t);
    assert IdentifierTokens(query) + IdentifierTokens(other) == {} ==>
      IdentifierTokens(query) == {} && IdentifierTokens(other) == {};
  }

  /** Identifiers decide as soon as there are any: full similarity means the same identifiers, and the same
      tokens only where neither side has one; none means disjoint identifiers, or disjoint tokens. */
  lemma {:induction false} IdentifierJaccardExtremes(query: set<string>, other: set<string>)
    ensures var qi, oi := IdentifierTokens(query), IdentifierTokens(other);
      && (IdentifierJaccard(query, other) == 1.0 <==> qi == oi && (qi == {} ==> query == other))
      && (IdentifierJaccard(query, other) == 0.0 <==>
            if qi != {} || oi != {} then qi * oi == {} else query * other == {} && (query != {} || other != {}))
  {
    JaccardExtremes(IdentifierTokens(query), IdentifierTokens(other));
    JaccardExtremes(query, other);
  }
}
