/**
 The screen for answers cut off by the token budget (the text functions at the top of
 src/analyzer_ng/llm/engine.py): when a text reads as cut, and how a cut text is marked.
 */
module TextScreen {
  import opened Wrappers
  import opened Sorting
  import SqlScript

  datatype Value = Text(text: string) | Flag(on: bool) | Other
  type Body = map<string, Value>

  /** The marker that trails a cut text: a space and an ellipsis. */
  const MARKER := " \U{2026}"

  predicate IsTerminal(c: char) {
    c in {'.', '!', '?', '\U{2026}', '\U{3002}', '\U{FF01}', '\U{FF1F}'}
  }

  predicate IsCloser(c: char) {
    c in {'"', '\'', '\U{201D}', '\U{2019}', '\U{300D}', '\U{300F}', '\U{FF09}', ')', ']', '}'}
  }

  predicate IsHardIncomplete(c: char) {
    c in {'{', '[', '(', '<', ':', ',', ';', '=', '/', '\\', '-', '\U{2013}', '\U{2014}'}
  }

  predicate IsSpace(c: char) { SqlScript.IsSpace(c) }

  predicate IsDangling(c: char) { IsHardIncomplete(c) || c == ' ' || c == '\t' }

  predicate IsBlank(c: char) { c == ' ' }

  /** `s` without its longest tail of characters in `p`. */
  function TrimEnd(p: char -> bool, s: string): (r: string)
    ensures r <= s
    ensures r != "" ==> !p(r[|r| - 1])
    ensures forall k :: |r| <= k < |s| ==> p(s[k])
  {
    if s != "" && p(s[|s| - 1]) then TrimEnd(p, s[..|s| - 1]) else s
  }

  function LastIndex(p: char -> bool, s: string): (r: Option<nat>)
    ensures r.Some? ==> r.value < |s| && p(s[r.value])
    ensures forall k :: (if r.Some? then r.value + 1 else 0) <= k < |s| ==> !p(s[k])
  {
    if s == "" then None
    else if p(s[|s| - 1]) then Some(|s| - 1)
    else LastIndex(p, s[..|s| - 1])
  }

  /** The text without trailing space and closing quotes or brackets. */
  function Core(text: string): string {
    TrimEnd(IsCloser, TrimEnd(IsSpace, text))
  }

  /** It ends like a finished sentence, or there is nothing to judge. */
  predicate EndsComplete(text: string) {
    Core(text) == "" || IsTerminal(Core(text)[|Core(text)| - 1])
  }

  predicate EndsHardIncomplete(text: string) {
    Core(text) != "" && IsHardIncomplete(Core(text)[|Core(text)| - 1])
  }

  predicate LooksTruncated(text: string, finish: Option<string>) {
    EndsHardIncomplete(text) || (finish == Some("length") && !EndsComplete(text))
  }

  function ClipToCleanEnd(text: string): string {
    var stripped := TrimEnd(IsSpace, text);
    var at := LastIndex(IsTerminal, stripped);
    if at.Some? then stripped[..at.value + 1]
    else
      var trimmed := TrimEnd(IsDangling, stripped);
      var gap := LastIndex(IsBlank, trimmed);
      TrimEnd(IsSpace, if gap.Some? && gap.value > 0 then trimmed[..gap.value] else trimmed)
  }

  /** The part of a cut text that is kept. */
  function Kept(text: string): string {
    if EndsHardIncomplete(text) && ClipToCleanEnd(text) != "" then ClipToCleanEnd(text)
    else TrimEnd(IsSpace, text)
  }

  function Marked(text: string): string { Kept(text) + MARKER }

  predicate CutField(output: Body, finish: Option<string>, name: string) {
    name in output && output[name].Text? && LooksTruncated(output[name].text, finish)
  }

  function IsCut(output: Body, finish: Option<string>): string -> bool { name => CutField(output, finish, name) }

  function TruncatedFields(freeText: seq<string>, output: Body, finish: Option<string>): seq<string> {
    Filter(IsCut(output, finish), freeText)
  }

  function MarkField(output: Body, name: string): Body {
    if name in output && output[name].Text? then output[name := Text(Marked(output[name].text))] else output
  }

  function MarkFields(output: Body, fields: seq<string>): Body {
    if fields == [] then output
    else MarkField(MarkFields(output, fields[..|fields| - 1]), fields[|fields| - 1])
  }

  /** Mark the cut fields and flag the payload. */
  function MarkTruncated(output: Body, fields: seq<string>): Body {
    MarkFields(output, fields)["truncated" := Flag(true)]
  }

  /** The body that is kept for an answer that came with this finish reason. */
  function Screened(freeText: seq<string>, output: Body, finish: Option<string>): Body {
    var fields := TruncatedFields(freeText, output, finish);
    if fields == [] then output else MarkTruncated(output, fields)
  }

  // ----- what decides, character by character ----------------------------------

  lemma {:induction false} TrimmedTail(p: char -> bool, s: string, tail: string)
    requires s == "" || !p(s[|s| - 1])
    requires forall k :: 0 <= k < |tail| ==> p(tail[k])
    ensures TrimEnd(p, s + tail) == s
  {
    if tail == "" {
      assert s + tail == s;
    } else {
      var n := |tail| - 1;
      assert (s + tail)[..|s + tail| - 1] == s + tail[..n];
      TrimmedTail(p, s, tail[..n]);
    }
  }

  lemma {:induction false} CloserIsNoSpace(c: char)
    ensures IsCloser(c) ==> !IsSpace(c)
  {
  }

  lemma {:induction false} CoreOf(core: string, closers: string, spaces: string)
    requires core != "" ==> !IsCloser(core[|core| - 1]) && (closers == "" ==> !IsSpace(core[|core| - 1]))
    requires forall c <- closers :: IsCloser(c)
    requires forall c <- spaces :: IsSpace(c)
    ensures Core(core + closers + spaces) == core
  {
    var shown := core + closers;
    if closers == "" {
      assert shown == core;
    } else {
      var last := closers[|closers| - 1];
      assert shown[|shown| - 1] == last && last in closers;
      CloserIsNoSpace(last);
    }
    TrimmedTail(IsSpace, shown, spaces);
    TrimmedTail(IsCloser, core, closers);
  }

  /** A text reads as cut exactly by its last character before closing quotes, brackets and space: one that never
      ends a sentence, or, where the budget ran out, any that is no full stop. */
  lemma {:induction false} LastCharacterDecides(core: string, closers: string, spaces: string, finish: Option<string>)
    requires core != "" ==>
      && core[|core| - 1] !in "\"')]}\U{201D}\U{2019}\U{300D}\U{300F}\U{FF09}"
      && (closers == "" ==> !IsSpace(core[|core| - 1]))
    requires forall c <- closers :: c in "\"')]}\U{201D}\U{2019}\U{300D}\U{300F}\U{FF09}"
    requires forall c <- spaces :: IsSpace(c)
    ensures LooksTruncated(core + closers + spaces, finish) <==>
      && core != ""
      && var last := core[|core| - 1];
         || last in "{[(<:,;=/\\-\U{2013}\U{2014}"
         || (finish == Some("length") && last !in ".!?\U{2026}\U{3002}\U{FF01}\U{FF1F}")
  {
    forall c: char ensures IsCloser(c) <==> c in "\"')]}\U{201D}\U{2019}\U{300D}\U{300F}\U{FF09}" { CharacterSets(c); }
    CoreOf(core, closers, spaces);
    if core != "" { CharacterSets(core[|core| - 1]); }
    hide IsCloser, IsHardIncomplete, IsTerminal, IsSpace;
  }

  lemma {:induction false} CharacterSets(c: char)
    ensures IsCloser(c) <==> c in "\"')]}\U{201D}\U{2019}\U{300D}\U{300F}\U{FF09}"
    ensures IsHardIncomplete(c) <==> c in "{[(<:,;=/\\-\U{2013}\U{2014}"
    ensures IsTerminal(c) <==> c in ".!?\U{2026}\U{3002}\U{FF01}\U{FF1F}"
  {
  }

  /** Every text has those three parts. */
  lemma {:induction false} EveryTextHasACore(text: string) returns (core: string, closers: string, spaces: string)
    ensures text == core + closers + spaces
    ensures core != "" ==> !IsCloser(core[|core| - 1]) && (closers == "" ==> !IsSpace(core[|core| - 1]))
    ensures (forall c <- closers :: IsCloser(c)) && forall c <- spaces :: IsSpace(c)
  {
    hide IsCloser, IsSpace;
    var shown := TrimEnd(IsSpace, text);
    core := Core(text);
    closers, spaces := shown[|core|..], text[|shown|..];
    assert core == shown[..|core|] && shown == text[..|shown|];
    assert closers == "" ==> core == shown;
  }

  /** Clipping a text without a sentence end takes the word that was cut, and what dangles behind it. */
  lemma {:induction false} ClipDropsTheCutWord(whole: string, word: string, dangling: string, spaces: string)
    requires forall c <- whole + word + dangling :: !IsTerminal(c)
    requires whole != "" && word != "" && ' ' !in word && !IsDangling(word[|word| - 1]) && !IsSpace(word[|word| - 1])
    requires (forall c <- dangling :: IsDangling(c)) && forall c <- spaces :: IsSpace(c)
    ensures ClipToCleanEnd(whole + " " + word + dangling + spaces) == TrimEnd(IsSpace, whole)
  {
    hide IsSpace, IsTerminal, IsDangling, IsHardIncomplete, IsBlank;
    var text := whole + " " + word + dangling + spaces;
    var kept := whole + " " + word;
    assert kept[|kept| - 1] == word[|word| - 1];
    var stripped := TrimEnd(IsSpace, text);
    StripsTo(kept, dangling, spaces);
    var d := stripped[|kept|..];
    forall k | 0 <= k < |d| ensures d[k] == dangling[k] && d[k] in dangling {}
    assert stripped == kept + d;
    TrimmedTail(IsDangling, kept, d);
    NoSentenceEnd(whole, word, dangling, d);
    LastBlank(whole, word);
    assert kept[..|whole|] == whole;
  }

  lemma {:induction false} NoSentenceEnd(whole: string, word: string, dangling: string, d: string)
    requires forall c <- whole + word + dangling :: !IsTerminal(c)
    requires d <= dangling
    ensures forall c <- whole + " " + word + d :: !IsTerminal(c)
  {
    assert !IsTerminal(' ');
    hide IsTerminal;
    var all := whole + word + dangling;
    assert forall c <- whole :: c in all;
    forall c | c in word ensures c in all {
      var k :| 0 <= k < |word| && word[k] == c;
      assert all[|whole| + k] == c;
    }
    forall c | c in dangling ensures c in all {
      var k :| 0 <= k < |dangling| && dangling[k] == c;
      assert all[|whole| + |word| + k] == c;
    }
    assert forall c <- d :: c in dangling;
  }

  lemma {:induction false} StripsTo(kept: string, dangling: string, spaces: string)
    requires kept != "" && !IsSpace(kept[|kept| - 1]) && forall c <- spaces :: IsSpace(c)
    ensures kept <= TrimEnd(IsSpace, kept + dangling + spaces) <= kept + dangling
  {
    var text := kept + dangling + spaces;
    var r := TrimEnd(IsSpace, text);
    assert text == kept + (dangling + spaces);
    assert text[|kept| - 1] == kept[|kept| - 1];
    forall k | |kept + dangling| <= k < |text| ensures IsSpace(text[k]) {
      assert text[k] == spaces[k - |kept + dangling|];
    }
  }

  lemma {:induction false} LastBlank(whole: string, word: string)
    requires ' ' !in word
    ensures LastIndex(IsBlank, whole + " " + word) == Some(|whole|)
  {
    var s := whole + " " + word;
    var r := LastIndex(IsBlank, s);
    assert s[|whole|] == ' ';
    assert forall k :: |whole| < k < |s| ==> s[k] == word[k - |whole| - 1];
  }

  // ----- the loops of the source --------------------------------------------

  method FindTruncated(freeText: seq<string>, output: Body, finish: Option<string>) returns (fields: seq<string>)
    ensures fields == TruncatedFields(freeText, output, finish)
  {
    fields := [];
    for i := 0 to |freeText|
      invariant fields == TruncatedFields(freeText[..i], output, finish)
    {
      var name := freeText[i];
      assert freeText[..i + 1] == freeText[..i] + [name];
      FilterSnoc(IsCut(output, finish), freeText[..i], name);
      if name in output && output[name].Text? && LooksTruncated(output[name].text, finish) {
        fields := fields + [name];
      }
    }
    assert freeText[..|freeText|] == freeText;
  }

  method Mark(output: Body, fields: seq<string>) returns (marked: Body)
    ensures marked == MarkTruncated(output, fields)
  {
    marked := output;
    for i := 0 to |fields|
      invariant marked == MarkFields(output, fields[..i])
    {
      var name := fields[i];
      assert fields[..i + 1][..i] == fields[..i];
      if name in marked && marked[name].Text? {
        var value := marked[name].text;
        var base := TrimEnd(IsSpace, value);
        if EndsHardIncomplete(value) {
          var clipped := ClipToCleanEnd(value);
          if clipped != "" { base := clipped; }
        }
        marked := marked[name := Text(base + MARKER)];
      }
    }
    assert fields[..|fields|] == fields;
    marked := marked["truncated" := Flag(true)];
  }

  // ----- what marking guarantees ---------------------------------------------

  /** Clipping keeps a beginning of the text; it ends on a sentence terminal whenever the text has one,
      and otherwise on no space. */
  lemma {:induction false} ClipKeepsABeginning(text: string)
    ensures ClipToCleanEnd(text) <= text
    ensures (exists k :: 0 <= k < |text| && IsTerminal(text[k])) ==>
      ClipToCleanEnd(text) != "" && IsTerminal(ClipToCleanEnd(text)[|ClipToCleanEnd(text)| - 1])
    ensures ClipToCleanEnd(text) != "" ==> !IsSpace(ClipToCleanEnd(text)[|ClipToCleanEnd(text)| - 1])
    ensures forall k :: |ClipToCleanEnd(text)| <= k < |text| ==> !IsTerminal(text[k])
  {
    hide IsSpace, IsTerminal, IsDangling, IsBlank;
    var stripped := TrimEnd(IsSpace, text);
    forall k | |stripped| <= k < |text| ensures !IsTerminal(text[k]) { SpaceEndsNoSentence(text[k]); }
    assert forall k :: 0 <= k < |stripped| ==> text[k] == stripped[k];
    if stripped != "" && IsTerminal(stripped[|stripped| - 1]) { SpaceEndsNoSentence(stripped[|stripped| - 1]); }
    var at := LastIndex(IsTerminal, stripped);
    if at.Some? { SpaceEndsNoSentence(stripped[at.value]); }
  }

  lemma {:induction false} SpaceEndsNoSentence(c: char)
    ensures IsSpace(c) ==> !IsTerminal(c)
  {
  }

  /** What a marked text keeps is a beginning of the original, and every whole sentence in it. */
  lemma {:induction false} MarkedKeepsABeginning(text: string)
    ensures Kept(text) <= text
    ensures forall k :: |Kept(text)| <= k < |text| ==> !IsTerminal(text[k])
    ensures EndsHardIncomplete(text) && ClipToCleanEnd(text) != "" ==> Kept(text) == ClipToCleanEnd(text)
    ensures !EndsHardIncomplete(text) ==> forall k :: |Kept(text)| <= k < |text| ==> IsSpace(text[k])
  {
    ClipKeepsABeginning(text);
    var base := TrimEnd(IsSpace, text);
    forall k | |base| <= k < |text| ensures !IsTerminal(text[k]) { assert IsSpace(text[k]); }
  }

  /** A marked text is what is kept of it, a space and an ellipsis; it is never screened again, whatever the finish
      reason. */
  lemma {:induction false} MarkedReadsComplete(text: string, finish: Option<string>)
    ensures Marked(text) == Kept(text) + " \U{2026}"
    ensures !LooksTruncated(Marked(text), finish)
  {
    var s := Marked(text);
    assert s[|s| - 1] == '\U{2026}';
    assert TrimEnd(IsSpace, s) == s;
    assert Core(s) == s;
  }

  lemma {:induction false} MarkFieldsAt(output: Body, fields: seq<string>, name: string)
    ensures MarkFields(output, fields).Keys == output.Keys
    ensures name in output && (name !in fields || !output[name].Text?) ==>
      MarkFields(output, fields)[name] == output[name]
    ensures name in output && name in fields && output[name].Text? ==>
      MarkFields(output, fields)[name].Text? &&
      exists t :: MarkFields(output, fields)[name] == Text(Marked(t))
  {
    hide Marked;
    if fields != [] {
      var n := |fields| - 1;
      MarkFieldsAt(output, fields[..n], name);
      assert fields == fields[..n] + [fields[n]];
      var before := MarkFields(output, fields[..n]);
      if name == fields[n] && name in output && output[name].Text? {
        assert MarkFields(output, fields)[name] == Text(Marked(before[name].text));
      }
    }
  }

  predicate Once(names: seq<string>) {
    names == [] || (names[|names| - 1] !in names[..|names| - 1] && Once(names[..|names| - 1]))
  }

  /** With each field named once, a cut field is the original's beginning and the marker. */
  lemma {:induction false} MarkFieldsOnce(output: Body, fields: seq<string>, name: string)
    requires Once(fields)
    requires name in fields && name in output && output[name].Text?
    ensures name in MarkFields(output, fields)
    ensures MarkFields(output, fields)[name] == Text(Marked(output[name].text))
  {
    hide Marked;
    var n := |fields| - 1;
    assert fields == fields[..n] + [fields[n]];
    MarkFieldsAt(output, fields[..n], name);
    if name != fields[n] { MarkFieldsOnce(output, fields[..n], name); }
  }

  /** No kept body has a free-text field that screens as cut under the finish reason it came with. */
  lemma {:induction false} ScreenedIsClean(freeText: seq<string>, output: Body, finish: Option<string>, name: string)
    requires name in freeText
    ensures var r := Screened(freeText, output, finish);
      name in r && r[name].Text? ==> !LooksTruncated(r[name].text, finish)
  {
    hide LooksTruncated, Marked;
    var fields := TruncatedFields(freeText, output, finish);
    var r := Screened(freeText, output, finish);
    assert CutField(output, finish, name) ==> name in fields;
    if fields != [] && name != "truncated" && CutField(r, finish, name) {
      MarkFieldsAt(output, fields, name);
      if name in fields {
        var t :| MarkFields(output, fields)[name] == Text(Marked(t));
        MarkedReadsComplete(t, finish);
      }
    }
  }

  /** A body that reads complete is kept as it came; otherwise it is flagged, every other field stands,
      and each cut field keeps a beginning of its text. */
  lemma {:induction false} ScreenedKeepsTheRest(freeText: seq<string>, output: Body, finish: Option<string>,
      name: string)
    requires Once(freeText)
    requires name in output && name != "truncated"
    ensures var r := Screened(freeText, output, finish);
      && ((forall f | f in freeText && f in output && output[f].Text? :: !LooksTruncated(output[f].text, finish)) ==>
            r == output)
      && (r == output || ("truncated" in r && r["truncated"] == Flag(true)))
      && ((exists f | f in freeText && f in output && output[f].Text? :: LooksTruncated(output[f].text, finish)) ==>
            "truncated" in r && r["truncated"] == Flag(true))
      && name in r
      && r[name] ==
           if name in freeText && output[name].Text? && LooksTruncated(output[name].text, finish)
           then Text(Marked(output[name].text)) else output[name]
  {
    hide LooksTruncated, Marked;
    var fields := TruncatedFields(freeText, output, finish);
    FilterOnce(IsCut(output, finish), freeText);
    assert forall f | f in freeText && f in output && output[f].Text? && LooksTruncated(output[f].text, finish) ::
      IsCut(output, finish)(f);
    if fields != [] {
      assert fields[0] in fields;
      MarkFieldsAt(output, fields, name);
      if name in fields { MarkFieldsOnce(output, fields, name); }
    }
  }

  lemma {:induction false} OnceSnoc(names: seq<string>, name: string)
    requires Once(names) && name !in names
    ensures Once(names + [name])
  {
    assert (names + [name])[..|names|] == names;
  }

  lemma {:induction false} FilterNone(p: string -> bool)
    ensures Filter(p, []) == []
  {
  }

  lemma {:induction false} FilterOnce(p: string -> bool, xs: seq<string>)
    requires Once(xs)
    ensures Once(Filter(p, xs))
  {
    hide Filter;
    if xs == [] {
      FilterNone(p);
    } else {
      var n := |xs| - 1;
      FilterOnce(p, xs[..n]);
      FilterSnoc(p, xs[..n], xs[n]);
      assert xs == xs[..n] + [xs[n]];
      var kept := Filter(p, xs[..n]);
      assert kept + [] == kept;
      if p(xs[n]) { OnceSnoc(kept, xs[n]); }
    }
  }
}
