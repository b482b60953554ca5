/**
 The statement splitter of the migration runner (src/analyzer_ng/db/migrate.py).

 A script is read by a lexer with three modes: plain SQL, a single-quoted literal,
 and a dollar-quoted body. Comments exist only in plain SQL and vanish in one step.
 `Lex` is that lexer as a function; `SplitStatements` is the loop of the source,
 proved equal to it. The results are about what survives joining and re-splitting.
 */
module SqlScript {
  import opened Wrappers

  // ----- characters -------------------------------------------------------

  /** The whitespace that Python's `str.strip` removes. */
  predicate IsSpace(c: char) {
    || '\t' <= c <= '\r' || '\U{1C}' <= c <= ' ' || c == '\U{85}' || c == '\U{A0}'
    || c == '\U{1680}' || '\U{2000}' <= c <= '\U{200A}' || c == '\U{2028}' || c == '\U{2029}'
    || c == '\U{202F}' || c == '\U{205F}' || c == '\U{3000}'
  }

  predicate TagChar(c: char) {
    'A' <= c <= 'Z' || 'a' <= c <= 'z' || c == '_' || '0' <= c <= '9'
  }

  /** Length of the match of `[A-Za-z_0-9]*\$` at the start of `s`; 0 when there is none. */
  function TagTail(s: string): (n: nat)
    ensures n <= |s|
    ensures forall k :: 0 <= k < n - 1 ==> TagChar(s[k])
    ensures n > 0 ==> s[n - 1] == '$'
    ensures n == 0 ==> s == "" || s[0] != '$'
  {
    if s == "" then 0
    else if s[0] == '$' then 1
    else if TagChar(s[0]) && TagTail(s[1..]) > 0 then 1 + TagTail(s[1..])
    else 0
  }

  type Tag = t: string | |t| >= 2 && t[0] == '$' && TagTail(t[1..]) == |t| - 1 witness "$$"

  lemma {:induction false} TagTailOfPrefix(s: string)
    requires TagTail(s) > 0
    ensures TagTail(s[..TagTail(s)]) == TagTail(s)
  {
    if s[0] != '$' {
      TagTailOfPrefix(s[1..]);
      assert s[..TagTail(s)][1..] == s[1..][..TagTail(s[1..])];
    }
  }

  /** The dollar tag that opens `s`. */
  function TagAt(s: string): (tag: Tag)
    requires s != "" && s[0] == '$' && TagTail(s[1..]) > 0
    ensures tag == s[..1 + TagTail(s[1..])]
  {
    TagTailOfPrefix(s[1..]);
    assert s[..1 + TagTail(s[1..])][1..] == s[1..][..TagTail(s[1..])];
    s[..1 + TagTail(s[1..])]
  }

  /** Length of the text up to, and not including, the next line feed. */
  function LineLength(s: string): (n: nat)
    ensures n <= |s|
    ensures forall k :: 0 <= k < n ==> s[k] != '\n'
    ensures n < |s| ==> s[n] == '\n'
  {
    if s == "" || s[0] == '\n' then 0 else 1 + LineLength(s[1..])
  }

  function StripLeft(s: string): string {
    if s != "" && IsSpace(s[0]) then StripLeft(s[1..]) else s
  }

  function StripRight(s: string): string {
    if s != "" && IsSpace(s[|s| - 1]) then StripRight(s[..|s| - 1]) else s
  }

  function Strip(s: string): string {
    StripRight(StripLeft(s))
  }

  // ----- the lexer --------------------------------------------------------

  datatype Mode = Normal | Quote | Dollar(tag: Tag)

  /** One step: keep `n` characters and change mode, drop a comment, or end the statement. */
  datatype Step = Emit(n: nat, next: Mode) | Skip(n: nat) | Cut

  function Next(m: Mode, s: string): (step: Step)
    requires s != ""
    ensures step.Emit? ==> 1 <= step.n <= |s|
    ensures step.Skip? ==> m.Normal? && 2 <= step.n <= |s|
    ensures step.Cut? ==> m.Normal? && s[0] == ';'
  {
    match m
    case Dollar(tag) =>
      if tag <= s then Emit(|tag|, Normal) else Emit(1, m)
    case Quote =>
      if s[0] != '\'' then Emit(1, Quote)
      else if |s| > 1 && s[1] == '\'' then Emit(2, Quote)
      else Emit(1, Normal)
    case Normal =>
      if s[0] == '-' && |s| > 1 && s[1] == '-' then
        assert LineLength(s) == 1 + LineLength(s[1..]) && LineLength(s[1..]) == 1 + LineLength(s[1..][1..]);
        Skip(LineLength(s))
      else if s[0] == '\'' then Emit(1, Quote)
      else if s[0] == '$' && TagTail(s[1..]) > 0 then
        Emit(1 + TagTail(s[1..]), Dollar(TagAt(s)))
      else if s[0] == ';' then Cut
      else Emit(1, Normal)
  }

  /** A comment is dropped exactly in plain SQL at two hyphens, up to the line feed or the end; a statement ends
      exactly in plain SQL at a semicolon. */
  lemma {:induction false} StepOutOfText(m: Mode, s: string)
    requires s != ""
    ensures Next(m, s).Skip? <==> m.Normal? && "--" <= s
    ensures Next(m, s).Skip? ==>
      var n := Next(m, s).n; '\n' !in s[..n] && (n < |s| ==> s[n] == '\n')
    ensures Next(m, s).Cut? <==> m.Normal? && s[0] == ';'
  {
  }

  /** What a text lexes to: the statement in progress, the statements after it, the last mode. */
  datatype Lexed = Lexed(head: string, rest: seq<string>, end: Mode) {
    function Prepend(s: string): Lexed { Lexed(s + head, rest, end) }
    function Chunks(): seq<string> { [head] + rest }
  }

  function Lex(m: Mode, s: string): Lexed
    decreases |s|
  {
    if s == "" then Lexed("", [], m)
    else
      match Next(m, s)
      case Emit(n, next) => Lex(next, s[n..]).Prepend(s[..n])
      case Skip(n) => Lex(m, s[n..])
      case Cut => var r := Lex(Normal, s[1..]); Lexed("", r.Chunks(), r.end)
  }

  /** Strip every chunk and drop the blank ones. */
  function Statements(chunks: seq<string>): seq<string> {
    if chunks == [] then []
    else
      var t := Strip(chunks[0]);
      (if t == "" then [] else [t]) + Statements(chunks[1..])
  }

  function Split(script: string): seq<string> {
    Statements(Lex(Normal, script).Chunks())
  }

  // ----- the loop of the source -------------------------------------------

  function ModeOf(inSingleQuote: bool, dollarTag: Option<Tag>): Mode {
    match dollarTag
    case Some(tag) => Dollar(tag)
    case None => if inSingleQuote then Quote else Normal
  }

  lemma {:induction false} PrependTwice(l: Lexed, a: string, b: string)
    ensures l.Prepend(b).Prepend(a) == l.Prepend(a + b)
  {
    assert a + (b + l.head) == (a + b) + l.head;
  }

  /** The statements still to come when `buffer` is held and `script[i..]` is unread. */
  function Pending(m: Mode, script: string, i: nat, buffer: string): seq<string>
    requires i <= |script|
  {
    Statements(Lex(m, script[i..]).Prepend(buffer).Chunks())
  }

  lemma {:induction false} PendingEmit(m: Mode, script: string, i: nat, buffer: string, token: string, next: Mode)
    requires i < |script| && token <= script[i..] && Next(m, script[i..]) == Emit(|token|, next)
    ensures Pending(m, script, i, buffer) == Pending(next, script, i + |token|, buffer + token)
  {
    var s := script[i..];
    assert s[|token|..] == script[i + |token|..] && s[..|token|] == token;
    PrependTwice(Lex(next, s[|token|..]), buffer, token);
  }

  lemma {:induction false} PendingSkip(m: Mode, script: string, i: nat, buffer: string, n: nat)
    requires i < |script| && Next(m, script[i..]) == Skip(n)
    ensures Pending(m, script, i, buffer) == Pending(m, script, i + n, buffer)
  {
    assert script[i..][n..] == script[i + n..];
  }

  function Keep(statements: seq<string>, buffer: string): seq<string> {
    if Strip(buffer) != "" then statements + [Strip(buffer)] else statements
  }

  lemma {:induction false} PendingCut(m: Mode, script: string, i: nat, buffer: string, done: seq<string>)
    requires i < |script| && Next(m, script[i..]) == Cut
    ensures done + Pending(m, script, i, buffer) == Keep(done, buffer) + Pending(Normal, script, i + 1, "")
  {
    var r := Lex(Normal, script[i + 1..]);
    assert script[i..][1..] == script[i + 1..];
    assert buffer + "" == buffer && "" + r.head == r.head;
    assert Lex(m, script[i..]).Prepend(buffer).Chunks() == [buffer] + r.Chunks();
    assert ([buffer] + r.Chunks())[1..] == r.Chunks();
  }

  lemma {:induction false} PendingStart(script: string)
    ensures Pending(Normal, script, 0, "") == Split(script)
  {
    assert script[0..] == script && "" + Lex(Normal, script).head == Lex(Normal, script).head;
  }

  lemma {:induction false} PendingEnd(m: Mode, script: string, buffer: string, done: seq<string>)
    ensures done + Pending(m, script, |script|, buffer) == Keep(done, buffer)
  {
    assert buffer + "" == buffer;
    assert Lex(m, script[|script|..]).Prepend(buffer).Chunks() == [buffer];
    assert [buffer][1..] == [];
    assert Statements([buffer]) == if Strip(buffer) == "" then [] else [Strip(buffer)];
  }

  method SplitStatements(script: string) returns (statements: seq<string>)
    ensures statements == Split(script)
  {
    hide Pending, Split, Strip, LineLength, TagTail;
    statements := [];
    var buffer := "";
    var i := 0;
    var inSingleQuote := false;
    var dollarTag: Option<Tag> := None;
    PendingStart(script);
    while i < |script|
      invariant i <= |script|
      invariant dollarTag.Some? ==> !inSingleQuote
      invariant statements + Pending(ModeOf(inSingleQuote, dollarTag), script, i, buffer) == Split(script)
    {
      var ch := script[i];
      ghost var m := ModeOf(inSingleQuote, dollarTag);
      if dollarTag.Some? {
        if dollarTag.value <= script[i..] {
          PendingEmit(m, script, i, buffer, dollarTag.value, Normal);
          buffer := buffer + dollarTag.value;
          i := i + |dollarTag.value|;
          dollarTag := None;
        } else {
          PendingEmit(m, script, i, buffer, [ch], m);
          buffer := buffer + [ch];
          i := i + 1;
        }
      } else if inSingleQuote {
        if ch == '\'' {
          if i + 1 < |script| && script[i + 1] == '\'' {
            PendingEmit(m, script, i, buffer, [ch, '\''], Quote);
            buffer := buffer + [ch, '\''];
            i := i + 2;
          } else {
            PendingEmit(m, script, i, buffer, [ch], Normal);
            buffer := buffer + [ch];
            inSingleQuote := false;
            i := i + 1;
          }
        } else {
          PendingEmit(m, script, i, buffer, [ch], Quote);
          buffer := buffer + [ch];
          i := i + 1;
        }
      } else if ch == '-' && i + 1 < |script| && script[i + 1] == '-' {
        PendingSkip(m, script, i, buffer, LineLength(script[i..]));
        i := i + LineLength(script[i..]);
      } else if ch == '\'' {
        PendingEmit(m, script, i, buffer, [ch], Quote);
        inSingleQuote := true;
        buffer := buffer + [ch];
        i := i + 1;
      } else {
        assert script[i..][1..] == script[i + 1..];
        if ch == '$' && TagTail(script[i + 1..]) > 0 {
          var tag := TagAt(script[i..]);
          PendingEmit(m, script, i, buffer, tag, Dollar(tag));
          dollarTag := Some(tag);
          buffer := buffer + tag;
          i := i + |tag|;
        } else if ch == ';' {
          PendingCut(m, script, i, buffer, statements);
          var statement := Strip(buffer);
          if statement != "" {
            statements := statements + [statement];
          }
          buffer := "";
          i := i + 1;
        } else {
          PendingEmit(m, script, i, buffer, [ch], Normal);
          buffer := buffer + [ch];
          i := i + 1;
        }
      }
    }
    PendingEnd(ModeOf(inSingleQuote, dollarTag), script, buffer, statements);
    var tail := Strip(buffer);
    if tail != "" {
      statements := statements + [tail];
    }
  }

  // ----- lexing a concatenation -------------------------------------------

  /** `c` lexes, on its own, to itself: nothing in it is dropped and nothing cuts it. */
  predicate Faithful(m: Mode, c: string, end: Mode) {
    Lex(m, c) == Lexed(c, [], end)
  }

  /** A text whose first character cannot complete a token that began before it. */
  predicate Detached(r: string) {
    r != "" ==> r[0] != '-' && r[0] != '\'' && r[0] != '$' && !TagChar(r[0])
  }

  lemma {:induction false} TagTailStops(c: string, r: string)
    requires Detached(r)
    ensures TagTail(c + r) == TagTail(c)
  {
    if c == "" {
      assert c + r == r;
    } else {
      assert (c + r)[1..] == c[1..] + r;
      TagTailStops(c[1..], r);
    }
  }

  lemma {:induction false} TagCharsOnly(tag: Tag, k: nat)
    requires k < |tag|
    ensures tag[k] == '$' || TagChar(tag[k])
  {
    if k > 0 {
      assert tag[1..][k - 1] == tag[k];
    }
  }

  /** A detached continuation does not change the step taken on the text before it. */
  lemma {:induction false} NextDetached(m: Mode, c: string, r: string)
    requires c != "" && Detached(r) && !Next(m, c).Skip?
    ensures Next(m, c + r) == Next(m, c)
  {
    match m
    case Dollar(tag) =>
      if tag <= c + r && !(tag <= c) {
        assert tag[|c|] == (c + r)[|c|] == r[0];
        TagCharsOnly(tag, |c|);
        assert false;
      }
    case Quote =>
    case Normal => NextDetachedNormal(c, r);
  }

  lemma {:induction false} NextDetachedNormal(c: string, r: string)
    requires c != "" && Detached(r) && !Next(Normal, c).Skip?
    ensures Next(Normal, c + r) == Next(Normal, c)
  {
    hide TagTail, LineLength;
    StepOutOfText(Normal, c);
    assert (c + r)[1..] == c[1..] + r;
    TagTailStops(c[1..], r);
    assert !("--" <= c + r) by {
      if |c| == 1 && r != "" {
        assert (c + r)[1] == r[0];
      }
    }
    var n := TagTail(c[1..]);
    assert (c + r)[..1 + n] == c[..1 + n];
  }

  lemma {:induction false} SliceJoin(c: string, r: string, n: nat)
    requires n <= |c|
    ensures (c + r)[n..] == c[n..] + r && (c + r)[..n] == c[..n] && c == c[..n] + c[n..]
  {
  }

  lemma {:induction false} LexAfter(m: Mode, c: string, end: Mode, r: string)
    requires Faithful(m, c, end) && Detached(r)
    ensures Lex(m, c + r) == Lex(end, r).Prepend(c)
    decreases |c|
  {
    if c == "" {
      assert c + r == r;
      assert "" + Lex(end, r).head == Lex(end, r).head;
    } else {
      FaithfulEmits(m, c, end);
      var Emit(n, next) := Next(m, c);
      NextDetached(m, c, r);
      LexAfter(next, c[n..], end, r);
      SliceJoin(c, r, n);
      PrependTwice(Lex(end, r), c[..n], c[n..]);
      LexEmit(m, c + r, n, next);
    }
  }

  lemma {:induction false} LexEmit(m: Mode, s: string, n: nat, next: Mode)
    requires s != "" && Next(m, s) == Emit(n, next)
    ensures Lex(m, s) == Lex(next, s[n..]).Prepend(s[..n])
  {
  }

  /** Lexing never invents characters. */
  lemma {:induction false} LexShrinks(m: Mode, s: string)
    ensures |Lex(m, s).head| <= |s|
    decreases |s|
  {
    if s != "" {
      match Next(m, s)
      case Emit(n, next) => LexShrinks(next, s[n..]);
      case Skip(n) => LexShrinks(m, s[n..]);
      case Cut =>
    }
  }

  lemma {:induction false} FaithfulEmits(m: Mode, c: string, end: Mode)
    requires Faithful(m, c, end) && c != ""
    ensures Next(m, c).Emit? && Faithful(Next(m, c).next, c[Next(m, c).n..], end)
  {
    match Next(m, c)
    case Skip(n) => LexShrinks(m, c[n..]);
    case Cut =>
    case Emit(n, next) =>
      var r := Lex(next, c[n..]);
      assert c == c[..n] + r.head;
      assert c[n..] == (c[..n] + r.head)[n..] == r.head;
  }

  // ----- every chunk is faithful ------------------------------------------

  /** The statement in progress begins as the text does, unless a comment stood there. */
  lemma {:induction false} HeadFirst(m: Mode, s: string)
    ensures var h := Lex(m, s).head; h == "" || h[0] == '\n' || (s != "" && h[0] == s[0])
    decreases |s|
  {
    if s != "" {
      match Next(m, s)
      case Emit(n, next) =>
      case Skip(n) => if s[n..] != "" { assert !Next(m, s[n..]).Skip?; HeadFirst(m, s[n..]); }
      case Cut =>
    }
  }

  lemma {:induction false} TagTailOfHead(s: string)
    requires TagTail(Lex(Normal, s).head) > 0
    ensures TagTail(s) > 0
    decreases |s|
  {
    var h := Lex(Normal, s).head;
    HeadFirst(Normal, s);
    if s[0] != '$' {
      assert Next(Normal, s) == Emit(1, Normal);
      assert h[1..] == Lex(Normal, s[1..]).head;
      TagTailOfHead(s[1..]);
    }
  }

  /** Inside a dollar body the text passes unchanged for at least the length of its tag. */
  lemma {:induction false} DollarPrefix(tag: Tag, s: string, p: string)
    requires |p| <= |tag| && p <= Lex(Dollar(tag), s).head
    ensures p <= s
    decreases |s|
  {
    if s != "" && p != "" {
      if tag <= s {
        var h := Lex(Dollar(tag), s).head;
        assert h[..|tag|] == tag;
        assert p == h[..|p|] == s[..|p|];
      } else {
        var r := Lex(Dollar(tag), s[1..]).head;
        assert Lex(Dollar(tag), s).head == [s[0]] + r;
        assert p[1..] <= r;
        DollarPrefix(tag, s[1..], p[1..]);
        assert p == [p[0]] + p[1..] && s == [s[0]] + s[1..];
      }
    }
  }

  /** The step taken on the text is the step taken on what that text emits. */
  lemma {:induction false} NextOnHead(m: Mode, s: string)
    requires s != "" && Next(m, s).Emit?
    ensures var n := Next(m, s).n;
      var h := Lex(m, s).head;
      Next(m, h) == Next(m, s) && h[..n] == s[..n] && h[n..] == Lex(Next(m, s).next, s[n..]).head
  {
    HeadOfEmit(m, s);
    match m
    case Dollar(tag) => NextOnHeadDollar(tag, s);
    case Quote => NextOnHeadPlain(m, s);
    case Normal => if s[0] == '$' { NextOnHeadTag(s); } else { NextOnHeadPlain(m, s); }
  }

  lemma {:induction false} HeadOfEmit(m: Mode, s: string)
    requires s != "" && Next(m, s).Emit?
    ensures var n, h := Next(m, s).n, Lex(m, s).head;
      n <= |h| && h[..n] == s[..n] && h[n..] == Lex(Next(m, s).next, s[n..]).head
  {
    hide Next;
    var Emit(n, next) := Next(m, s);
    SliceJoin(s[..n], Lex(next, s[n..]).head, n);
  }

  lemma {:induction false} NextOnHeadPlain(m: Mode, s: string)
    requires s != "" && Next(m, s).Emit? && !m.Dollar? && (m.Normal? ==> s[0] != '$')
    ensures Next(m, Lex(m, s).head) == Next(m, s)
  {
    hide TagTail, LineLength;
    var Emit(n, next) := Next(m, s);
    HeadOfEmit(m, s);
    HeadFirst(next, s[n..]);
    var h := Lex(m, s).head;
    assert h[0] == h[..n][0] == s[0];
    assert n == 1 && |h| > 1 ==> h[1] == h[n..][0];
    assert n == 2 ==> h[1] == h[..n][1];
  }

  lemma {:induction false} NextOnHeadDollar(tag: Tag, s: string)
    requires s != ""
    ensures Next(Dollar(tag), Lex(Dollar(tag), s).head) == Next(Dollar(tag), s)
  {
    var h := Lex(Dollar(tag), s).head;
    if tag <= h {
      DollarPrefix(tag, s, tag);
    }
  }

  lemma {:induction false} TagToken(tag: Tag, r: string)
    ensures Next(Normal, tag + r) == Emit(|tag|, Dollar(tag))
  {
    TagTailGrows(tag[1..], r);
    assert (tag + r)[1..] == tag[1..] + r && (tag + r)[..|tag|] == tag;
  }

  lemma {:induction false} NextOnHeadTag(s: string)
    requires s != "" && s[0] == '$'
    ensures Next(Normal, Lex(Normal, s).head) == Next(Normal, s)
  {
    if TagTail(s[1..]) > 0 {
      var tag := Next(Normal, s).next.tag;
      LexEmit(Normal, s, |tag|, Dollar(tag));
      TagToken(tag, Lex(Dollar(tag), s[|tag|..]).head);
    } else {
      NoTagOnHead(s);
    }
  }

  lemma {:induction false} NoTagOnHead(s: string)
    requires s != "" && s[0] == '$' && TagTail(s[1..]) == 0
    ensures Next(Normal, Lex(Normal, s).head) == Next(Normal, s)
  {
    var r := Lex(Normal, s[1..]).head;
    assert Lex(Normal, s).head == [s[0]] + r;
    assert Lex(Normal, s).head[1..] == r;
    if TagTail(r) > 0 { TagTailOfHead(s[1..]); }
  }

  lemma {:induction false} TagTailGrows(c: string, r: string)
    requires TagTail(c) > 0
    ensures TagTail(c + r) == TagTail(c)
  {
    if c[0] != '$' {
      assert (c + r)[1..] == c[1..] + r;
      TagTailGrows(c[1..], r);
    }
  }

  /** The mode in which the first chunk of a text ends. */
  function HeadEnd(m: Mode, s: string): Mode
    decreases |s|
  {
    if s == "" then m
    else
      match Next(m, s)
      case Emit(n, next) => HeadEnd(next, s[n..])
      case Skip(n) => HeadEnd(m, s[n..])
      case Cut => Normal
  }

  lemma {:induction false} HeadFaithful(m: Mode, s: string)
    ensures Faithful(m, Lex(m, s).head, HeadEnd(m, s))
    ensures Lex(m, s).rest == [] ==> HeadEnd(m, s) == Lex(m, s).end
    ensures Lex(m, s).rest != [] ==> HeadEnd(m, s) == Normal
    decreases |s|
  {
    if s != "" {
      match Next(m, s)
      case Emit(n, next) =>
        HeadFaithful(next, s[n..]);
        NextOnHead(m, s);
      case Skip(n) => HeadFaithful(m, s[n..]);
      case Cut =>
    }
  }

  // ----- stripping keeps faithfulness -------------------------------------

  lemma {:induction false} SpaceIsDetached(c: string)
    requires c != "" && IsSpace(c[0])
    ensures Detached(c) && c[0] != ';'
  {
  }

  lemma {:induction false} StripLeftFaithful(c: string, end: Mode)
    requires Faithful(Normal, c, end)
    ensures Faithful(Normal, StripLeft(c), end)
  {
    if c != "" && IsSpace(c[0]) {
      FaithfulEmits(Normal, c, end);
      StripLeftFaithful(c[1..], end);
    }
  }

  lemma {:induction false} StripRightFaithful(c: string, end: Mode)
    requires Faithful(Normal, c, end)
    ensures Faithful(Normal, StripRight(c), end)
  {
    if c != "" && IsSpace(c[|c| - 1]) {
      DropSpace(Normal, c, end);
      StripRightFaithful(c[..|c| - 1], end);
    }
  }

  /** A trailing space is a token of its own, so dropping it changes nothing else. */
  lemma {:induction false} DropSpace(m: Mode, c: string, end: Mode)
    requires Faithful(m, c, end) && c != "" && IsSpace(c[|c| - 1])
    ensures Faithful(m, c[..|c| - 1], end)
    decreases |c|
  {
    hide Next;
    FaithfulEmits(m, c, end);
    var Emit(n, next) := Next(m, c);
    var d := c[..|c| - 1];
    var last := [c[|c| - 1]];
    assert c == d + last;
    SpaceIsDetached(last);
    if n == |c| {
      SpaceEndsNoToken(m, c);
      assert d == "";
    } else {
      DropSpace(next, c[n..], end);
      assert c[n..][..|c[n..]| - 1] == d[n..];
      SameStepWithoutLast(m, d, last);
      SliceJoin(d, last, n);
      LexEmit(m, d, n, next);
    }
  }

  lemma {:induction false} SpaceEndsNoToken(m: Mode, c: string)
    requires c != "" && IsSpace(c[|c| - 1]) && Next(m, c).Emit? && Next(m, c).n == |c|
    ensures |c| == 1 && Next(m, c).next == m
  {
    match m
    case Dollar(tag) => if tag <= c { TagCharsOnly(tag, |c| - 1); }
    case Quote =>
    case Normal =>
  }

  lemma {:induction false} SameStepWithoutLast(m: Mode, d: string, r: string)
    requires d != "" && Detached(r) && Next(m, d + r).Emit?
    ensures Next(m, d) == Next(m, d + r)
  {
    if !Next(m, d).Skip? {
      NextDetached(m, d, r);
    }
  }

  lemma {:induction false} StripRightEnds(s: string)
    ensures StripRight(s) <= s
    ensures StripRight(s) == "" || !IsSpace(StripRight(s)[|StripRight(s)| - 1])
    ensures StripRight(StripRight(s)) == StripRight(s)
  {
    if s != "" && IsSpace(s[|s| - 1]) { StripRightEnds(s[..|s| - 1]); }
  }

  lemma {:induction false} StripLeftEnds(s: string)
    ensures StripLeft(s) == "" || !IsSpace(StripLeft(s)[0])
  {
    if s != "" && IsSpace(s[0]) { StripLeftEnds(s[1..]); }
  }

  lemma {:induction false} StripTwice(s: string)
    ensures Strip(Strip(s)) == Strip(s)
  {
    StripLeftEnds(s);
    StripRightEnds(StripLeft(s));
  }

  // ----- the round trips --------------------------------------------------

  /** A statement in its own right: not blank, stripped, and lexing to itself alone. */
  predicate SelfContained(t: string, end: Mode) {
    t != "" && Strip(t) == t && Faithful(Normal, t, end)
  }

  /** Every statement but the last one also leaves the lexer in plain SQL. */
  predicate WellFormed(statements: seq<string>) {
    if statements == [] then true
    else
      var end := Lex(Normal, statements[0]).end;
      && SelfContained(statements[0], end)
      && (|statements| > 1 ==> end == Normal)
      && WellFormed(statements[1..])
  }

  function Join(statements: seq<string>): string {
    if statements == [] then ""
    else if |statements| == 1 then statements[0]
    else statements[0] + ";\n" + Join(statements[1..])
  }

  /** Chunks of a text, all but the last ending in plain SQL, strip to well-formed statements. */
  lemma {:induction false} StatementsWellFormed(m: Mode, s: string, held: string)
    requires Faithful(Normal, held + Lex(m, s).head, HeadEnd(m, s))
    ensures WellFormed(Statements([held + Lex(m, s).head] + Lex(m, s).rest))
    decreases |Lex(m, s).rest|
  {
    var l := Lex(m, s);
    var c := held + l.head;
    StripLeftFaithful(c, HeadEnd(m, s));
    StripRightFaithful(StripLeft(c), HeadEnd(m, s));
    StripTwice(c);
    assert ([c] + l.rest)[1..] == l.rest;
    HeadFaithful(m, s);
    if l.rest != [] {
      var after := AfterCut(m, s);
      HeadFaithful(Normal, after);
      assert "" + Lex(Normal, after).head == Lex(Normal, after).head;
      StatementsWellFormed(Normal, after, "");
      var t := Statements(l.rest);
      if Strip(c) != "" {
        assert ([Strip(c)] + t)[1..] == t;
      } else {
        assert [] + t == t;
      }
    } else {
      assert [Strip(c)][1..] == [];
    }
  }

  /** The text that follows the first cut. */
  lemma {:induction false} AfterCut(m: Mode, s: string) returns (after: string)
    requires Lex(m, s).rest != []
    ensures Lex(m, s).rest == Lex(Normal, after).Chunks()
    ensures Lex(m, s).end == Lex(Normal, after).end
    decreases |s|
  {
    match Next(m, s)
    case Emit(n, next) => after := AfterCut(next, s[n..]);
    case Skip(n) => after := AfterCut(m, s[n..]);
    case Cut => after := s[1..];
  }

  lemma {:induction false} SplitWellFormed(script: string)
    ensures WellFormed(Split(script))
  {
    HeadFaithful(Normal, script);
    assert "" + Lex(Normal, script).head == Lex(Normal, script).head;
    StatementsWellFormed(Normal, script, "");
  }

  lemma {:induction false} LexCutNewline(r: string)
    ensures Lex(Normal, ";\n" + r) == Lexed("", Lex(Normal, r).Prepend("\n").Chunks(), Lex(Normal, r).end)
  {
    assert (";\n" + r)[1..] == "\n" + r;
    assert ("\n" + r)[1..] == r && ("\n" + r)[..1] == "\n";
    assert Next(Normal, "\n" + r) == Emit(1, Normal);
  }

  lemma {:induction false} StripNewline(s: string)
    ensures Strip("\n" + s) == Strip(s)
  {
    assert ("\n" + s)[1..] == s;
  }

  lemma {:induction false} SplitOfJoin(statements: seq<string>)
    requires WellFormed(statements)
    ensures Split(Join(statements)) == statements
  {
    if statements != [] {
      var t, more := statements[0], statements[1..];
      var end := Lex(Normal, t).end;
      if |statements| == 1 {
        assert [t][1..] == [];
        assert statements == [t];
        assert Statements([t]) == [t] + Statements([]);
      } else {
        SplitOfJoin(more);
        var j := Join(more);
        LexAfter(Normal, t, Normal, ";\n" + j);
        assert t + ";\n" + j == t + (";\n" + j);
        LexCutNewline(j);
        var l := Lex(Normal, j);
        assert t + "" == t;
        assert Lex(Normal, Join(statements)).Chunks() == [t] + l.Prepend("\n").Chunks();
        assert ([t] + l.Prepend("\n").Chunks())[1..] == l.Prepend("\n").Chunks();
        StripNewline(l.head);
        assert l.Prepend("\n").Chunks()[1..] == l.rest == l.Chunks()[1..];
        assert Statements(l.Prepend("\n").Chunks()) == more;
      }
    }
  }

  /** Joining and splitting gives back exactly the well-formed statement lists. */
  lemma {:induction false} JoinThenSplit(statements: seq<string>)
    ensures Split(Join(statements)) == statements <==> WellFormed(statements)
  {
    SplitWellFormed(Join(statements));
    if WellFormed(statements) {
      SplitOfJoin(statements);
    }
  }

  /** Splitting any script twice, with the statements rejoined in between, changes nothing. */
  lemma {:induction false} SplitThenJoin(script: string)
    ensures Split(Join(Split(script))) == Split(script)
  {
    SplitWellFormed(script);
    SplitOfJoin(Split(script));
  }

  // ----- literals, dollar bodies, and what is lost ------------------------

  function Doubled(body: string): string {
    if body == "" then "" else (if body[0] == '\'' then "''" else [body[0]]) + Doubled(body[1..])
  }

  /** A token that is read whole, whatever it is followed by. */
  lemma {:induction false} LexToken(m: Mode, token: string, s: string, next: Mode)
    requires token != "" && Next(m, token + s) == Emit(|token|, next)
    ensures Lex(m, token + s) == Lex(next, s).Prepend(token)
  {
    hide Next;
    LexEmit(m, token + s, |token|, next);
    SliceJoin(token, s, |token|);
  }

  lemma {:induction false} Associates(a: string, b: string, c: string, d: string)
    ensures a + b + c == a + (b + c) && a + b + c + d == a + (b + c + d)
  {
  }

  lemma {:induction false} QuotedTail(body: string, r: string)
    requires r != "" ==> r[0] != '\''
    ensures Lex(Quote, Doubled(body) + "'" + r) == Lex(Normal, r).Prepend(Doubled(body) + "'")
  {
    if body == "" {
      assert Doubled(body) + "'" == "'";
      LexToken(Quote, "'", r, Normal);
    } else {
      var first := if body[0] == '\'' then "''" else [body[0]];
      var more := Doubled(body[1..]) + "'";
      QuotedTail(body[1..], r);
      Associates(first, Doubled(body[1..]), "'", r);
      LexToken(Quote, first, more + r, Quote);
      PrependTwice(Lex(Normal, r), first, more);
    }
  }

  /** Any text at all, quoted with its quotes doubled, is one literal that nothing cuts. */
  lemma {:induction false} QuotedLiteralIsOpaque(body: string, r: string)
    requires r != "" ==> r[0] != '\''
    ensures Lex(Normal, "'" + Doubled(body) + "'" + r) == Lex(Normal, r).Prepend("'" + Doubled(body) + "'")
  {
    hide Lex, Doubled;
    QuotedTail(body, r);
    var more := Doubled(body) + "'";
    Associates("'", Doubled(body), "'", r);
    LexToken(Normal, "'", more + r, Quote);
    PrependTwice(Lex(Normal, r), "'", more);
  }

  /** The closing tag does not begin anywhere inside the body. */
  predicate ClosesOnlyAtEnd(tag: Tag, body: string) {
    forall k :: 0 <= k < |body| ==> !(tag <= (body + tag)[k..])
  }

  lemma {:induction false} PrefixOfPrefix(p: string, c: string, r: string)
    requires p <= c + r && |p| <= |c|
    ensures p <= c
  {
    assert forall k :: 0 <= k < |p| ==> p[k] == (c + r)[k] == c[k];
  }

  lemma {:induction false} DollarTail(tag: Tag, body: string, r: string)
    requires ClosesOnlyAtEnd(tag, body)
    ensures Lex(Dollar(tag), body + tag + r) == Lex(Normal, r).Prepend(body + tag)
  {
    if body == "" {
      assert body + tag == tag;
      SliceJoin(tag, r, |tag|);
    } else {
      var c := body + tag;
      assert c[0..] == c;
      if tag <= c + r { PrefixOfPrefix(tag, c, r); }
      assert c[1..] == body[1..] + tag && c[..1] == [body[0]];
      forall k | 0 <= k < |body[1..]| ensures !(tag <= (body[1..] + tag)[k..]) {
        assert (body[1..] + tag)[k..] == c[k + 1..];
      }
      DollarTail(tag, body[1..], r);
      SliceJoin(c, r, 1);
      PrependTwice(Lex(Normal, r), c[..1], c[1..]);
    }
  }

  /** A dollar-quoted body is one token up to its closing tag, whatever it holds. */
  lemma {:induction false} DollarBodyIsOpaque(tag: Tag, body: string, r: string)
    requires ClosesOnlyAtEnd(tag, body)
    ensures Lex(Normal, tag + body + tag + r) == Lex(Normal, r).Prepend(tag + body + tag)
  {
    DollarTail(tag, body, r);
    assert tag + body + tag == tag + (body + tag) && tag + body + tag + r == tag + (body + tag + r);
    TagToken(tag, body + tag + r);
    SliceJoin(tag, body + tag + r, |tag|);
    PrependTwice(Lex(Normal, r), tag, body + tag);
  }

  /** The whitespace of Python, spelled out. */
  lemma {:induction false} SpaceCharacters(c: char)
    ensures IsSpace(c) <==>
      || c in "\t\n\r \U{B}\U{C}\U{1C}\U{1D}\U{1E}\U{1F}\U{85}\U{A0}\U{1680}\U{2028}\U{2029}\U{202F}\U{205F}\U{3000}"
      || c in "\U{2000}\U{2001}\U{2002}\U{2003}\U{2004}\U{2005}\U{2006}\U{2007}\U{2008}\U{2009}\U{200A}"
  {
  }

  /** What a tag may hold, and nothing else, stands between its two dollar signs. */
  lemma {:induction false} TagIsWordAndDollar(word: string, r: string)
    requires r != "" ==> !TagChar(r[0])
    ensures (forall c <- word :: TagChar(c)) && "$" <= r <==> TagTail(word + r) == |word| + 1
  {
    if word == "" {
      assert word + r == r;
    } else {
      assert (word + r)[1..] == word[1..] + r;
      assert word == [word[0]] + word[1..];
      TagIsWordAndDollar(word[1..], r);
    }
  }

  /** Python's `strip`: whitespace goes at both ends, all of it, and nothing but whitespace. */
  lemma {:induction false} StripTakesSpaceOnly(s: string) returns (left: string, right: string)
    ensures s == left + Strip(s) + right
    ensures forall c <- left + right :: IsSpace(c)
    ensures Strip(s) != "" ==> !IsSpace(Strip(s)[0]) && !IsSpace(Strip(s)[|Strip(s)| - 1])
  {
    left := StripLeftTakes(s);
    right := StripRightTakes(StripLeft(s));
    StripLeftEnds(s);
    StripRightEnds(StripLeft(s));
  }

  lemma {:induction false} StripLeftTakes(s: string) returns (left: string)
    ensures s == left + StripLeft(s) && forall c <- left :: IsSpace(c)
  {
    left := "";
    if s != "" && IsSpace(s[0]) {
      var more := StripLeftTakes(s[1..]);
      left := [s[0]] + more;
    }
  }

  lemma {:induction false} StripRightTakes(s: string) returns (right: string)
    ensures s == StripRight(s) + right && forall c <- right :: IsSpace(c)
  {
    right := "";
    if s != "" && IsSpace(s[|s| - 1]) {
      var more := StripRightTakes(s[..|s| - 1]);
      right := more + [s[|s| - 1]];
    }
  }

  // ----- a script as its reader sees it ------------------------------------

  /** The parts a script is made of; the two open ones run to the end of the script. */
  datatype Piece =
    | Plain(c: char)
    | Comment(line: string)
    | Literal(body: string)
    | DollarBody(tag: Tag, body: string)
    | Separator
    | OpenLiteral(body: string)
    | OpenBody(tag: Tag, body: string)
  {
    function Text(): string {
      match this
      case Plain(c) => [c]
      case Comment(line) => "--" + line
      case Literal(body) => "'" + Doubled(body) + "'"
      case DollarBody(tag, body) => tag + body + tag
      case Separator => ";"
      case OpenLiteral(body) => "'" + Doubled(body)
      case OpenBody(tag, body) => tag + body
    }

    /** The piece is over where the text `r` begins. */
    predicate EndsBefore(r: string) {
      match this
      case Plain(c) =>
        c != ';' && c != '\'' && !(c == '-' && "-" <= r) && !(c == '$' && TagTail(r) > 0)
      case Comment(line) => '\n' !in line && (r == "" || r[0] == '\n')
      case Literal(_) => r == "" || r[0] != '\''
      case DollarBody(tag, body) => ClosesOnlyAtEnd(tag, body)
      case Separator => true
      case OpenLiteral(_) => r == ""
      case OpenBody(tag, body) => r == "" && forall k | 0 <= k <= |body| :: !(tag <= body[k..])
    }
  }

  function Written(pieces: seq<Piece>): string {
    if pieces == [] then "" else pieces[0].Text() + Written(pieces[1..])
  }

  predicate Readable(pieces: seq<Piece>) {
    pieces == [] || (pieces[0].EndsBefore(Written(pieces[1..])) && Readable(pieces[1..]))
  }

  /** A separator ends a chunk, a comment is dropped, and every other piece goes in as written. */
  function ChunksOf(pieces: seq<Piece>): (chunks: seq<string>)
    ensures chunks != []
  {
    if pieces == [] then [""]
    else
      var more := ChunksOf(pieces[1..]);
      if pieces[0].Separator? then [""] + more
      else if pieces[0].Comment? then more
      else [pieces[0].Text() + more[0]] + more[1..]
  }

  lemma {:induction false} LineIsSkipped(line: string, r: string)
    requires '\n' !in line && (r == "" || r[0] == '\n')
    ensures LineLength(line + r) == |line|
  {
    if line == "" {
      assert line + r == r;
    } else {
      assert (line + r)[1..] == line[1..] + r;
      LineIsSkipped(line[1..], r);
    }
  }

  /** A comment takes the rest of its line, without the line feed. */
  lemma {:induction false} CommentTakesItsLine(line: string, r: string)
    requires '\n' !in line && (r == "" || r[0] == '\n')
    ensures Lex(Normal, "--" + line + r) == Lex(Normal, r)
  {
    LineIsSkipped("--" + line, r);
    assert ("--" + line + r)[|"--" + line|..] == r;
  }

  lemma {:induction false} OpenLiteralIsOpaque(body: string)
    ensures Lex(Quote, Doubled(body)) == Lexed(Doubled(body), [], Quote)
  {
    if body != "" {
      var first := if body[0] == '\'' then "''" else [body[0]];
      OpenLiteralIsOpaque(body[1..]);
      LexToken(Quote, first, Doubled(body[1..]), Quote);
    }
  }

  lemma {:induction false} OpenBodyIsOpaque(tag: Tag, body: string)
    requires forall k | 0 <= k <= |body| :: !(tag <= body[k..])
    ensures Lex(Dollar(tag), body) == Lexed(body, [], Dollar(tag))
  {
    if body != "" {
      assert body[0..] == body;
      forall k | 0 <= k <= |body[1..]| ensures !(tag <= body[1..][k..]) {
        assert body[1..][k..] == body[k + 1..];
      }
      OpenBodyIsOpaque(tag, body[1..]);
      assert body == body[..1] + body[1..];
    }
  }

  /** What one piece does to the lexer, whatever stands after it. */
  lemma {:induction false} LexPiece(piece: Piece, r: string)
    requires piece.EndsBefore(r)
    ensures Lex(Normal, piece.Text() + r).Chunks()
      == if piece.Separator? then [""] + Lex(Normal, r).Chunks()
         else if piece.Comment? then Lex(Normal, r).Chunks()
         else Lex(Normal, r).Prepend(piece.Text()).Chunks()
  {
    match piece
    case Plain(c) =>
      assert ([c] + r)[1..] == r;
      LexToken(Normal, [c], r, Normal);
    case Comment(line) => CommentTakesItsLine(line, r);
    case Literal(body) => QuotedLiteralIsOpaque(body, r);
    case DollarBody(tag, body) => DollarBodyIsOpaque(tag, body, r);
    case Separator => assert (";" + r)[1..] == r;
    case OpenLiteral(body) =>
      OpenLiteralIsOpaque(body);
      LexToken(Normal, "'", Doubled(body), Quote);
      assert piece.Text() + r == "'" + Doubled(body) && "'" + Doubled(body) + "" == "'" + Doubled(body);
    case OpenBody(tag, body) =>
      OpenBodyIsOpaque(tag, body);
      TagToken(tag, body);
      LexToken(Normal, tag, body, Dollar(tag));
      assert piece.Text() + r == tag + body && tag + body + "" == tag + body;
  }

  /** The lexer reads a script piece by piece. */
  lemma {:induction false} ReadsPieceByPiece(pieces: seq<Piece>)
    requires Readable(pieces)
    ensures Lex(Normal, Written(pieces)).Chunks() == ChunksOf(pieces)
    ensures Split(Written(pieces)) == Statements(ChunksOf(pieces))
  {
    hide Lex, Piece.Text, Piece.EndsBefore;
    if pieces == [] {
      LexNothing();
    } else {
      ReadsPieceByPiece(pieces[1..]);
      LexPiece(pieces[0], Written(pieces[1..]));
    }
  }

  lemma {:induction false} LexNothing()
    ensures Lex(Normal, "") == Lexed("", [], Normal)
  {
  }

  lemma {:induction false} ReadQuote(s: string) returns (body: string, closed: bool, r: string)
    ensures closed ==> s == Doubled(body) + "'" + r && (r == "" || r[0] != '\'')
    ensures !closed ==> s == Doubled(body) && r == ""
    decreases |s|
  {
    if s == "" {
      body, closed, r := "", false, "";
    } else if s[0] == '\'' && (|s| == 1 || s[1] != '\'') {
      body, closed, r := "", true, s[1..];
      assert s == "" + "'" + s[1..];
    } else {
      var n := if s[0] == '\'' then 2 else 1;
      var more;
      more, closed, r := ReadQuote(s[n..]);
      body := [s[0]] + more;
      assert body[1..] == more;
      assert s == s[..n] + s[n..] && Doubled(body) == s[..n] + Doubled(more);
      assert closed ==> s[..n] + (Doubled(more) + "'" + r) == s[..n] + Doubled(more) + "'" + r;
    }
  }

  lemma {:induction false} ReadBody(tag: Tag, s: string) returns (body: string, closed: bool, r: string)
    ensures closed ==> s == body + tag + r && ClosesOnlyAtEnd(tag, body)
    ensures !closed ==> s == body && r == "" && forall k | 0 <= k <= |body| :: !(tag <= body[k..])
  {
    if tag <= s {
      body, closed, r := "", true, s[|tag|..];
      assert s == "" + tag + r;
    } else if s == "" {
      body, closed, r := "", false, "";
      assert ""[0..] == "";
    } else {
      var more;
      more, closed, r := ReadBody(tag, s[1..]);
      body := [s[0]] + more;
      assert s == [s[0]] + s[1..];
      if closed {
        assert s == body + tag + r;
        ReadOneMore(tag, s, more, r);
      } else {
        forall k | 0 <= k <= |body| ensures !(tag <= body[k..]) {
          assert k > 0 ==> body[k..] == more[k - 1..];
          assert body[0..] == body;
        }
      }
    }
  }

  lemma {:induction false} ReadOneMore(tag: Tag, s: string, more: string, r: string)
    requires s != "" && s == [s[0]] + more + tag + r && !(tag <= s) && ClosesOnlyAtEnd(tag, more)
    ensures ClosesOnlyAtEnd(tag, [s[0]] + more)
  {
    var c := [s[0]] + more + tag;
    forall k | 0 <= k < |[s[0]] + more| ensures !(tag <= c[k..]) {
      if k == 0 {
        assert c[0..] == c && s == c + r;
      } else {
        assert c[k..] == (more + tag)[k - 1..];
      }
    }
  }

  /** Every script is made of pieces. */
  lemma {:induction false} EveryScriptIsReadable(s: string) returns (pieces: seq<Piece>)
    ensures Readable(pieces) && Written(pieces) == s
    decreases |s|
  {
    if s == "" {
      pieces := [];
    } else {
      var piece, r := FirstPiece(s);
      var more := EveryScriptIsReadable(r);
      pieces := [piece] + more;
      assert pieces[1..] == more;
    }
  }

  lemma {:induction false} FirstComment(s: string) returns (piece: Piece, r: string)
    requires "--" <= s
    ensures s == piece.Text() + r && piece.EndsBefore(r) && |r| < |s|
  {
    var n := LineLength(s);
    piece, r := Comment(s[2..n]), s[n..];
    assert s == "--" + s[2..n] + s[n..];
  }

  lemma {:induction false} FirstLiteral(s: string) returns (piece: Piece, r: string)
    requires s != "" && s[0] == '\''
    ensures s == piece.Text() + r && piece.EndsBefore(r) && |r| < |s|
  {
    var body, closed, after := ReadQuote(s[1..]);
    assert s == "'" + s[1..];
    if closed {
      piece, r := Literal(body), after;
      assert "'" + (Doubled(body) + "'" + after) == "'" + Doubled(body) + "'" + after;
    } else {
      piece, r := OpenLiteral(body), "";
    }
  }

  lemma {:induction false} FirstBody(s: string) returns (piece: Piece, r: string)
    requires s != "" && s[0] == '$' && TagTail(s[1..]) > 0
    ensures s == piece.Text() + r && piece.EndsBefore(r) && |r| < |s|
  {
    var tag := TagAt(s);
    var body, closed, after := ReadBody(tag, s[|tag|..]);
    assert s == tag + s[|tag|..];
    if closed {
      piece, r := DollarBody(tag, body), after;
      assert tag + (body + tag + after) == tag + body + tag + after;
    } else {
      piece, r := OpenBody(tag, body), "";
    }
  }

  lemma {:induction false} FirstPiece(s: string) returns (piece: Piece, r: string)
    requires s != ""
    ensures s == piece.Text() + r && piece.EndsBefore(r) && |r| < |s|
  {
    if "--" <= s {
      piece, r := FirstComment(s);
    } else if s[0] == '\'' {
      piece, r := FirstLiteral(s);
    } else if s[0] == '$' && TagTail(s[1..]) > 0 {
      piece, r := FirstBody(s);
    } else {
      piece, r := if s[0] == ';' then Separator else Plain(s[0]), s[1..];
      assert s == [s[0]] + s[1..];
    }
  }

  function WithoutComments(pieces: seq<Piece>): seq<Piece> {
    if pieces == [] then []
    else (if pieces[0].Comment? then [] else [pieces[0]]) + WithoutComments(pieces[1..])
  }

  function Glue(chunks: seq<string>): string {
    if chunks == [] then "" else if |chunks| == 1 then chunks[0] else chunks[0] + ";" + Glue(chunks[1..])
  }

  lemma {:induction false} GlueFirst(a: string, head: string, rest: seq<string>)
    ensures Glue([a + head] + rest) == a + Glue([head] + rest)
  {
    assert ([a + head] + rest)[1..] == rest == ([head] + rest)[1..];
    assert a + head + ";" + Glue(rest) == a + (head + ";" + Glue(rest));
  }

  lemma {:induction false} GlueOfPieces(pieces: seq<Piece>)
    ensures Glue(ChunksOf(pieces)) == Written(WithoutComments(pieces))
  {
    hide Piece.Text;
    if pieces != [] {
      var more := ChunksOf(pieces[1..]);
      var others := WithoutComments(pieces[1..]);
      GlueOfPieces(pieces[1..]);
      if pieces[0].Comment? {
        assert [] + others == others;
      } else {
        assert ([pieces[0]] + others)[1..] == others;
        if pieces[0].Separator? {
          assert ([""] + more)[1..] == more;
          assert "" + ";" + Glue(more) == ";" + Glue(more);
          SeparatorText(pieces[0]);
        } else {
          GlueFirst(pieces[0].Text(), more[0], more[1..]);
          assert [more[0]] + more[1..] == more;
        }
      }
    }
  }

  lemma {:induction false} SeparatorText(piece: Piece)
    requires piece.Separator?
    ensures piece.Text() == ";"
  {
  }

  /** Only comments and separators go: the chunks, with their separators, are the script without its comments. */
  lemma {:induction false} NothingElseLost(s: string) returns (pieces: seq<Piece>)
    ensures Readable(pieces) && Written(pieces) == s
    ensures Glue(Lex(Normal, s).Chunks()) == Written(WithoutComments(pieces))
  {
    pieces := EveryScriptIsReadable(s);
    ReadsPieceByPiece(pieces);
    GlueOfPieces(pieces);
  }
}
