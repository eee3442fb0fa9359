/** The scan skeleton of a SQL text: comments stripped, quoted regions blanked.
    Text is the bytes of the statement, each read as one character. */
module SqlLexer {

  /** What the scanner is in after some text: plain text, perhaps after one
      character that may open a comment; a comment; a quoted region, perhaps
      after a quote that may close it. */
  datatype Mode = Plain | Dash | Slash | Line | Block | Star | In(q: char) | Closing(q: char)

  predicate IsQuote(c: char) { c == '\'' || c == '"' || c == '`' }

  /** One character met in plain text. */
  function Meet(c: char): (string, Mode) {
    if c == '-' then ("", Dash)
    else if c == '/' then ("", Slash)
    else if IsQuote(c) then ("", In(c))
    else ([c], Plain)
  }

  /** The automaton: what one more character adds to the skeleton, and the mode
      it leaves. */
  function Feed(mode: Mode, c: char): (string, Mode) {
    match mode
    case Plain => Meet(c)
    case Dash => if c == '-' then ("", Line) else ("-" + Meet(c).0, Meet(c).1)
    case Slash => if c == '*' then ("", Block) else ("/" + Meet(c).0, Meet(c).1)
    case Line => if c == '\n' then ("\n", Plain) else ("", Line)
    case Block => ("", if c == '*' then Star else Block)
    case Star => if c == '/' then (" ", Plain) else ("", if c == '*' then Star else Block)
    case In(q) => ("", if c == q then Closing(q) else In(q))
    case Closing(q) => if c == q then ("", In(q)) else (" " + Meet(c).0, Meet(c).1)
  }

  /** What the end of the text adds. */
  function Flush(mode: Mode): string {
    match mode
    case Plain => ""
    case Dash => "-"
    case Slash => "/"
    case Line => ""
    case _ => " "
  }

  /** What the automaton makes of the rest of a text. */
  function Rest(mode: Mode, t: string): string
    decreases |t|
  {
    if t == [] then Flush(mode) else Feed(mode, t[0]).0 + Rest(Feed(mode, t[0]).1, t[1..])
  }

  function Skeleton(s: string): string { Rest(Plain, s) }

  // ---- The scanner refines the automaton ----

  lemma PlainOther(s: string, i: nat)
    requires i < |s| && !IsQuote(s[i])
    requires s[i] == '-' ==> i + 1 == |s| || s[i + 1] != '-'
    requires s[i] == '/' ==> i + 1 == |s| || s[i + 1] != '*'
    ensures Rest(Plain, s[i..]) == [s[i]] + Rest(Plain, s[i + 1..])
  {
  }

  /** Two characters open a comment. */
  lemma Opens(s: string, i: nat)
    requires i + 1 < |s|
    requires (s[i] == '-' && s[i + 1] == '-') || (s[i] == '/' && s[i + 1] == '*')
    ensures Rest(Plain, s[i..]) == Rest(if s[i] == '-' then Line else Block, s[i + 2..])
  {
  }

  /** A step inside a region adds nothing. */
  lemma Inside(s: string, i: nat, mode: Mode)
    requires i < |s| && Feed(mode, s[i]).0 == ""
    ensures Rest(mode, s[i..]) == Rest(Feed(mode, s[i]).1, s[i + 1..])
  {
  }

  lemma LineEnds(s: string, i: nat)
    requires i <= |s| && (i == |s| || s[i] == '\n')
    ensures Rest(Line, s[i..]) == Rest(Plain, s[i..])
  {
  }

  /** In a block comment, a star that closes nothing is like any character. */
  lemma BlockStep(s: string, i: nat)
    requires i + 1 < |s| && !(s[i] == '*' && s[i + 1] == '/')
    ensures Rest(Block, s[i..]) == Rest(Block, s[i + 1..])
  {
  }

  lemma BlockEnds(s: string, i: nat)
    requires i <= |s|
    requires i + 1 < |s| ==> s[i] == '*' && s[i + 1] == '/'
    ensures Rest(Block, s[i..]) == " " + Rest(Plain, s[(if i + 2 <= |s| then i + 2 else |s|)..])
  {
  }

  lemma QuoteEnds(s: string, i: nat, q: char)
    requires i < |s| && s[i] == q && (i + 1 == |s| || s[i + 1] != q)
    ensures Rest(In(q), s[i..]) == " " + Rest(Plain, s[i + 1..])
  {
  }

  /** Adding to the front of what is left. */
  lemma Assoc(out: string, more: string, rest: string)
    ensures out + (more + rest) == out + more + rest
  {
  }

  // The three inner loops of the scanner, each from just inside its region to
  // just past it.

  method SkipLine(s: string, start: nat) returns (i: nat)
    requires start <= |s|
    ensures start <= i <= |s| && Rest(Line, s[start..]) == Rest(Plain, s[i..])
  {
    i := start;
    while i < |s| && s[i] != '\n'
      invariant start <= i <= |s| && Rest(Line, s[i..]) == Rest(Line, s[start..])
    {
      Inside(s, i, Line);
      i := i + 1;
    }
    LineEnds(s, i);
  }

  method SkipBlock(s: string, start: nat) returns (i: nat)
    requires start <= |s|
    ensures start <= i <= |s| && Rest(Block, s[start..]) == " " + Rest(Plain, s[i..])
  {
    i := start;
    while i + 1 < |s| && !(s[i] == '*' && s[i + 1] == '/')
      invariant start <= i <= |s| && Rest(Block, s[i..]) == Rest(Block, s[start..])
    {
      BlockStep(s, i);
      i := i + 1;
    }
    BlockEnds(s, i);
    i := if i + 2 <= |s| then i + 2 else |s|;
  }

  method SkipQuoted(s: string, start: nat, quote: char) returns (i: nat)
    requires start <= |s|
    ensures start <= i <= |s| && Rest(In(quote), s[start..]) == " " + Rest(Plain, s[i..])
  {
    i := start;
    while i < |s|
      invariant start <= i <= |s| && Rest(In(quote), s[i..]) == Rest(In(quote), s[start..])
      decreases |s| - i
    {
      if s[i] == quote {
        if i + 1 < |s| && s[i + 1] == quote {
          Inside(s, i, In(quote));
          Inside(s, i + 1, Closing(quote));
          i := i + 2;
          continue;
        }
        QuoteEnds(s, i, quote);
        i := i + 1;
        return;
      }
      Inside(s, i, In(quote));
      i := i + 1;
    }
  }

  /** The index-advancing scanner makes what the automaton makes. */
  method SqlSkeleton(s: string) returns (out: string)
    ensures out == Skeleton(s)
  {
    out := "";
    var i := 0;
    assert s[0..] == s;
    while i < |s|
      invariant i <= |s|
      invariant out + Rest(Plain, s[i..]) == Skeleton(s)
      decreases |s| - i
    {
      var c := s[i];
      if c == '-' && i + 1 < |s| && s[i + 1] == '-' {
        Opens(s, i);
        i := SkipLine(s, i + 2);
      } else if c == '/' && i + 1 < |s| && s[i + 1] == '*' {
        Opens(s, i);
        i := SkipBlock(s, i + 2);
        Assoc(out, " ", Rest(Plain, s[i..]));
        out := out + " ";
      } else if IsQuote(c) {
        Inside(s, i, Plain);
        i := SkipQuoted(s, i + 1, c);
        Assoc(out, " ", Rest(Plain, s[i..]));
        out := out + " ";
      } else {
        PlainOther(s, i);
        Assoc(out, [c], Rest(Plain, s[i + 1..]));
        out := out + [c];
        i := i + 1;
      }
    }
    assert s[i..] == [];
  }

  // ---- What a skeleton looks like ----

  predicate Opening(a: char, b: char) {
    (a == '-' && b == '-') || (a == '/' && b == '*')
  }

  /** No quote, and nothing that opens a comment. */
  ghost predicate Clean(t: string) {
    && (forall i | 0 <= i < |t| :: t[i] !in ['\'', '"', '`'])
    && (forall i | 0 <= i < |t| - 1 :: !Opening(t[i], t[i + 1]))
  }

  /** What the rest of the skeleton may begin with. */
  ghost predicate Begins(mode: Mode, t: string, out: string) {
    out != [] ==>
      match mode
      case Plain => t != [] && out[0] in {t[0], ' ', '\n'}
      case Dash => out[0] in {'-', '\n'}
      case Slash => out[0] in {'/', ' '}
      case Line => out[0] == '\n'
      case _ => out[0] == ' '
  }

  lemma CleanPrepend(c: char, out: string)
    requires Clean(out) && !IsQuote(c) && (out != [] ==> !Opening(c, out[0]))
    ensures Clean([c] + out)
  {
  }

  /** In the pending modes the character held back comes out, unless it opened a
      comment. */
  lemma Pending(mode: Mode, t: string)
    requires (mode == Dash && (t == [] || t[0] != '-')) || (mode == Slash && (t == [] || t[0] != '*'))
             || (mode.Closing? && (t == [] || t[0] != mode.q))
    ensures Rest(mode, t) == Flush(mode) + Rest(Plain, t)
  {
  }

  /** The character held back comes out before the next one. */
  predicate HeldBack(mode: Mode, t: string) {
    t != [] && ((mode == Dash && t[0] != '-') || (mode == Slash && t[0] != '*') || (mode.Closing? && t[0] != mode.q))
  }

  /** Otherwise a character adds nothing, or one harmless character. */
  lemma FeedOne(mode: Mode, c: char)
    requires !HeldBack(mode, [c])
    ensures var (o, m) := Feed(mode, c);
            o == "" || (m == Plain && |o| == 1 && !IsQuote(o[0]) && o[0] != '-' && o[0] != '/')
  {
  }

  lemma HeldStep(mode: Mode, t: string, rest: string)
    requires HeldBack(mode, t) && Clean(rest) && Begins(Plain, t, rest)
    ensures Clean(Flush(mode) + rest) && Begins(mode, t, Flush(mode) + rest)
  {
    CleanPrepend(Flush(mode)[0], rest);
    assert Flush(mode) == [Flush(mode)[0]];
  }

  lemma OwnStep(mode: Mode, t: string, rest: string)
    requires t != [] && !HeldBack(mode, t) && Clean(rest) && Begins(Feed(mode, t[0]).1, t[1..], rest)
    ensures Clean(Feed(mode, t[0]).0 + rest) && Begins(mode, t, Feed(mode, t[0]).0 + rest)
  {
    var o := Feed(mode, t[0]).0;
    FeedOne(mode, t[0]);
    if o == "" {
      assert o + rest == rest;
    } else {
      assert o == [o[0]];
      CleanPrepend(o[0], rest);
    }
  }

  lemma {:induction false} RestClean(mode: Mode, t: string)
    ensures Clean(Rest(mode, t)) && Begins(mode, t, Rest(mode, t))
    decreases |t|, if mode == Plain then 0 else 1
  {
    if t != [] {
      if HeldBack(mode, t) {
        Pending(mode, t);
        RestClean(Plain, t);
        HeldStep(mode, t, Rest(Plain, t));
      } else {
        RestClean(Feed(mode, t[0]).1, t[1..]);
        OwnStep(mode, t, Rest(Feed(mode, t[0]).1, t[1..]));
      }
    }
  }

  /** A skeleton holds no quote and nothing that opens a comment. */
  lemma SkeletonClean(s: string)
    ensures Clean(Skeleton(s))
  {
    RestClean(Plain, s);
  }

  /** A text without quotes and comments is its own skeleton. */
  lemma {:induction false} CleanUnchanged(t: string)
    requires Clean(t)
    ensures Skeleton(t) == t
  {
    if t != [] {
      assert forall i | 0 <= i < |t[1..]| :: t[1..][i] == t[i + 1];
      CleanUnchanged(t[1..]);
      assert t[0..] == t && !IsQuote(t[0]);
      assert |t| > 1 ==> !Opening(t[0], t[1]);
      PlainOther(t, 0);
      assert t == [t[0]] + t[1..];
    }
  }

  /** So the scanner changes a skeleton no more. */
  lemma SkeletonIdempotent(s: string)
    ensures Skeleton(Skeleton(s)) == Skeleton(s)
  {
    SkeletonClean(s);
    CleanUnchanged(Skeleton(s));
  }

  // ---- Regions do not matter ----

  function ModeAfter(mode: Mode, t: string): Mode
    decreases |t|
  {
    if t == [] then mode else ModeAfter(Feed(mode, t[0]).1, t[1..])
  }

  function Emitted(mode: Mode, t: string): string
    decreases |t|
  {
    if t == [] then "" else Feed(mode, t[0]).0 + Emitted(Feed(mode, t[0]).1, t[1..])
  }

  lemma {:induction false} RestConcat(mode: Mode, a: string, b: string)
    ensures Rest(mode, a + b) == Emitted(mode, a) + Rest(ModeAfter(mode, a), b)
    decreases |a|
  {
    if a == [] {
      assert a + b == b;
    } else {
      var (o, m) := Feed(mode, a[0]);
      assert (a + b)[0] == a[0] && (a + b)[1..] == a[1..] + b;
      RestConcat(m, a[1..], b);
      assert o + (Emitted(m, a[1..]) + Rest(ModeAfter(m, a[1..]), b))
          == o + Emitted(m, a[1..]) + Rest(ModeAfter(m, a[1..]), b);
    }
  }

  ghost predicate RealQuote(mode: Mode) {
    mode.In? || mode.Closing? ==> IsQuote(mode.q)
  }

  lemma {:induction false} QuotesAreReal(mode: Mode, t: string)
    requires RealQuote(mode)
    ensures RealQuote(ModeAfter(mode, t))
    decreases |t|
  {
    if t != [] {
      QuotesAreReal(Feed(mode, t[0]).1, t[1..]);
    }
  }

  /** The next character would be met as plain text. */
  predicate AtTop(mode: Mode, c: char) {
    mode == Plain || (mode == Dash && c != '-') || (mode == Slash && c != '*') || (mode.Closing? && c != mode.q)
  }

  lemma TopIsPlain(mode: Mode, t: string)
    requires t != [] && AtTop(mode, t[0])
    ensures Rest(mode, t) == Flush(mode) + Rest(Plain, t)
  {
  }

  /** A quoted body: every quote in it doubled. */
  function Escaped(body: string, q: char): string {
    if body == [] then ""
    else (if body[0] == q then [q, q] else [body[0]]) + Escaped(body[1..], q)
  }

  lemma {:induction false} EscapedInside(body: string, q: char)
    ensures ModeAfter(In(q), Escaped(body, q)) == In(q) && Emitted(In(q), Escaped(body, q)) == ""
  {
    if body != [] {
      EscapedInside(body[1..], q);
      var rest := Escaped(body[1..], q);
      if body[0] == q {
        var all := [q, q] + rest;
        assert all[0] == q && all[1..] == [q] + rest && ([q] + rest)[0] == q && ([q] + rest)[1..] == rest;
      } else {
        assert ([body[0]] + rest)[1..] == rest;
      }
    }
  }

  lemma QuotedIsBlank(body: string, q: char, r: string)
    requires IsQuote(q)
    ensures Rest(Plain, [q] + Escaped(body, q) + [q] + r) == Rest(Closing(q), r)
  {
    var t := [q] + Escaped(body, q) + [q] + r;
    var inner := Escaped(body, q) + ([q] + r);
    assert t[0] == q && t[1..] == inner;
    EscapedInside(body, q);
    RestConcat(In(q), Escaped(body, q), [q] + r);
    assert ([q] + r)[0] == q && ([q] + r)[1..] == r;
  }

  /** After any text that ends in plain text, a properly escaped quoted body may be
      replaced by any other. */
  lemma QuotedBodyIrrelevant(p: string, q: char, a: string, b: string, r: string)
    requires q in ['\'', '"', '`'] && AtTop(ModeAfter(Plain, p), q)
    ensures Skeleton(p + ([q] + Escaped(a, q) + [q] + r)) == Skeleton(p + ([q] + Escaped(b, q) + [q] + r))
  {
    RestConcat(Plain, p, [q] + Escaped(a, q) + [q] + r);
    RestConcat(Plain, p, [q] + Escaped(b, q) + [q] + r);
    TopIsPlain(ModeAfter(Plain, p), [q] + Escaped(a, q) + [q] + r);
    TopIsPlain(ModeAfter(Plain, p), [q] + Escaped(b, q) + [q] + r);
    QuotedIsBlank(a, q, r);
    QuotedIsBlank(b, q, r);
  }

  /** The end of a block comment is not inside it. */
  ghost predicate Unclosed(body: string) {
    forall i | 0 <= i < |body| - 1 :: !(body[i] == '*' && body[i + 1] == '/')
  }

  lemma {:induction false} BlockIsSpace(body: string, r: string)
    requires Unclosed(body)
    ensures Rest(Block, body + ("*/" + r)) == " " + Rest(Plain, r)
  {
    var t := body + ("*/" + r);
    assert t[0..] == t;
    if body == [] {
      BlockEnds(t, 0);
      assert t[2..] == r;
    } else {
      assert t[1..] == body[1..] + ("*/" + r);
      assert t[1] == if |body| > 1 then body[1] else '*';
      BlockStep(t, 0);
      BlockIsSpace(body[1..], r);
    }
  }

  /** A closed block comment after plain text is like a space. */
  lemma BlockCommentIsSpace(p: string, body: string, r: string)
    requires AtTop(ModeAfter(Plain, p), '/') && Unclosed(body)
    ensures Skeleton(p + ("/*" + (body + ("*/" + r)))) == Skeleton(p + (" " + r))
  {
    var t := "/*" + (body + ("*/" + r));
    QuotesAreReal(Plain, p);
    RestConcat(Plain, p, t);
    RestConcat(Plain, p, " " + r);
    TopIsPlain(ModeAfter(Plain, p), t);
    TopIsPlain(ModeAfter(Plain, p), " " + r);
    assert t[0..] == t && t[2..] == body + ("*/" + r);
    Opens(t, 0);
    BlockIsSpace(body, r);
    assert (" " + r)[1..] == r;
  }

  lemma {:induction false} LineIsNothing(body: string, r: string)
    requires '\n' !in body
    ensures Rest(Line, body + ("\n" + r)) == Rest(Plain, "\n" + r)
  {
    var t := body + ("\n" + r);
    assert t[0..] == t;
    if body == [] {
      LineEnds(t, 0);
      assert t == "\n" + r;
    } else {
      assert t[0] == body[0] && t[0] in body && t[1..] == body[1..] + ("\n" + r);
      Inside(t, 0, Line);
      LineIsNothing(body[1..], r);
    }
  }

  /** A line comment after plain text is like nothing. */
  lemma LineCommentIsNothing(p: string, body: string, r: string)
    requires AtTop(ModeAfter(Plain, p), '-') && '\n' !in body
    ensures Skeleton(p + ("--" + (body + ("\n" + r)))) == Skeleton(p + ("\n" + r))
  {
    var t := "--" + (body + ("\n" + r));
    QuotesAreReal(Plain, p);
    RestConcat(Plain, p, t);
    RestConcat(Plain, p, "\n" + r);
    TopIsPlain(ModeAfter(Plain, p), t);
    TopIsPlain(ModeAfter(Plain, p), "\n" + r);
    assert t[0..] == t && t[2..] == body + ("\n" + r);
    Opens(t, 0);
    LineIsNothing(body, r);
  }

  // ---- Regions that never end ----

  lemma {:induction false} BlockToEnd(body: string)
    requires Unclosed(body)
    ensures Rest(Block, body) == " "
  {
    assert body[0..] == body;
    if |body| < 2 {
      BlockEnds(body, 0);
      assert body[|body|..] == "";
    } else {
      BlockStep(body, 0);
      BlockToEnd(body[1..]);
    }
  }

  lemma {:induction false} LineToEnd(body: string)
    requires '\n' !in body
    ensures Rest(Line, body) == ""
  {
    if body != [] {
      assert body[0] in body;
      LineToEnd(body[1..]);
    }
  }

  lemma QuotedToEnd(body: string, q: char)
    requires IsQuote(q)
    ensures Rest(Plain, [q] + Escaped(body, q)) == " "
  {
    var inner := Escaped(body, q);
    EscapedInside(body, q);
    RestConcat(In(q), inner, "");
    assert inner + "" == inner && ([q] + inner)[1..] == inner;
  }

  /** What is met at top level may be replaced by what reads alike there. */
  lemma TopReplaced(p: string, a: string, b: string)
    requires a != [] && b != [] && AtTop(ModeAfter(Plain, p), a[0]) && AtTop(ModeAfter(Plain, p), b[0])
    requires Rest(Plain, a) == Rest(Plain, b)
    ensures Skeleton(p + a) == Skeleton(p + b)
  {
    RestConcat(Plain, p, a);
    RestConcat(Plain, p, b);
    TopIsPlain(ModeAfter(Plain, p), a);
    TopIsPlain(ModeAfter(Plain, p), b);
  }

  /** A quoted region or a comment that the text ends in takes all the rest of it: it
      leaves a space, or nothing for a line comment. */
  lemma UnterminatedIsBlank(p: string, q: char, body: string)
    requires q in ['\'', '"', '`'] && AtTop(ModeAfter(Plain, p), q)
    ensures Skeleton(p + ([q] + Escaped(body, q))) == Skeleton(p + " ")
  {
    QuotesAreReal(Plain, p);
    QuotedToEnd(body, q);
    assert Rest(Plain, " ") == " ";
    TopReplaced(p, [q] + Escaped(body, q), " ");
  }

  lemma UnterminatedBlockIsBlank(p: string, body: string)
    requires AtTop(ModeAfter(Plain, p), '/') && Unclosed(body)
    ensures Skeleton(p + ("/*" + body)) == Skeleton(p + " ")
  {
    var t := "/*" + body;
    QuotesAreReal(Plain, p);
    assert t[0..] == t && t[2..] == body;
    Opens(t, 0);
    BlockToEnd(body);
    assert Rest(Plain, " ") == " ";
    TopReplaced(p, t, " ");
  }

  lemma LastLineCommentIsNothing(p: string, body: string)
    requires AtTop(ModeAfter(Plain, p), '-') && '\n' !in body
    ensures Skeleton(p + ("--" + body)) == Skeleton(p)
  {
    var t := "--" + body;
    RestConcat(Plain, p, t);
    RestConcat(Plain, p, "");
    assert p + "" == p;
    TopIsPlain(ModeAfter(Plain, p), t);
    assert t[0..] == t && t[2..] == body;
    Opens(t, 0);
    LineToEnd(body);
  }

  // ---- Case does not matter ----

  function UpperChar(c: char): char {
    if 'a' <= c <= 'z' then (c as int - 32) as char else c
  }

  function Upper(s: string): (r: string)
    ensures |r| == |s|
    ensures forall i | 0 <= i < |s| :: r[i] == UpperChar(s[i])
  {
    seq(|s|, i requires 0 <= i < |s| => UpperChar(s[i]))
  }

  /** The same text, but that an ASCII letter may be in the other case, 32 apart. */
  ghost predicate SameLetters(a: string, b: string) {
    && |a| == |b|
    && forall i | 0 <= i < |a| ::
         a[i] == b[i]
         || ('A' <= a[i] <= 'Z' && b[i] as int == a[i] as int + 32)
         || ('A' <= b[i] <= 'Z' && a[i] as int == b[i] as int + 32)
  }

  /** Texts are the same but for case exactly when they are the same in upper case,
      which is such a text without a lower-case letter. */
  lemma UpperIs(a: string, b: string)
    ensures SameLetters(a, b) <==> Upper(a) == Upper(b)
    ensures SameLetters(a, Upper(a)) && forall i | 0 <= i < |a| :: !('a' <= Upper(a)[i] <= 'z')
  {
    forall i | 0 <= i < |a| && |a| == |b|
      ensures UpperChar(a[i]) == UpperChar(b[i]) <==>
                a[i] == b[i]
                || ('A' <= a[i] <= 'Z' && b[i] as int == a[i] as int + 32)
                || ('A' <= b[i] <= 'Z' && a[i] as int == b[i] as int + 32)
    {
    }
    if Upper(a) == Upper(b) {
      assert |a| == |b| && forall i | 0 <= i < |a| :: Upper(a)[i] == UpperChar(a[i]) && Upper(b)[i] == UpperChar(b[i]);
    }
  }

  lemma UpperConcat(a: string, b: string)
    ensures Upper(a + b) == Upper(a) + Upper(b)
  {
  }

  lemma MeetUpper(c: char)
    ensures Meet(UpperChar(c)) == (Upper(Meet(c).0), Meet(c).1)
  {
    assert Upper([c]) == [UpperChar(c)] && Upper("") == "";
  }

  lemma FeedUpper(mode: Mode, c: char)
    requires RealQuote(mode)
    ensures Feed(mode, UpperChar(c)) == (Upper(Feed(mode, c).0), Feed(mode, c).1)
    ensures RealQuote(Feed(mode, c).1)
  {
    MeetUpper(c);
    UpperConcat(Flush(mode), Meet(c).0);
    assert Upper("") == "" && Upper("\n") == "\n" && Upper(" ") == " " && Upper(Flush(mode)) == Flush(mode);
  }

  lemma {:induction false} RestUpper(mode: Mode, t: string)
    requires RealQuote(mode)
    ensures Rest(mode, Upper(t)) == Upper(Rest(mode, t))
    decreases |t|
  {
    if t != [] {
      FeedUpper(mode, t[0]);
      assert Upper(t)[1..] == Upper(t[1..]);
      RestUpper(Feed(mode, t[0]).1, t[1..]);
      UpperConcat(Feed(mode, t[0]).0, Rest(Feed(mode, t[0]).1, t[1..]));
    }
  }
}
