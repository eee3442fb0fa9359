/** The read-only verdict on a SQL statement. */
module SqlGuard {
  import opened Strs
  import opened SqlLexer

  datatype Words = Words(leaders: set<string>, writes: set<string>)

  /** Words that open a read-only statement, and words that may not stand in one. */
  const READ_ONLY: Words := Words(
    {"SELECT", "WITH", "SHOW", "DESCRIBE", "DESC", "EXPLAIN"},
    {"INSERT", "UPDATE", "DELETE", "MERGE", "UPSERT", "REPLACE", "TRUNCATE", "CREATE", "DROP",
     "ALTER", "RENAME", "GRANT", "REVOKE", "COMMENT", "INTO", "CALL", "EXEC", "EXECUTE", "COPY",
     "LOAD", "UNLOAD", "PUT", "REMOVE", "ATTACH", "DETACH", "INSTALL", "PRAGMA", "VACUUM",
     "ANALYZE", "OPTIMIZE"})

  datatype Verdict = Accepted | EmptyStatement | ManyStatements | BadLeader(first: string) | WriteWord(word: string)

  predicate IdentChar(c: char) {
    'a' <= c <= 'z' || 'A' <= c <= 'Z' || '0' <= c <= '9' || c == '_' || c == '$' || c == '#'
  }

  /** White space among the characters a byte can be read as. */
  predicate Space(c: char) {
    '\t' <= c <= '\r' || c == ' ' || c == 0x85 as char || c == 0xA0 as char
  }

  function TrimStart(s: string): string {
    if s != [] && Space(s[0]) then TrimStart(s[1..]) else s
  }

  function TrimEnd(s: string): string {
    if s != [] && Space(s[|s| - 1]) then TrimEnd(s[..|s| - 1]) else s
  }

  function Trim(s: string): string { TrimEnd(TrimStart(s)) }

  function Position(s: string, c: char): (r: Option<nat>)
    ensures r.Some? ==> r.value < |s| && s[r.value] == c && forall i | 0 <= i < r.value :: s[i] != c
    ensures r.None? ==> forall i | 0 <= i < |s| :: s[i] != c
  {
    if s == [] then None
    else if s[0] == c then Some(0)
    else match Position(s[1..], c)
         case Some(i) => Some(i + 1)
         case None => None
  }

  /** The text split at every character that is not part of an identifier. */
  function Pieces(s: string): (r: seq<string>)
    ensures r != []
  {
    if s == [] then [""]
    else
      var rest := Pieces(s[1..]);
      if IdentChar(s[0]) then [[s[0]] + rest[0]] + rest[1..] else [""] + rest
  }

  function FirstWord(pieces: seq<string>): string {
    if pieces == [] then "" else if pieces[0] != "" then pieces[0] else FirstWord(pieces[1..])
  }

  /** The first forbidden word, in upper case. */
  function FirstWrite(pieces: seq<string>, writes: set<string>): Option<string> {
    if pieces == [] then None
    else if pieces[0] != "" && Upper(pieces[0]) in writes then Some(Upper(pieces[0]))
    else FirstWrite(pieces[1..], writes)
  }

  function Second(t: string): bool {
    var semicolon := Position(t, ';');
    semicolon.Some? && Trim(t[semicolon.value + 1..]) != ""
  }

  function Judge(skeleton: string, w: Words): Verdict {
    var t := Trim(skeleton);
    if t == "" then EmptyStatement
    else if Second(t) then ManyStatements
    else if Upper(FirstWord(Pieces(t))) !in w.leaders then BadLeader(FirstWord(Pieces(t)))
    else
      match FirstWrite(Pieces(t), w.writes)
      case Some(word) => WriteWord(word)
      case None => Accepted
  }

  method Enforce(statement: string, w: Words) returns (r: Verdict)
    ensures r == Judge(Skeleton(statement), w)
  {
    var skeleton := SqlSkeleton(statement);
    var trimmed := Trim(skeleton);
    if trimmed == "" {
      return EmptyStatement;
    }
    var semicolon := Position(trimmed, ';');
    if semicolon.Some? && Trim(trimmed[semicolon.value + 1..]) != "" {
      return ManyStatements;
    }
    var pieces := Pieces(trimmed);
    var first := FirstWord(pieces);
    if Upper(first) !in w.leaders {
      return BadLeader(first);
    }
    for i := 0 to |pieces|
      invariant FirstWrite(pieces[i..], w.writes) == FirstWrite(pieces, w.writes)
    {
      assert pieces[i..][0] == pieces[i] && pieces[i..][1..] == pieces[i + 1..];
      if pieces[i] == "" {
        continue;
      }
      var upper := Upper(pieces[i]);
      if upper in w.writes {
        return WriteWord(upper);
      }
    }
    return Accepted;
  }

  // ---- What the verdict means ----

  /** An identifier is made of ASCII letters and digits, `_`, `$` and `#`, so a
      column `update_time` is one; white space is what Rust trims. By code. */
  lemma CharactersAre(c: char)
    ensures IdentChar(c) <==> 48 <= c as int <= 57 || 65 <= c as int <= 90 || 97 <= c as int <= 122 || c as int in {35, 36, 95}
    ensures Space(c) <==> 9 <= c as int <= 13 || c as int in {32, 133, 160}
  {
  }

  /** An identifier from `i` to `j`, whole. */
  ghost predicate IsToken(s: string, i: int, j: int) {
    && 0 <= i < j <= |s|
    && (forall k | i <= k < j :: IdentChar(s[k]))
    && (i > 0 ==> !IdentChar(s[i - 1]))
    && (j < |s| ==> !IdentChar(s[j]))
  }

  ghost predicate IsFirstToken(s: string, i: int, j: int) {
    IsToken(s, i, j) && forall k | 0 <= k < i :: !IdentChar(s[k])
  }

  ghost predicate LeadsWith(s: string, leaders: set<string>) {
    exists i, j :: IsFirstToken(s, i, j) && Upper(s[i..j]) in leaders
  }

  ghost predicate Writes(s: string, writes: set<string>) {
    exists i, j :: IsToken(s, i, j) && Upper(s[i..j]) in writes
  }

  ghost predicate AllSpace(s: string) {
    forall i | 0 <= i < |s| :: Space(s[i])
  }

  /** Something follows a semicolon. */
  ghost predicate Continues(s: string) {
    exists i, j :: 0 <= i < j < |s| && s[i] == ';' && !Space(s[j])
  }

  /** What `Trim` leaves, and what it takes off. */
  lemma {:induction false} TrimStartSplits(s: string) returns (a: string)
    ensures s == a + TrimStart(s) && AllSpace(a)
    ensures TrimStart(s) != "" ==> !Space(TrimStart(s)[0])
  {
    if s != [] && Space(s[0]) {
      var rest := TrimStartSplits(s[1..]);
      a := [s[0]] + rest;
    } else {
      a := "";
    }
  }

  lemma {:induction false} TrimEndSplits(s: string) returns (b: string)
    ensures s == TrimEnd(s) + b && AllSpace(b)
    ensures TrimEnd(s) != "" ==> !Space(TrimEnd(s)[|TrimEnd(s)| - 1])
  {
    if s != [] && Space(s[|s| - 1]) {
      var rest := TrimEndSplits(s[..|s| - 1]);
      b := rest + [s[|s| - 1]];
      assert s == s[..|s| - 1] + [s[|s| - 1]];
    } else {
      b := "";
    }
  }

  lemma TrimSplits(s: string) returns (a: string, b: string)
    ensures s == a + Trim(s) + b && AllSpace(a) && AllSpace(b)
    ensures Trim(s) != "" ==> !Space(Trim(s)[|Trim(s)| - 1])
  {
    a := TrimStartSplits(s);
    b := TrimEndSplits(TrimStart(s));
  }

  lemma TrimEmpty(s: string)
    ensures Trim(s) == "" <==> AllSpace(s)
  {
    var a, b := TrimSplits(s);
    if Trim(s) != "" {
      var at := |a| + |Trim(s)| - 1;
      assert s[at] == Trim(s)[|Trim(s)| - 1];
    } else {
      forall i | 0 <= i < |s| ensures Space(s[i]) {
        assert s[i] == if i < |a| then a[i] else b[i - |a|];
      }
    }
  }

  lemma TokenStarts(s: string, i: int, j: int)
    requires IsToken(s, i, j)
    ensures IdentChar(s[i]) && IdentChar(s[j - 1])
  {
  }

  /** The text has white space around `t`, which starts at `n`. */
  ghost predicate Around(s: string, n: nat, t: string) {
    && n + |t| <= |s|
    && (forall k | 0 <= k < |t| :: t[k] == s[n + k])
    && (forall x | 0 <= x < |s| && !(n <= x < n + |t|) :: Space(s[x]))
  }

  lemma TokenInside(s: string, n: nat, t: string, i: int, j: int)
    requires Around(s, n, t) && IsToken(s, i, j)
    ensures IsToken(t, i - n, j - n) && s[i..j] == t[i - n..j - n]
    ensures IsFirstToken(s, i, j) ==> IsFirstToken(t, i - n, j - n)
  {
    TokenStarts(s, i, j);
    assert n <= i && j <= n + |t|;
    forall k | i - n <= k < j - n ensures IdentChar(t[k]) {
      assert t[k] == s[n + k];
    }
    assert i > n ==> t[i - n - 1] == s[n + (i - n - 1)];
    assert j < n + |t| ==> t[j - n] == s[n + (j - n)];
  }

  lemma TokenOutside(s: string, n: nat, t: string, i: int, j: int)
    requires Around(s, n, t) && IsToken(t, i, j)
    ensures IsToken(s, n + i, n + j) && s[n + i..n + j] == t[i..j]
    ensures IsFirstToken(t, i, j) ==> IsFirstToken(s, n + i, n + j)
  {
    forall k | n + i <= k < n + j ensures IdentChar(s[k]) {
      assert t[k - n] == s[n + (k - n)];
    }
    assert i > 0 ==> t[i - 1] == s[n + (i - 1)];
    assert j < |t| ==> t[j] == s[n + j];
    if IsFirstToken(t, i, j) {
      forall k | 0 <= k < n + i ensures !IdentChar(s[k]) {
        assert k >= n ==> t[k - n] == s[n + (k - n)];
      }
    }
  }

  // Pieces and tokens.

  lemma TailToken(s: string, i: int, j: int)
    requires s != [] && 1 <= i && (i > 1 || !IdentChar(s[0]))
    ensures IsToken(s, i, j) <==> IsToken(s[1..], i - 1, j - 1)
    ensures IsToken(s, i, j) ==> s[i..j] == s[1..][i - 1..j - 1]
  {
    var t := s[1..];
    assert forall k | 0 <= k < |t| :: t[k] == s[k + 1];
    if IsToken(t, i - 1, j - 1) {
      assert forall k | i <= k < j :: s[k] == t[k - 1];
    }
  }

  /** The first piece is the identifier at the front, if there is one. */
  lemma {:induction false} FrontPiece(s: string)
    ensures var n := |Pieces(s)[0]|;
            && n <= |s| && Pieces(s)[0] == s[..n]
            && (forall k | 0 <= k < n :: IdentChar(s[k]))
            && (n < |s| ==> !IdentChar(s[n]))
  {
    if s != [] && IdentChar(s[0]) {
      FrontPiece(s[1..]);
    }
  }

  lemma FrontToken(s: string, j: int)
    requires IsToken(s, 0, j)
    ensures Pieces(s)[0] == s[..j]
  {
    FrontPiece(s);
  }

  /** A later token is a later piece. */
  lemma {:induction false} TokenIsPiece(s: string, i: int, j: int)
    requires IsToken(s, i, j) && i > 0
    ensures s[i..j] in Pieces(s)[1..]
  {
    var t := s[1..];
    assert IdentChar(s[i]);
    TailToken(s, i, j);
    var rest := Pieces(t);
    if i == 1 {
      FrontToken(t, j - 1);
      assert Pieces(s) == [""] + rest && rest[0] == s[i..j];
    } else {
      TokenIsPiece(t, i - 1, j - 1);
      assert Pieces(s)[1..] == if IdentChar(s[0]) then rest[1..] else rest;
    }
  }

  /** And a later piece is a later token, or empty. */
  lemma {:induction false} PieceIsToken(s: string, piece: string) returns (i: int, j: int)
    requires piece in Pieces(s)[1..] && piece != ""
    ensures IsToken(s, i, j) && i > 0 && s[i..j] == piece
  {
    var t := s[1..];
    var rest := Pieces(t);
    assert Pieces(s)[1..] == if IdentChar(s[0]) then rest[1..] else rest;
    if piece in rest[1..] {
      i, j := PieceIsToken(t, piece);
      i, j := i + 1, j + 1;
    } else {
      FrontPiece(t);
      i, j := 1, 1 + |piece|;
      assert IsToken(t, 0, |piece|);
    }
    TailToken(s, i, j);
  }

  /** The words of a text are its identifiers. */
  lemma WordsAreTokens(s: string, word: string)
    requires word != ""
    ensures word in Pieces(s) <==> exists i, j :: IsToken(s, i, j) && s[i..j] == word
  {
    FrontPiece(s);
    if word in Pieces(s) {
      if word == Pieces(s)[0] {
        assert IsToken(s, 0, |word|) && s[0..|word|] == word;
      } else {
        assert word in Pieces(s)[1..];
        var i, j := PieceIsToken(s, word);
      }
    }
    if i, j :| IsToken(s, i, j) && s[i..j] == word {
      if i == 0 {
        FrontToken(s, j);
      } else {
        TokenIsPiece(s, i, j);
      }
    }
  }

  lemma {:induction false} FirstWordIsFirst(s: string) returns (i: int, j: int)
    ensures FirstWord(Pieces(s)) != "" ==> IsFirstToken(s, i, j) && s[i..j] == FirstWord(Pieces(s))
    ensures FirstWord(Pieces(s)) == "" ==> forall k | 0 <= k < |s| :: !IdentChar(s[k])
  {
    FrontPiece(s);
    if Pieces(s)[0] != "" {
      i, j := 0, |Pieces(s)[0]|;
      assert j > 0 && s[i..j] == Pieces(s)[0];
    } else if s != [] {
      var t := s[1..];
      i, j := FirstWordIsFirst(t);
      assert !IdentChar(s[0]) && Pieces(s)[1..] == Pieces(t);
      assert FirstWord(Pieces(s)) == FirstWord(Pieces(t));
      i, j := i + 1, j + 1;
      if FirstWord(Pieces(s)) != "" {
        TailToken(s, i, j);
        assert forall k | 1 <= k < i :: s[k] == t[k - 1];
      } else {
        assert forall k | 1 <= k < |s| :: s[k] == t[k - 1];
      }
    } else {
      i, j := 0, 0;
      assert Pieces(s)[1..] == [] && FirstWord(Pieces(s)[1..]) == "";
    }
  }

  lemma FirstTokenUnique(s: string, i: int, j: int, i': int, j': int)
    requires IsFirstToken(s, i, j) && IsFirstToken(s, i', j')
    ensures i == i' && j == j'
  {
    TokenStarts(s, i, j);
    TokenStarts(s, i', j');
  }

  lemma LeadsMeans(s: string, leaders: set<string>)
    requires "" !in leaders
    ensures Upper(FirstWord(Pieces(s))) in leaders <==> LeadsWith(s, leaders)
  {
    var i, j := FirstWordIsFirst(s);
    if FirstWord(Pieces(s)) == "" {
      assert Upper("") == "";
      forall i', j' | IsFirstToken(s, i', j') ensures false {
        TokenStarts(s, i', j');
      }
    } else {
      forall i', j' | IsFirstToken(s, i', j') ensures s[i'..j'] == FirstWord(Pieces(s)) {
        FirstTokenUnique(s, i, j, i', j');
      }
    }
  }

  lemma {:induction false} FirstWriteMeans(pieces: seq<string>, writes: set<string>)
    ensures var r := FirstWrite(pieces, writes);
            && (r.None? <==> forall p <- pieces :: p != "" ==> Upper(p) !in writes)
            && (r.Some? ==> r.value in writes)
  {
    if pieces != [] {
      assert forall p <- pieces :: p == pieces[0] || p in pieces[1..];
      FirstWriteMeans(pieces[1..], writes);
    }
  }

  lemma WritesMeans(s: string, writes: set<string>)
    ensures FirstWrite(Pieces(s), writes).Some? <==> Writes(s, writes)
    ensures FirstWrite(Pieces(s), writes).Some? ==> FirstWrite(Pieces(s), writes).value in writes
  {
    FirstWriteMeans(Pieces(s), writes);
    if i, j :| IsToken(s, i, j) && Upper(s[i..j]) in writes {
      WordsAreTokens(s, s[i..j]);
    }
    if FirstWrite(Pieces(s), writes).Some? {
      var p :| p in Pieces(s) && p != "" && Upper(p) in writes;
      WordsAreTokens(s, p);
      var i, j :| IsToken(s, i, j) && s[i..j] == p;
    }
  }

  // The same of the untrimmed text.

  lemma TrimAround(s: string) returns (n: nat)
    ensures Around(s, n, Trim(s))
  {
    var a, b := TrimSplits(s);
    n := |a|;
    forall x | 0 <= x < |s| && !(n <= x < n + |Trim(s)|) ensures Space(s[x]) {
      assert s[x] == if x < n then a[x] else b[x - n - |Trim(s)|];
    }
  }

  lemma LeadsTrimmed(s: string, leaders: set<string>)
    ensures LeadsWith(Trim(s), leaders) <==> LeadsWith(s, leaders)
  {
    var n := TrimAround(s);
    if LeadsWith(s, leaders) {
      var i, j :| IsFirstToken(s, i, j) && Upper(s[i..j]) in leaders;
      TokenInside(s, n, Trim(s), i, j);
    }
    if LeadsWith(Trim(s), leaders) {
      var i, j :| IsFirstToken(Trim(s), i, j) && Upper(Trim(s)[i..j]) in leaders;
      TokenOutside(s, n, Trim(s), i, j);
    }
  }

  lemma WritesTrimmed(s: string, writes: set<string>)
    ensures Writes(Trim(s), writes) <==> Writes(s, writes)
  {
    var n := TrimAround(s);
    if Writes(s, writes) {
      var i, j :| IsToken(s, i, j) && Upper(s[i..j]) in writes;
      TokenInside(s, n, Trim(s), i, j);
    }
    if Writes(Trim(s), writes) {
      var i, j :| IsToken(Trim(s), i, j) && Upper(Trim(s)[i..j]) in writes;
      TokenOutside(s, n, Trim(s), i, j);
    }
  }

  lemma ContinuesTrimmed(s: string)
    ensures Continues(Trim(s)) <==> Continues(s)
  {
    var t := Trim(s);
    var n := TrimAround(s);
    if Continues(s) {
      var i, j :| 0 <= i < j < |s| && s[i] == ';' && !Space(s[j]);
      assert t[i - n] == s[n + (i - n)] && t[j - n] == s[n + (j - n)];
    }
    if Continues(t) {
      var i, j :| 0 <= i < j < |t| && t[i] == ';' && !Space(t[j]);
      assert t[i] == s[n + i] && t[j] == s[n + j];
    }
  }

  lemma SecondMeans(t: string)
    ensures Second(t) <==> Continues(t)
  {
    var at := Position(t, ';');
    if at.Some? {
      var rest := t[at.value + 1..];
      TrimEmpty(rest);
      if Second(t) {
        var k :| 0 <= k < |rest| && !Space(rest[k]);
        assert rest[k] == t[at.value + 1 + k];
      }
      if Continues(t) {
        var i, j :| 0 <= i < j < |t| && t[i] == ';' && !Space(t[j]);
        assert rest[j - at.value - 1] == t[j];
      }
    }
  }

  /** The first word of the text, or none. */
  ghost predicate BeginsWith(s: string, word: string) {
    (exists i, j :: IsFirstToken(s, i, j) && s[i..j] == word)
    || (word == "" && forall k | 0 <= k < |s| :: !IdentChar(s[k]))
  }

  lemma BeginsTrimmed(s: string)
    ensures BeginsWith(s, FirstWord(Pieces(Trim(s))))
  {
    var t := Trim(s);
    var n := TrimAround(s);
    var i, j := FirstWordIsFirst(t);
    if FirstWord(Pieces(t)) != "" {
      TokenOutside(s, n, t, i, j);
    } else {
      assert forall k | 0 <= k < |s| :: n <= k < n + |t| ==> s[k] == t[k - n];
    }
  }

  ghost predicate NoWriteBefore(s: string, writes: set<string>, i: int) {
    forall i', j' | IsToken(s, i', j') && i' < i :: Upper(s[i'..j']) !in writes
  }

  /** The first word of the text that writes is `word`, in upper case. */
  ghost predicate FirstWrites(s: string, writes: set<string>, word: string) {
    exists i, j :: IsToken(s, i, j) && Upper(s[i..j]) == word && word in writes && NoWriteBefore(s, writes, i)
  }

  /** Behind its first piece, a text has the pieces of what follows it. */
  lemma {:induction false} PiecesBehind(s: string)
    ensures var n := |Pieces(s)[0]|;
            n <= |s| && Pieces(s)[1..] == Pieces(s[n..])[1..] && Pieces(s[n..])[0] == ""
  {
    FrontPiece(s);
    if s != [] && IdentChar(s[0]) {
      PiecesBehind(s[1..]);
      var rest := Pieces(s[1..]);
      assert Pieces(s)[1..] == rest[1..] && s[1..][|rest[0]|..] == s[|rest[0]| + 1..];
    } else {
      assert s[0..] == s;
    }
  }

  lemma TokenShift(s: string, n: nat, i: int, j: int)
    requires n <= |s| && n <= i && (n == |s| || !IdentChar(s[n]))
    ensures IsToken(s, i, j) <==> IsToken(s[n..], i - n, j - n)
    ensures IsToken(s, i, j) ==> s[i..j] == s[n..][i - n..j - n]
  {
    var u := s[n..];
    assert forall k | 0 <= k < |u| :: u[k] == s[n + k];
    if IsToken(u, i - n, j - n) {
      assert u[i - n] == s[i] && IdentChar(s[i]);
      forall k | i <= k < j ensures IdentChar(s[k]) {
        assert s[k] == u[k - n];
      }
      assert i > n && u[i - n - 1] == s[i - 1];
      assert j < |s| ==> u[j - n] == s[j];
    }
    if IsToken(s, i, j) {
      assert IdentChar(s[i]) && i > n;
      forall k | i - n <= k < j - n ensures IdentChar(u[k]) {
        assert u[k] == s[n + k];
      }
      assert u[i - n - 1] == s[i - 1];
      assert j < |s| ==> u[j - n] == s[j];
    }
  }

  /** A token before the end of the first piece is that piece. */
  lemma FrontOnly(s: string, i: int, j: int)
    requires IsToken(s, i, j) && i < |Pieces(s)[0]|
    ensures i == 0 && s[i..j] == Pieces(s)[0]
  {
    FrontPiece(s);
    assert i == 0;
    FrontToken(s, j);
  }

  lemma {:induction false} FirstWriteIs(s: string, writes: set<string>) returns (i: int, j: int)
    requires FirstWrite(Pieces(s), writes).Some?
    ensures IsToken(s, i, j) && Some(Upper(s[i..j])) == FirstWrite(Pieces(s), writes)
    ensures Upper(s[i..j]) in writes && NoWriteBefore(s, writes, i)
    decreases |s|
  {
    var front := Pieces(s)[0];
    var n := |front|;
    FrontPiece(s);
    PiecesBehind(s);
    if front != "" && Upper(front) in writes {
      i, j := 0, n;
      assert s[0..n] == front;
    } else if n == 0 {
      i, j := FirstWriteLater(s, writes);
    } else {
      var u := s[n..];
      assert FirstWrite(Pieces(s), writes) == FirstWrite(Pieces(s)[1..], writes) == FirstWrite(Pieces(u), writes);
      i, j := FirstWriteIs(u, writes);
      i, j := i + n, j + n;
      TokenShift(s, n, i, j);
      NoneBefore(s, writes, n, i);
    }
  }

  /** Where the text starts with no identifier. */
  lemma {:induction false} FirstWriteLater(s: string, writes: set<string>) returns (i: int, j: int)
    requires Pieces(s)[0] == "" && FirstWrite(Pieces(s), writes).Some?
    ensures IsToken(s, i, j) && Some(Upper(s[i..j])) == FirstWrite(Pieces(s), writes)
    ensures Upper(s[i..j]) in writes && NoWriteBefore(s, writes, i)
    decreases |s|, 0
  {
    assert Pieces(s)[1..] == if s == [] then [] else Pieces(s[1..]);
    assert FirstWrite(Pieces(s), writes) == FirstWrite(Pieces(s)[1..], writes);
    FrontPiece(s);
    i, j := FirstWriteIs(s[1..], writes);
    i, j := i + 1, j + 1;
    TailToken(s, i, j);
    forall i', j' | IsToken(s, i', j') && i' < i
      ensures Upper(s[i'..j']) !in writes
    {
      assert IdentChar(s[i']);
      TailToken(s, i', j');
    }
  }

  lemma NoneBefore(s: string, writes: set<string>, n: nat, i: int)
    requires n == |Pieces(s)[0]| <= |s| && n <= i && Upper(Pieces(s)[0]) !in writes
    requires NoWriteBefore(s[n..], writes, i - n)
    ensures NoWriteBefore(s, writes, i)
  {
    FrontPiece(s);
    forall i', j' | IsToken(s, i', j') && i' < i
      ensures Upper(s[i'..j']) !in writes
    {
      if i' < n {
        FrontOnly(s, i', j');
      } else {
        TokenShift(s, n, i', j');
      }
    }
  }

  lemma FirstWritesTrimmed(s: string, writes: set<string>)
    requires FirstWrite(Pieces(Trim(s)), writes).Some?
    ensures FirstWrites(s, writes, FirstWrite(Pieces(Trim(s)), writes).value)
  {
    var t := Trim(s);
    var n := TrimAround(s);
    var i, j := FirstWriteIs(t, writes);
    TokenOutside(s, n, t, i, j);
    forall i', j' | IsToken(s, i', j') && i' < n + i
      ensures Upper(s[i'..j']) !in writes
    {
      TokenInside(s, n, t, i', j');
    }
    assert NoWriteBefore(s, writes, n + i);
  }

  /** What each verdict on a skeleton means, in its order. A statement is accepted
      exactly when its first word is a read-only one, none of its words writes,
      and nothing but white space follows a semicolon. */
  lemma JudgeMeans(s: string, w: Words)
    requires "" !in w.leaders
    ensures Judge(s, w) == Accepted <==> LeadsWith(s, w.leaders) && !Writes(s, w.writes) && !Continues(s)
    ensures Judge(s, w) == EmptyStatement <==> AllSpace(s)
    ensures Judge(s, w) == ManyStatements <==> Continues(s)
    ensures Judge(s, w).BadLeader? <==> !AllSpace(s) && !Continues(s) && !LeadsWith(s, w.leaders)
    ensures Judge(s, w).WriteWord? <==> LeadsWith(s, w.leaders) && Writes(s, w.writes) && !Continues(s)
    ensures Judge(s, w).BadLeader? ==> BeginsWith(s, Judge(s, w).first)
    ensures Judge(s, w).WriteWord? ==> FirstWrites(s, w.writes, Judge(s, w).word)
  {
    var t := Trim(s);
    TrimEmpty(s);
    BeginsTrimmed(s);
    if FirstWrite(Pieces(t), w.writes).Some? {
      FirstWritesTrimmed(s, w.writes);
    }
    LeadsMeans(t, w.leaders);
    LeadsTrimmed(s, w.leaders);
    WritesMeans(t, w.writes);
    WritesTrimmed(s, w.writes);
    SecondMeans(t);
    ContinuesTrimmed(s);
    if LeadsWith(s, w.leaders) {
      var i, j :| IsFirstToken(s, i, j) && Upper(s[i..j]) in w.leaders;
      TokenStarts(s, i, j);
    }
  }

  // ---- The guard itself ----

  /** The words the guard knows, in upper case. */
  ghost predicate Leader(word: string) {
    word in ["SELECT", "WITH", "SHOW", "DESCRIBE", "DESC", "EXPLAIN"]
  }

  ghost predicate Forbidden(word: string) {
    || word in ["INSERT", "UPDATE", "DELETE", "MERGE", "UPSERT", "REPLACE", "TRUNCATE", "CREATE", "DROP", "ALTER"]
    || word in ["RENAME", "GRANT", "REVOKE", "COMMENT", "INTO", "CALL", "EXEC", "EXECUTE", "COPY", "LOAD"]
    || word in ["UNLOAD", "PUT", "REMOVE", "ATTACH", "DETACH", "INSTALL", "PRAGMA", "VACUUM", "ANALYZE", "OPTIMIZE"]
  }

  ghost predicate NoLower(word: string) {
    forall i | 0 <= i < |word| :: !('a' <= word[i] <= 'z')
  }

  lemma UpperSpells(text: string, word: string)
    requires NoLower(word)
    ensures Upper(text) == word <==> SameLetters(text, word)
  {
    UpperIs(text, word);
    assert Upper(word) == word;
  }

  /** In whatever case it is written, the first word leads. */
  ghost predicate LeadsReadOnly(s: string) {
    exists i, j, word :: IsFirstToken(s, i, j) && Leader(word) && SameLetters(s[i..j], word)
  }

  ghost predicate HoldsForbidden(s: string) {
    exists i, j, word :: IsToken(s, i, j) && Forbidden(word) && SameLetters(s[i..j], word)
  }

  lemma LeadersAre(word: string)
    ensures word in READ_ONLY.leaders <==> Leader(word)
    ensures Leader(word) ==> NoLower(word)
  {
  }

  lemma ForbiddenAre(word: string)
    ensures word in READ_ONLY.writes <==> Forbidden(word)
    ensures Forbidden(word) ==> NoLower(word)
  {
  }

  lemma LeadsSpelled(s: string)
    ensures LeadsWith(s, READ_ONLY.leaders) <==> LeadsReadOnly(s)
  {
    if i, j :| IsFirstToken(s, i, j) && Upper(s[i..j]) in READ_ONLY.leaders {
      LeadersAre(Upper(s[i..j]));
      UpperSpells(s[i..j], Upper(s[i..j]));
    }
    if i, j, word :| IsFirstToken(s, i, j) && Leader(word) && SameLetters(s[i..j], word) {
      LeadersAre(word);
      UpperSpells(s[i..j], word);
    }
  }

  lemma WritesSpelled(s: string)
    ensures Writes(s, READ_ONLY.writes) <==> HoldsForbidden(s)
  {
    if i, j :| IsToken(s, i, j) && Upper(s[i..j]) in READ_ONLY.writes {
      ForbiddenAre(Upper(s[i..j]));
      UpperSpells(s[i..j], Upper(s[i..j]));
    }
    if i, j, word :| IsToken(s, i, j) && Forbidden(word) && SameLetters(s[i..j], word) {
      ForbiddenAre(word);
      UpperSpells(s[i..j], word);
    }
  }

  /** Accepted exactly when the first word is a read-only one, no word is a write
      word, in any case, and nothing follows a semicolon. */
  lemma AcceptedIff(statement: string)
    ensures Judge(Skeleton(statement), READ_ONLY) == Accepted
       <==> LeadsReadOnly(Skeleton(statement)) && !HoldsForbidden(Skeleton(statement)) && !Continues(Skeleton(statement))
  {
    LeadersAre("");
    JudgeMeans(Skeleton(statement), READ_ONLY);
    LeadsSpelled(Skeleton(statement));
    WritesSpelled(Skeleton(statement));
  }

  method EnforceReadOnly(statement: string) returns (r: Verdict)
    ensures r == Judge(Skeleton(statement), READ_ONLY)
    ensures r == Accepted
       <==> LeadsReadOnly(Skeleton(statement)) && !HoldsForbidden(Skeleton(statement)) && !Continues(Skeleton(statement))
  {
    r := Enforce(statement, READ_ONLY);
    AcceptedIff(statement);
  }

  // ---- What the verdict does not depend on ----

  /** A quoted body, or a comment: the verdict stays as it is. */
  lemma VerdictIgnoresQuoted(p: string, q: char, a: string, b: string, r: string, w: Words)
    requires q in ['\'', '"', '`'] && AtTop(ModeAfter(Plain, p), q)
    ensures Judge(Skeleton(p + ([q] + Escaped(a, q) + [q] + r)), w) == Judge(Skeleton(p + ([q] + Escaped(b, q) + [q] + r)), w)
  {
    QuotedBodyIrrelevant(p, q, a, b, r);
  }

  lemma VerdictIgnoresBlockComment(p: string, body: string, r: string, w: Words)
    requires AtTop(ModeAfter(Plain, p), '/') && Unclosed(body)
    ensures Judge(Skeleton(p + ("/*" + (body + ("*/" + r)))), w) == Judge(Skeleton(p + (" " + r)), w)
  {
    BlockCommentIsSpace(p, body, r);
  }

  function Folded(v: Verdict): Verdict {
    match v
    case BadLeader(first) => BadLeader(Upper(first))
    case _ => v
  }

  function UpperAll(pieces: seq<string>): (r: seq<string>)
    ensures |r| == |pieces|
  {
    if pieces == [] then [] else [Upper(pieces[0])] + UpperAll(pieces[1..])
  }

  lemma {:induction false} TrimStartUpper(s: string)
    ensures TrimStart(Upper(s)) == Upper(TrimStart(s))
  {
    if s != [] {
      assert Upper(s)[1..] == Upper(s[1..]);
      TrimStartUpper(s[1..]);
    }
  }

  lemma {:induction false} TrimEndUpper(s: string)
    ensures TrimEnd(Upper(s)) == Upper(TrimEnd(s))
  {
    if s != [] {
      assert Upper(s)[..|s| - 1] == Upper(s[..|s| - 1]);
      TrimEndUpper(s[..|s| - 1]);
    }
  }

  lemma TrimUpper(s: string)
    ensures Trim(Upper(s)) == Upper(Trim(s))
  {
    TrimStartUpper(s);
    TrimEndUpper(TrimStart(s));
  }

  lemma {:induction false} PositionUpper(s: string)
    ensures Position(Upper(s), ';') == Position(s, ';')
  {
  }

  lemma SecondUpper(t: string)
    ensures Second(Upper(t)) == Second(t)
  {
    PositionUpper(t);
    var at := Position(t, ';');
    if at.Some? {
      assert Upper(t)[at.value + 1..] == Upper(t[at.value + 1..]);
      TrimUpper(t[at.value + 1..]);
    }
  }

  lemma {:induction false} PiecesUpper(s: string)
    ensures Pieces(Upper(s)) == UpperAll(Pieces(s))
  {
    if s == [] {
      assert Upper("") == "" && UpperAll([""]) == [Upper("")];
    } else {
      assert Upper(s)[1..] == Upper(s[1..]);
      PiecesUpper(s[1..]);
      var rest := Pieces(s[1..]);
      UpperConcat([s[0]], rest[0]);
      assert Upper([s[0]]) == [UpperChar(s[0])] && Upper("") == "";
      assert ([[s[0]] + rest[0]] + rest[1..])[1..] == rest[1..];
      assert ([""] + rest)[1..] == rest;
    }
  }

  lemma UpperTwice(s: string)
    ensures Upper(Upper(s)) == Upper(s)
  {
  }

  lemma {:induction false} FirstWordUpper(pieces: seq<string>)
    ensures FirstWord(UpperAll(pieces)) == Upper(FirstWord(pieces))
  {
    if pieces == [] {
      assert Upper("") == "";
    } else {
      assert UpperAll(pieces)[1..] == UpperAll(pieces[1..]);
      FirstWordUpper(pieces[1..]);
    }
  }

  lemma {:induction false} FirstWriteUpper(pieces: seq<string>, writes: set<string>)
    ensures FirstWrite(UpperAll(pieces), writes) == FirstWrite(pieces, writes)
  {
    if pieces != [] {
      assert UpperAll(pieces)[1..] == UpperAll(pieces[1..]);
      UpperTwice(pieces[0]);
      FirstWriteUpper(pieces[1..], writes);
    }
  }

  lemma JudgeUpper(s: string, w: Words)
    ensures Judge(Upper(s), w) == Folded(Judge(s, w))
  {
    var t := Trim(s);
    TrimUpper(s);
    SecondUpper(t);
    PiecesUpper(t);
    FirstWordUpper(Pieces(t));
    FirstWriteUpper(Pieces(t), w.writes);
    UpperTwice(FirstWord(Pieces(t)));
  }

  /** The same verdict, about words that differ in case alone. */
  ghost predicate SameVerdict(a: Verdict, b: Verdict) {
    a == b || (a.BadLeader? && b.BadLeader? && SameLetters(a.first, b.first))
  }

  /** Two statements that differ in case alone get the same verdict, up to the case
      of the word it quotes. */
  lemma VerdictIgnoresCase(a: string, b: string, w: Words)
    requires SameLetters(a, b)
    ensures SameVerdict(Judge(Skeleton(a), w), Judge(Skeleton(b), w))
  {
    UpperIs(a, b);
    RestUpper(Plain, a);
    RestUpper(Plain, b);
    JudgeUpper(Skeleton(a), w);
    JudgeUpper(Skeleton(b), w);
    var x, y := Judge(Skeleton(a), w), Judge(Skeleton(b), w);
    if x.BadLeader? && y.BadLeader? {
      UpperIs(x.first, y.first);
    }
  }
}
