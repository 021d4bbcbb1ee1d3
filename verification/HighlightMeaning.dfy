/** What the row scan means: which characters of a row are a string, a comment, a number or a keyword. */
module HighlightMeaning {
  import opened Common
  import opened Highlighting

  // ---------------------------------------------------------------- places of a scan

  /** The scan of row r comes from st to n. */
  ghost predicate Comes(s: Syntax, r: string, st: Scan, n: Scan)
    requires SyntaxOk(s) && st.i <= |r| == |st.hl|
    decreases |r| - st.i
  {
    n == st || (st.i < |r| && Comes(s, r, Next(s, r, st), n))
  }

  /** What is behind a place keeps its classes to the end. */
  lemma {:induction false} ComesFinish(s: Syntax, r: string, st: Scan, n: Scan)
    requires SyntaxOk(s) && st.i <= |r| == |st.hl| && Comes(s, r, st, n)
    ensures st.i <= n.i <= |r| == |n.hl| && Finish(s, r, st) == Finish(s, r, n)
    ensures forall k :: 0 <= k < n.i ==> Finish(s, r, st).hl[k] == n.hl[k]
    decreases |r| - st.i
  {
    hide Next;
    if n == st {
      var f := Finish(s, r, n);
      assert forall k :: 0 <= k < n.i ==> f.hl[k] == f.hl[..n.i][k] == n.hl[..n.i][k];
    } else {
      ComesFinish(s, r, Next(s, r, st), n);
    }
  }

  lemma OneTurn(s: Syntax, r: string, st: Scan)
    requires SyntaxOk(s) && st.i < |r| == |st.hl|
    ensures Finish(s, r, st) == Finish(s, r, Next(s, r, st))
  {
    hide Next;
  }

  lemma AtEnd(s: Syntax, r: string, st: Scan)
    requires SyntaxOk(s) && st.i == |r| == |st.hl|
    ensures Finish(s, r, st) == st
  {}

  predicate Outside(st: Scan) {
    st.inString == NUL && !st.inComment
  }

  /** A comment mark that counts outside strings and comments begins here. */
  predicate MarkAt(s: Syntax, r: string, i: nat) {
    || (s.single != "" && Matches(r, i, s.single))
    || (s.open != "" && s.close != "" && Matches(r, i, s.open))
  }

  // ---------------------------------------------------------------- strings

  predicate Quote(c: char) {
    c == '"' || c == '\''
  }

  /** The quote that closes a string: the first from k on that no backslash takes away. */
  function Closing(r: string, k: nat, q: char): (j: Option<nat>)
    ensures j.Some? ==> k <= j.value < |r| && r[j.value] == q
    decreases |r| - k
  {
    if k >= |r| then None
    else if r[k] == '\\' && k + 1 < |r| then Closing(r, k + 2, q)
    else if r[k] == q then Some(k)
    else Closing(r, k + 1, q)
  }

  /** Without a backslash it is the next quote of the kind. */
  lemma {:induction false} ClosingPlain(r: string, k: nat, q: char, j: nat)
    requires k <= j < |r| && r[j] == q && q != '\\' && forall m :: k <= m < j ==> r[m] != q && r[m] != '\\'
    ensures Closing(r, k, q) == Some(j)
    decreases j - k
  {
    if k < j { ClosingPlain(r, k + 1, q, j); }
  }

  lemma PaintMore(hl: seq<Hl>, i: nat, n: nat, m: nat, h: Hl)
    requires i + n + m <= |hl|
    ensures Paint(Paint(hl, i, n, h), i + n, m, h) == Paint(hl, i, n + m, h)
  {}

  /** From st on there is a string from i to the closing quote j, behind which the scan goes on outside; or to the
      end of the row, which then ends outside comments. */
  ghost predicate StringFrom(s: Syntax, r: string, st: Scan, hl: seq<Hl>, i: nat, j: Option<nat>)
    requires SyntaxOk(s) && st.i <= |r| == |st.hl|
  {
    match j
    case Some(j) =>
      i <= j < |hl| && Comes(s, r, st, Scan(j + 1, true, NUL, false, Paint(hl, i, j + 1 - i, Str)))
    case None =>
      i <= |r| == |hl| && Finish(s, r, st).hl == Paint(hl, i, |r| - i, Str) && !Finish(s, r, st).inComment
  }

  lemma StringFirst(s: Syntax, r: string, st: Scan, hl: seq<Hl>, i: nat, j: Option<nat>)
    requires SyntaxOk(s) && st.i < |r| == |st.hl| && StringFrom(s, r, Next(s, r, st), hl, i, j)
    ensures StringFrom(s, r, st, hl, i, j)
  {
    hide Next, Paint;
    OneTurn(s, r, st);
  }

  /** Inside a string, up to the closing quote or the end of the row. */
  lemma {:induction false} StringOnwards(s: Syntax, r: string, hl: seq<Hl>, i: nat, k: nat, q: char, sep: bool)
    requires SyntaxOk(s) && s.strings && i <= k <= |r| == |hl| && q != NUL
    ensures StringFrom(s, r, Scan(k, sep, q, false, Paint(hl, i, k - i, Str)), hl, i, Closing(r, k, q))
    decreases |r| - k
  {
    hide Paint, Matches, KeywordFound, Finish;
    var st := Scan(k, sep, q, false, Paint(hl, i, k - i, Str));
    if k == |r| {
      AtEnd(s, r, st);
    } else {
      if r[k] == '\\' && k + 1 < |r| {
        PaintMore(hl, i, k - i, 2, Str);
        StringOnwards(s, r, hl, i, k + 2, q, sep);
      } else {
        PaintMore(hl, i, k - i, 1, Str);
        if r[k] != q { StringOnwards(s, r, hl, i, k + 1, q, true); }
      }
      StringFirst(s, r, st, hl, i, Closing(r, k, q));
    }
  }

  lemma QuoteOpens(s: Syntax, r: string, st: Scan)
    requires SyntaxOk(s) && s.strings && st.i < |r| == |st.hl| && Outside(st)
    requires Quote(r[st.i]) && !MarkAt(s, r, st.i)
    ensures Next(s, r, st) == Scan(st.i + 1, st.prevSep, r[st.i], false, Paint(st.hl, st.i, 1, Str))
  {
    hide Paint, Matches, KeywordFound;
  }

  /** A quote outside strings and comments, where no comment begins, opens a string. It is a string up to the closing
      quote, behind which the scan goes on outside; without one the rest of the row is a string, and the row ends
      outside comments. */
  lemma StringScanned(s: Syntax, r: string, st: Scan)
    requires SyntaxOk(s) && s.strings && st.i < |r| == |st.hl| && Outside(st)
    requires Quote(r[st.i]) && !MarkAt(s, r, st.i)
    ensures StringFrom(s, r, st, st.hl, st.i, Closing(r, st.i + 1, r[st.i]))
  {
    hide Next, Paint, Matches, MarkAt, Closing, StringFrom;
    QuoteOpens(s, r, st);
    StringOnwards(s, r, st.hl, st.i, st.i + 1, r[st.i], st.prevSep);
    StringFirst(s, r, st, st.hl, st.i, Closing(r, st.i + 1, r[st.i]));
  }

  // ---------------------------------------------------------------- comments

  /** A comment to the end of the row. */
  lemma RowCommentScanned(s: Syntax, r: string, st: Scan)
    requires SyntaxOk(s) && st.i < |r| == |st.hl| && Outside(st) && s.single != "" && Matches(r, st.i, s.single)
    ensures Finish(s, r, st).hl == Paint(st.hl, st.i, |r| - st.i, Comment) && !Finish(s, r, st).inComment
  {
    hide Paint, Matches, Finish;
    OneTurn(s, r, st);
    AtEnd(s, r, Next(s, r, st));
  }

  /** Inside a comment of several lines, up to the first closing mark. */
  lemma {:induction false} CommentOnwards(s: Syntax, r: string, hl: seq<Hl>, i: nat, k: nat, j: nat, sep: bool)
    requires SyntaxOk(s) && s.open != "" && s.close != "" && i <= k <= j < |r| == |hl|
    requires Matches(r, j, s.close) && forall m :: k <= m < j ==> !Matches(r, m, s.close)
    ensures j + |s.close| <= |r|
    ensures Comes(s, r, Scan(k, sep, NUL, true, Paint(hl, i, k - i, MlComment)),
                  Scan(j + |s.close|, true, NUL, false, Paint(hl, i, j + |s.close| - i, MlComment)))
    decreases j - k
  {
    hide Paint, Matches, KeywordFound;
    MatchesFits(r, j, s.close);
    if k == j {
      PaintMore(hl, i, k - i, |s.close|, MlComment);
    } else {
      PaintMore(hl, i, k - i, 1, MlComment);
      CommentOnwards(s, r, hl, i, k + 1, j, sep);
    }
  }

  lemma MarkOpens(s: Syntax, r: string, st: Scan)
    requires SyntaxOk(s) && st.i < |r| == |st.hl| && Outside(st) && s.open != "" && s.close != ""
    requires Matches(r, st.i, s.open) && !(s.single != "" && Matches(r, st.i, s.single))
    ensures st.i + |s.open| <= |r|
    ensures Next(s, r, st) == Scan(st.i + |s.open|, st.prevSep, NUL, true, Paint(st.hl, st.i, |s.open|, MlComment))
  {
    hide Paint, Matches, KeywordFound;
    MatchesFits(r, st.i, s.open);
  }

  /** An opening mark outside strings and comments, up to and with the first closing mark behind it. */
  lemma CommentScanned(s: Syntax, r: string, st: Scan, j: nat)
    requires SyntaxOk(s) && st.i < |r| == |st.hl| && Outside(st) && s.open != "" && s.close != ""
    requires Matches(r, st.i, s.open) && !(s.single != "" && Matches(r, st.i, s.single))
    requires st.i + |s.open| <= j < |r| && Matches(r, j, s.close)
    requires forall m :: st.i + |s.open| <= m < j ==> !Matches(r, m, s.close)
    ensures j + |s.close| <= |r|
    ensures Comes(s, r, st, Scan(j + |s.close|, true, NUL, false, Paint(st.hl, st.i, j + |s.close| - st.i, MlComment)))
  {
    hide Paint, Matches, Next;
    MarkOpens(s, r, st);
    CommentOnwards(s, r, st.hl, st.i, st.i + |s.open|, j, st.prevSep);
  }

  lemma CommentTurn(s: Syntax, r: string, st: Scan)
    requires SyntaxOk(s) && st.i < |r| == |st.hl| && st.inComment && st.inString == NUL
    requires s.open != "" && s.close != "" && !Matches(r, st.i, s.close)
    ensures Next(s, r, st) == st.(i := st.i + 1, hl := Paint(st.hl, st.i, 1, MlComment))
  {
    hide Paint, Matches, KeywordFound;
  }

  lemma {:induction false} UnclosedOnwards(s: Syntax, r: string, hl: seq<Hl>, i: nat, k: nat, sep: bool)
    requires SyntaxOk(s) && s.open != "" && s.close != "" && i <= k <= |r| == |hl|
    requires forall m :: k <= m < |r| ==> !Matches(r, m, s.close)
    ensures var f := Finish(s, r, Scan(k, sep, NUL, true, Paint(hl, i, k - i, MlComment)));
            f.hl == Paint(hl, i, |r| - i, MlComment) && f.inComment
    decreases |r| - k
  {
    hide Next, Paint, Matches;
    if k < |r| {
      PaintMore(hl, i, k - i, 1, MlComment);
      CommentTurn(s, r, Scan(k, sep, NUL, true, Paint(hl, i, k - i, MlComment)));
      UnclosedOnwards(s, r, hl, i, k + 1, sep);
    }
  }

  /** Without a closing mark behind it the comment goes on to the end of the row, and into the next one. */
  lemma UnclosedScanned(s: Syntax, r: string, st: Scan)
    requires SyntaxOk(s) && st.i < |r| == |st.hl| && Outside(st) && s.open != "" && s.close != ""
    requires Matches(r, st.i, s.open) && !(s.single != "" && Matches(r, st.i, s.single))
    requires forall m :: st.i + |s.open| <= m < |r| ==> !Matches(r, m, s.close)
    ensures Finish(s, r, st).hl == Paint(st.hl, st.i, |r| - st.i, MlComment) && Finish(s, r, st).inComment
  {
    hide Paint, Matches, Next, Finish;
    MarkOpens(s, r, st);
    OneTurn(s, r, st);
    UnclosedOnwards(s, r, st.hl, st.i, st.i + |s.open|, st.prevSep);
  }

  // ---------------------------------------------------------------- numbers and words

  lemma LastPainted(hl: seq<Hl>, i: nat, k: nat, h: Hl)
    requires i < k <= |hl|
    ensures Paint(hl, i, k - i, h)[k - 1] == h
  {}

  lemma NumberTurn(s: Syntax, r: string, st: Scan)
    requires SyntaxOk(s) && s.numbers && 0 < st.i < |r| == |st.hl| && Outside(st) && !MarkAt(s, r, st.i)
    requires ('0' <= r[st.i] <= '9' || r[st.i] == '.') && st.hl[st.i - 1] == Number
    ensures Next(s, r, st) == st.(i := st.i + 1, prevSep := false, hl := Paint(st.hl, st.i, 1, Number))
  {
    hide Paint, Matches, KeywordFound;
  }

  lemma {:induction false} NumberOnwards(s: Syntax, r: string, hl: seq<Hl>, i: nat, k: nat, j: nat)
    requires SyntaxOk(s) && s.numbers && i < k <= j <= |r| == |hl|
    requires forall m :: k <= m < j ==> ('0' <= r[m] <= '9' || r[m] == '.') && !MarkAt(s, r, m)
    ensures Comes(s, r, Scan(k, false, NUL, false, Paint(hl, i, k - i, Number)),
                  Scan(j, false, NUL, false, Paint(hl, i, j - i, Number)))
    decreases j - k
  {
    hide Next, Paint, MarkAt;
    if k < j {
      LastPainted(hl, i, k, Number);
      PaintMore(hl, i, k - i, 1, Number);
      NumberTurn(s, r, Scan(k, false, NUL, false, Paint(hl, i, k - i, Number)));
      NumberOnwards(s, r, hl, i, k + 1, j);
    }
  }

  /** A digit that a separator or a digit stands before, with the digits and dots that follow it. */
  lemma {:induction false} NumberScanned(s: Syntax, r: string, st: Scan, j: nat)
    requires SyntaxOk(s) && s.numbers && st.i < j <= |r| == |st.hl| && Outside(st)
    requires st.prevSep && '0' <= r[st.i] <= '9'
    requires forall k :: st.i < k < j ==> '0' <= r[k] <= '9' || r[k] == '.'
    requires forall k :: st.i <= k < j ==> !MarkAt(s, r, k)
    ensures Comes(s, r, st, Scan(j, false, NUL, false, Paint(st.hl, st.i, j - st.i, Number)))
  {
    hide Paint, Matches, KeywordFound;
    assert !MarkAt(s, r, st.i);
    NumberOnwards(s, r, st.hl, st.i, st.i + 1, j);
  }

  /** What separates words: white space, the end of the row, and these characters. */
  lemma SeparatorsAre(c: char)
    ensures IsSeparator(c) <==>
              c in [' ', '\t', '\n', 11 as char, 12 as char, '\r', 0 as char, ',', '.', '(', ')', '+', '-', '/',
                                      '*', '=', '~', '%', '<', '>', '[', ']', ';']
  {}

  /** Neither a comment, nor a string, nor a number begins here. */
  predicate WordPlace(s: Syntax, r: string, st: Scan)
    requires st.i < |r| == |st.hl|
  {
    && Outside(st) && !MarkAt(s, r, st.i) && !(s.strings && Quote(r[st.i]))
    && !(s.numbers && ('0' <= r[st.i] <= '9' || r[st.i] == '.'))
  }

  /** The text of an entry of the keyword table: a bar at its end only marks the kind. */
  function Text(entry: string): string {
    if entry != "" && entry[|entry| - 1] == '|' then entry[..|entry| - 1] else entry
  }

  /** The word stands here, and a separator or the end of the row behind it. */
  predicate WordAt(r: string, i: nat, word: string) {
    && i + |word| <= |r| && r[i..i + |word|] == word
    && (i + |word| == |r| || IsSeparator(r[i + |word|]))
  }

  lemma TextIs(entry: string)
    ensures Text(entry) == WordOf(entry) && (SecondKind(entry) <==> entry != "" && entry[|entry| - 1] == '|')
  {}

  lemma SameWord(r: string, i: nat, entry: string)
    requires i < |r|
    ensures KeywordAt(r, i, entry) <==> WordAt(r, i, Text(entry))
  {}

  lemma FoundMatches(s: Syntax, r: string, i: nat)
    ensures match KeywordFound(s, r, i) case Some(j) => Matches(r, i, WordOf(s.keywords[j])) case None => true
  {}

  lemma KeywordTurn(s: Syntax, r: string, st: Scan, j: nat)
    requires SyntaxOk(s) && st.i < |r| == |st.hl| && WordPlace(s, r, st) && st.prevSep
             && KeywordFound(s, r, st.i) == Some(j)
    ensures var entry := s.keywords[j];
            && st.i + |WordOf(entry)| <= |r|
            && Next(s, r, st) == Scan(st.i + |WordOf(entry)|, false, NUL, false,
                                      Paint(st.hl, st.i, |WordOf(entry)|, if SecondKind(entry) then Keyword2
                                        else Keyword1))
  {
    hide Paint, Matches, KeywordFound, WordOf, SecondKind, SyntaxOk;
    FoundMatches(s, r, st.i);
  }

  /** A keyword between separators is coloured as its entry says; of several that would fit, the first in the table
      counts. */
  lemma KeywordScanned(s: Syntax, r: string, st: Scan, j: nat)
    requires SyntaxOk(s) && st.i < |r| == |st.hl| && WordPlace(s, r, st) && st.prevSep
    requires j < |s.keywords| && WordAt(r, st.i, Text(s.keywords[j]))
    requires forall k :: 0 <= k < j ==> !WordAt(r, st.i, Text(s.keywords[k]))
    ensures var entry := s.keywords[j];
            var kind := if entry != "" && entry[|entry| - 1] == '|' then Keyword2 else Keyword1;
            && st.i + |Text(entry)| <= |r|
            && Next(s, r, st)
            == Scan(st.i + |Text(entry)|, false, NUL, false, Paint(st.hl, st.i, |Text(entry)|, kind))
  {
    hide Next, Paint, KeywordAt, WordAt, Text, MarkAt;
    forall k | 0 <= k <= j ensures KeywordAt(r, st.i, s.keywords[k]) <==> WordAt(r, st.i, Text(s.keywords[k])) {
      SameWord(r, st.i, s.keywords[k]);
    }
    assert KeywordFound(s, r, st.i) == Some(j);
    TextIs(s.keywords[j]);
    KeywordTurn(s, r, st, j);
  }

  /** Anything else stays plain, and a word can begin behind it exactly when it is a separator. */
  lemma PlainScanned(s: Syntax, r: string, st: Scan)
    requires SyntaxOk(s) && st.i < |r| == |st.hl| && WordPlace(s, r, st)
    requires st.prevSep ==> forall k :: 0 <= k < |s.keywords| ==> !WordAt(r, st.i, Text(s.keywords[k]))
    ensures Next(s, r, st) == Scan(st.i + 1, IsSeparator(r[st.i]), NUL, false, st.hl)
  {
    hide Matches, WordAt, Text, KeywordAt;
    forall k | 0 <= k < |s.keywords|
      ensures KeywordAt(r, st.i, s.keywords[k]) <==> WordAt(r, st.i, Text(s.keywords[k])) {
      SameWord(r, st.i, s.keywords[k]);
    }
  }

  /** A digit or a dot inside a word stays plain too. */
  lemma DigitInWord(s: Syntax, r: string, st: Scan)
    requires SyntaxOk(s) && st.i < |r| == |st.hl| && Outside(st) && !MarkAt(s, r, st.i) && !st.prevSep
    requires ('0' <= r[st.i] <= '9' || r[st.i] == '.') && (st.i > 0 ==> st.hl[st.i - 1] != Number)
    ensures Next(s, r, st) == Scan(st.i + 1, IsSeparator(r[st.i]), NUL, false, st.hl)
  {}

  // ---------------------------------------------------------------- rows

  /** What a scan has coloured when it comes to a place is what the row shows. */
  lemma RowShows(s: Syntax, r: string, inComment: bool, n: Scan)
    requires SyntaxOk(s) && Comes(s, r, Start(r, inComment), n)
    ensures n.i <= |r| == |n.hl| && forall k :: 0 <= k < n.i ==> Highlight(s, r, inComment).hl[k] == n.hl[k]
  {
    ComesFinish(s, r, Start(r, inComment), n);
  }

  lemma EntryLetters(k: nat)
    requires k < |C_SYNTAX.keywords|
    ensures |C_SYNTAX.keywords[k]| >= 2 && C_SYNTAX.keywords[k][0] in "bcdefilrstuvw"
  {}

  lemma FirstLetters(k: nat)
    requires k < |C_SYNTAX.keywords|
    ensures Text(C_SYNTAX.keywords[k]) != "" && Text(C_SYNTAX.keywords[k])[0] in "bcdefilrstuvw"
  {
    EntryLetters(k);
  }

  /** No keyword of C begins with another letter. */
  lemma NoKeyword(r: string, i: nat)
    requires i < |r| && r[i] !in "bcdefilrstuvw"
    ensures forall k :: 0 <= k < |C_SYNTAX.keywords| ==> !WordAt(r, i, Text(C_SYNTAX.keywords[k]))
  {
    forall k | 0 <= k < |C_SYNTAX.keywords| ensures !WordAt(r, i, Text(C_SYNTAX.keywords[k])) {
      FirstLetters(k);
      var word := Text(C_SYNTAX.keywords[k]);
      if i + |word| <= |r| { assert r[i..i + |word|][0] == r[i]; }
    }
  }

  lemma Differs(r: string, i: nat, mark: string)
    requires i < |r| && mark != "" && r[i] != mark[0]
    ensures !Matches(r, i, mark)
  {
    if i + |mark| <= |r| { assert r[i..i + |mark|][0] == r[i]; }
  }

  /** Both comment marks of C begin with a slash. */
  lemma NoMark(r: string, i: nat)
    requires i < |r| && r[i] != '/'
    ensures !MarkAt(C_SYNTAX, r, i)
  {
    Differs(r, i, "//");
    Differs(r, i, "/*");
  }

  /** A character that begins no word, no string and no number. */
  lemma PlainCharacter(r: string, st: Scan)
    requires SyntaxOk(C_SYNTAX) && st.i < |r| == |st.hl| && Outside(st)
    requires r[st.i] !in "bcdefilrstuvw/\"'.0123456789"
    ensures Next(C_SYNTAX, r, st) == Scan(st.i + 1, IsSeparator(r[st.i]), NUL, false, st.hl)
  {
    hide Next, Matches;
    NoMark(r, st.i);
    NoKeyword(r, st.i);
    PlainScanned(C_SYNTAX, r, st);
  }

  lemma MarksHere(r: string)
    requires r == "\"a\" /* b"
    ensures Matches(r, 4, "/*") && !Matches(r, 4, "//") && !Matches(r, 6, "*/") && !Matches(r, 7, "*/")
  {
    assert r[4..6] == "/*";
    Differs(r, 6, "*/");
    Differs(r, 7, "*/");
  }

  lemma StringPart(r: string, hl: seq<Hl>)
    requires r == "\"a\" /* b" && SyntaxOk(C_SYNTAX) && |hl| == 8
    ensures Finish(C_SYNTAX, r, Scan(0, true, NUL, false, hl))
         == Finish(C_SYNTAX, r, Scan(3, true, NUL, false, Paint(hl, 0, 3, Str)))
  {
    hide Finish, Comes, Next, Matches;
    var st := Scan(0, true, NUL, false, hl);
    NoMark(r, 0);
    ClosingPlain(r, 1, '"', 2);
    StringScanned(C_SYNTAX, r, st);
    ComesFinish(C_SYNTAX, r, st, Scan(3, true, NUL, false, Paint(hl, 0, 3, Str)));
  }

  lemma CommentPart(r: string, hl: seq<Hl>)
    requires r == "\"a\" /* b" && SyntaxOk(C_SYNTAX) && |hl| == 8
    ensures var f := Finish(C_SYNTAX, r, Scan(3, true, NUL, false, hl));
            f.hl == Paint(hl, 4, 4, MlComment) && f.inComment
  {
    hide Finish, Next, Matches;
    var st := Scan(3, true, NUL, false, hl);
    PlainCharacter(r, st);
    OneTurn(C_SYNTAX, r, st);
    MarksHere(r);
    UnclosedScanned(C_SYNTAX, r, Scan(4, true, NUL, false, hl));
  }

  lemma PlainStart(r: string)
    ensures Start(r, false) == Scan(0, true, NUL, false, seq(|r|, _ => Normal))
  {}

  /** A row with a string of one letter, a blank, and a comment that stays open. */
  lemma StringAndComment()
    ensures SyntaxOk(C_SYNTAX)
    ensures Highlight(C_SYNTAX, "\"a\" /* b", false)
         == Result([Str, Str, Str, Normal, MlComment, MlComment, MlComment, MlComment], true)
  {
    hide Finish, Start;
    TableOk(0);
    var r := "\"a\" /* b";
    var plain := seq(8, _ => Normal);
    StringPart(r, plain);
    CommentPart(r, Paint(plain, 0, 3, Str));
    PlainStart(r);
    assert Paint(Paint(plain, 0, 3, Str), 4, 4, MlComment)
        == [Str, Str, Str, Normal, MlComment, MlComment, MlComment, MlComment];
  }

  lemma NotInt(k: nat)
    requires k < 15
    ensures var word := Text(C_SYNTAX.keywords[k]); |word| > 1 && (word[0] != 'i' || word[1] != 'n')
  {}

  lemma IntFirst(r: string)
    requires r == "int n = 10;"
    ensures C_SYNTAX.keywords[15] == "int|" && WordAt(r, 0, Text(C_SYNTAX.keywords[15]))
    ensures forall k :: 0 <= k < 15 ==> !WordAt(r, 0, Text(C_SYNTAX.keywords[k]))
  {
    assert r[0..3] == "int" && Text("int|") == "int";
    forall k | 0 <= k < 15 ensures !WordAt(r, 0, Text(C_SYNTAX.keywords[k])) {
      NotInt(k);
      var word := Text(C_SYNTAX.keywords[k]);
      if 0 + |word| <= |r| { assert r[0..0 + |word|][0] == r[0] && (|word| > 1 ==> r[0..0 + |word|][1] == r[1]); }
    }
  }

  lemma PlainTurn(r: string, st: Scan)
    requires SyntaxOk(C_SYNTAX) && st.i < |r| == |st.hl| && Outside(st)
    requires r[st.i] in " n="
    ensures Finish(C_SYNTAX, r, st) == Finish(C_SYNTAX, r, Scan(st.i + 1, r[st.i] != 'n', NUL, false, st.hl))
  {
    hide Finish, Next;
    PlainCharacter(r, st);
    OneTurn(C_SYNTAX, r, st);
  }

  lemma FiveBlanks(r: string, st: Scan)
    requires r == "int n = 10;" && SyntaxOk(C_SYNTAX) && st.i == 3 && |st.hl| == 11 && Outside(st)
    ensures Finish(C_SYNTAX, r, st) == Finish(C_SYNTAX, r, Scan(8, true, NUL, false, st.hl))
  {
    hide Finish;
    PlainTurn(r, st);
    PlainTurn(r, Scan(4, true, NUL, false, st.hl));
    PlainTurn(r, Scan(5, false, NUL, false, st.hl));
    PlainTurn(r, Scan(6, true, NUL, false, st.hl));
    PlainTurn(r, Scan(7, true, NUL, false, st.hl));
  }

  lemma IntTurn(r: string, hl: seq<Hl>)
    requires r == "int n = 10;" && SyntaxOk(C_SYNTAX) && |hl| == 11
    ensures Finish(C_SYNTAX, r, Scan(0, true, NUL, false, hl))
         == Finish(C_SYNTAX, r, Scan(3, false, NUL, false, Paint(hl, 0, 3, Keyword2)))
  {
    hide Finish, KeywordFound, Next, Matches;
    var st := Scan(0, true, NUL, false, hl);
    NoMark(r, 0);
    IntFirst(r);
    KeywordScanned(C_SYNTAX, r, st, 15);
    OneTurn(C_SYNTAX, r, st);
  }

  lemma NumberEnds(r: string, hl: seq<Hl>)
    requires r == "int n = 10;" && SyntaxOk(C_SYNTAX) && |hl| == 11
    ensures Finish(C_SYNTAX, r, Scan(8, true, NUL, false, hl)) == Scan(11, true, NUL, false, Paint(hl, 8, 2, Number))
  {
    hide Finish, KeywordFound, Next, Matches, Comes;
    var st := Scan(8, true, NUL, false, hl);
    NoMark(r, 8);
    NoMark(r, 9);
    NumberScanned(C_SYNTAX, r, st, 10);
    var st1 := Scan(10, false, NUL, false, Paint(hl, 8, 2, Number));
    ComesFinish(C_SYNTAX, r, st, st1);
    PlainCharacter(r, st1);
    OneTurn(C_SYNTAX, r, st1);
    AtEnd(C_SYNTAX, r, Scan(11, true, NUL, false, st1.hl));
  }

  lemma IntClasses()
    ensures Paint(Paint(seq(11, _ => Normal), 0, 3, Keyword2), 8, 2, Number)
         == [Keyword2, Keyword2, Keyword2, Normal, Normal, Normal, Normal, Normal, Number, Number, Normal]
  {
    var a := Paint(seq(11, _ => Normal), 0, 3, Keyword2);
    assert a == [Keyword2, Keyword2, Keyword2, Normal, Normal, Normal, Normal, Normal, Normal, Normal, Normal];
  }

  /** A row with a keyword of the second kind, a name, a number and signs. */
  lemma KeywordAndNumber()
    ensures SyntaxOk(C_SYNTAX)
    ensures Highlight(C_SYNTAX, "int n = 10;", false)
         == Result([Keyword2, Keyword2, Keyword2, Normal, Normal, Normal, Normal, Normal, Number, Number, Normal],
                   false)
  {
    hide Finish, Comes, KeywordFound, Next, Matches, Start;
    TableOk(0);
    var r := "int n = 10;";
    var plain := seq(11, _ => Normal);
    IntTurn(r, plain);
    var hl := Paint(plain, 0, 3, Keyword2);
    FiveBlanks(r, Scan(3, false, NUL, false, hl));
    NumberEnds(r, hl);
    PlainStart(r);
    IntClasses();
  }
}
