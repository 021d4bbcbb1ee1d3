/** The row scanner of the editor: how one rendered row is coloured, given whether it starts inside a comment. */
module Highlighting {
  import opened Common

  datatype Hl = Normal | Comment | MlComment | Keyword1 | Keyword2 | Str | Number

  /** An empty mark stands for a missing one. A keyword that ends in a bar is of the second kind. */
  datatype Syntax = Syntax(filematch: seq<string>, keywords: seq<string>, single: string, open: string, close: string,
                           numbers: bool, strings: bool)

  const NUL := '\0'

  predicate SecondKind(keyword: string) {
    keyword != "" && keyword[|keyword| - 1] == '|'
  }

  /** The keyword without its mark. */
  function WordOf(keyword: string): string {
    if SecondKind(keyword) then keyword[..|keyword| - 1] else keyword
  }

  predicate SyntaxOk(s: Syntax) {
    forall j :: 0 <= j < |s.keywords| ==> WordOf(s.keywords[j]) != ""
  }

  const C_SYNTAX := Syntax(
    [".c", ".h", ".cpp"],
    ["switch", "if", "while", "for", "break", "continue", "return", "else", "struct", "union", "typedef", "static",
     "enum", "class", "case", "int|", "long|", "double|", "float|", "char|", "unsigned|", "signed|", "void|"],
    "//", "/*", "*/", true, true)

  /** The table of syntaxes. */
  const HLDB: seq<Syntax> := [C_SYNTAX]

  lemma TableOk(j: nat)
    requires j < |HLDB|
    ensures SyntaxOk(HLDB[j])
  {}

  /** strrchr. */
  function LastIndexOf(s: string, c: char): (r: Option<nat>)
    ensures r.Some? ==> r.value < |s| && s[r.value] == c && forall k :: r.value < k < |s| ==> s[k] != c
    ensures r.None? ==> c !in s
  {
    if s == "" then None
    else if s[|s| - 1] == c then Some(|s| - 1)
    else LastIndexOf(s[..|s| - 1], c)
  }

  /** The comparison of a row with a mark: the NUL after the row never matches. */
  predicate Matches(r: string, i: nat, mark: string) {
    i + |mark| <= |r| && r[i..i + |mark|] == mark
  }

  /** A pattern that begins with a dot is compared with the name from its last dot on; any other is looked for in the
      name. */
  predicate NameMatches(filename: string, pattern: string) {
    if pattern != "" && pattern[0] == '.' then
      var ext := LastIndexOf(filename, '.');
      ext.Some? && Matches(filename, ext.value, pattern)
    else exists i :: 0 <= i <= |filename| && Matches(filename, i, pattern)
  }

  predicate AnyMatches(filename: string, patterns: seq<string>) {
    exists i :: 0 <= i < |patterns| && NameMatches(filename, patterns[i])
  }

  /** The first syntax with a pattern for this name. */
  function SyntaxFor(filename: string): (s: Option<Syntax>)
    ensures s.Some? ==> s.value in HLDB
  {
    var j := FindFrom(HLDB, (s: Syntax) => AnyMatches(filename, s.filematch), 0);
    if j.Some? then Some(HLDB[j.value]) else None
  }

  predicate LastDot(filename: string, i: nat) {
    i < |filename| && filename[i] == '.' && forall k :: i < k < |filename| ==> filename[k] != '.'
  }

  lemma PatternOfTwo(filename: string, i: nat, c: char)
    requires i < |filename| && filename[i] == '.'
    ensures Matches(filename, i, ['.', c]) <==> i + 1 < |filename| && filename[i + 1] == c
  {
    if i + 1 < |filename| { assert filename[i..i + 2] == [filename[i], filename[i + 1]]; }
  }

  /** The third pattern is an instance of the first. */
  lemma CPatterns(filename: string)
    ensures var ext := LastIndexOf(filename, '.');
            AnyMatches(filename, C_SYNTAX.filematch) <==>
            ext.Some? && (Matches(filename, ext.value, ".c") || Matches(filename, ext.value, ".h"))
  {
    var p, ext := C_SYNTAX.filematch, LastIndexOf(filename, '.');
    assert p[0] == ".c" && p[1] == ".h" && p[2] == ".cpp";
    assert NameMatches(filename, p[2]) ==> NameMatches(filename, p[0]) by {
      if NameMatches(filename, p[2]) {
        assert filename[ext.value..ext.value + 2] == filename[ext.value..ext.value + 4][..2];
      }
    }
    assert AnyMatches(filename, p) <==> NameMatches(filename, p[0]) || NameMatches(filename, p[1]);
  }

  /** A name gets the C syntax, the only one, exactly when its last extension begins with a c or an h. */
  lemma CFiles(filename: string)
    ensures SyntaxFor(filename) == Some(C_SYNTAX) || SyntaxFor(filename) == None
    ensures SyntaxFor(filename).Some? <==>
              exists i: nat :: LastDot(filename, i) && i + 1 < |filename| && filename[i + 1] in "ch"
  {
    hide AnyMatches, Matches, LastIndexOf;
    CPatterns(filename);
    assert HLDB[0] == C_SYNTAX && (SyntaxFor(filename).Some? <==> AnyMatches(filename, C_SYNTAX.filematch));
    var ext := LastIndexOf(filename, '.');
    if ext.Some? {
      assert LastDot(filename, ext.value);
      PatternOfTwo(filename, ext.value, 'c');
      PatternOfTwo(filename, ext.value, 'h');
    }
  }

  /** The byte at i of the rendered row, which a NUL follows. */
  function At(r: string, i: nat): char {
    if i < |r| then r[i] else NUL
  }

  predicate IsSpace(c: char) {
    c == ' ' || '\t' <= c <= '\r'
  }

  predicate IsDigit(c: char) {
    '0' <= c <= '9'
  }

  predicate IsSeparator(c: char) {
    IsSpace(c) || c == NUL || c in ",.()+-/*=~%<>[];"
  }

  function Paint(hl: seq<Hl>, i: nat, n: nat, h: Hl): (r: seq<Hl>)
    requires i + n <= |hl|
    ensures |r| == |hl| && r[..i] == hl[..i] && r[i + n..] == hl[i + n..]
    ensures forall k :: i <= k < i + n ==> r[k] == h
  {
    hl[..i] + seq(n, _ => h) + hl[i + n..]
  }

  predicate KeywordAt(r: string, i: nat, keyword: string) {
    Matches(r, i, WordOf(keyword)) && IsSeparator(At(r, i + |WordOf(keyword)|))
  }

  /** Where the scan is and what it remembers; inString is the quote that opened the string, NUL outside strings. */
  datatype Scan = Scan(i: nat, prevSep: bool, inString: char, inComment: bool, hl: seq<Hl>)

  ghost predicate Follows(r: string, st: Scan, n: Scan) {
    st.i < n.i <= |r| == |n.hl| == |st.hl| && n.hl[..st.i] == st.hl[..st.i]
  }

  /** Comments. */
  function NextMark(s: Syntax, r: string, st: Scan): (n: Option<Scan>)
    requires st.i < |r| == |st.hl|
    ensures n.Some? ==> Follows(r, st, n.value)
  {
    var i := st.i;
    var marks := s.open != "" && s.close != "" && st.inString == NUL;
    if s.single != "" && st.inString == NUL && !st.inComment && Matches(r, i, s.single) then
      Some(st.(i := |r|, hl := Paint(st.hl, i, |r| - i, Comment)))
    else if marks && st.inComment && Matches(r, i, s.close) then
      Some(Scan(i + |s.close|, true, st.inString, false, Paint(st.hl, i, |s.close|, MlComment)))
    else if marks && st.inComment then
      Some(st.(i := i + 1, hl := Paint(st.hl, i, 1, MlComment)))
    else if marks && Matches(r, i, s.open) then
      Some(st.(i := i + |s.open|, inComment := true, hl := Paint(st.hl, i, |s.open|, MlComment)))
    else None
  }

  /** Strings and numbers. */
  function NextLiteral(s: Syntax, r: string, st: Scan): (n: Option<Scan>)
    requires st.i < |r| == |st.hl|
    ensures n.Some? ==> Follows(r, st, n.value)
  {
    var i, c := st.i, r[st.i];
    var prevHl := if i > 0 then st.hl[i - 1] else Normal;
    if s.strings && st.inString != NUL && c == '\\' && i + 1 < |r| then
      Some(st.(i := i + 2, hl := Paint(st.hl, i, 2, Str)))
    else if s.strings && st.inString != NUL then
      Some(Scan(i + 1, true, if c == st.inString then NUL else st.inString, st.inComment, Paint(st.hl, i, 1, Str)))
    else if s.strings && (c == '"' || c == '\'') then
      Some(st.(i := i + 1, inString := c, hl := Paint(st.hl, i, 1, Str)))
    else if s.numbers && ((IsDigit(c) && (st.prevSep || prevHl == Number)) || (c == '.' && prevHl == Number)) then
      Some(st.(i := i + 1, prevSep := false, hl := Paint(st.hl, i, 1, Number)))
    else None
  }

  /** The first keyword that stands at i. */
  function KeywordFound(s: Syntax, r: string, i: nat): Option<nat> {
    FindFrom(s.keywords, k => KeywordAt(r, i, k), 0)
  }

  /** Keywords and everything else. */
  function NextWord(s: Syntax, r: string, st: Scan): (n: Scan)
    requires SyntaxOk(s) && st.i < |r| == |st.hl|
    ensures Follows(r, st, n)
  {
    var i, j := st.i, KeywordFound(s, r, st.i);
    if st.prevSep && j.Some? then
      var k := s.keywords[j.value];
      st.(i := i + |WordOf(k)|, prevSep := false,
          hl := Paint(st.hl, i, |WordOf(k)|, if SecondKind(k) then Keyword2 else Keyword1))
    else st.(i := i + 1, prevSep := IsSeparator(r[i]))
  }

  /** The class of the current place and the place after it. */
  function Next(s: Syntax, r: string, st: Scan): (n: Scan)
    requires SyntaxOk(s) && st.i < |r| == |st.hl|
    ensures Follows(r, st, n)
  {
    var m := NextMark(s, r, st);
    if m.Some? then m.value
    else
      var l := NextLiteral(s, r, st);
      if l.Some? then l.value else NextWord(s, r, st)
  }

  function Finish(s: Syntax, r: string, st: Scan): (n: Scan)
    requires SyntaxOk(s) && st.i <= |r| == |st.hl|
    ensures n.i == |r| == |n.hl| && n.hl[..st.i] == st.hl[..st.i]
    decreases |r| - st.i
  {
    if st.i == |r| then st
    else
      var n := Next(s, r, st);
      var f := Finish(s, r, n);
      assert f.hl[..st.i] == f.hl[..n.i][..st.i] == n.hl[..n.i][..st.i] == n.hl[..st.i];
      f
  }

  /** A row's classes and whether it ends inside a comment. */
  datatype Result = Result(hl: seq<Hl>, open: bool)

  function Start(r: string, inComment: bool): Scan {
    Scan(0, true, NUL, inComment, seq(|r|, _ => Normal))
  }

  function Highlight(s: Syntax, r: string, inComment: bool): (h: Result)
    requires SyntaxOk(s)
    ensures |h.hl| == |r|
  {
    var f := Finish(s, r, Start(r, inComment));
    Result(f.hl, f.inComment)
  }

  lemma PaintOne(hl: seq<Hl>, i: nat, h: Hl)
    requires i < |hl|
    ensures hl[i := h] == Paint(hl, i, 1, h)
  {}

  lemma {:induction false} InsideOnwards(s: Syntax, r: string, st: Scan)
    requires SyntaxOk(s) && s.open != "" && s.close != "" && forall i :: 0 <= i < |r| ==> !Matches(r, i, s.close)
    requires st.i <= |r| == |st.hl| && st.inComment && st.inString == NUL
    requires forall k :: 0 <= k < st.i ==> st.hl[k] == MlComment
    ensures Finish(s, r, st).inComment && forall k :: 0 <= k < |r| ==> Finish(s, r, st).hl[k] == MlComment
    decreases |r| - st.i
  {
    hide Paint;
    if st.i < |r| {
      PaintOne(st.hl, st.i, MlComment);
      InsideOnwards(s, r, Next(s, r, st));
    }
  }

  /** A row that starts inside a comment and has no closing mark is comment throughout, and so is the start of the
      next row. */
  lemma InsideStays(s: Syntax, r: string)
    requires SyntaxOk(s) && s.open != "" && s.close != "" && forall i :: 0 <= i < |r| ==> !Matches(r, i, s.close)
    ensures Highlight(s, r, true) == Result(seq(|r|, _ => MlComment), true)
  {
    hide Next;
    InsideOnwards(s, r, Start(r, true));
  }

  lemma OutsideStep(s: Syntax, r: string, st: Scan)
    requires SyntaxOk(s) && st.i < |r| == |st.hl| && !Matches(r, st.i, s.open)
    requires !st.inComment && MlComment !in st.hl
    ensures !Next(s, r, st).inComment && MlComment !in Next(s, r, st).hl
  {
    hide Matches, IsSeparator, IsDigit;
  }

  lemma {:induction false} OutsideOnwards(s: Syntax, r: string, st: Scan)
    requires SyntaxOk(s) && forall i :: 0 <= i < |r| ==> !Matches(r, i, s.open)
    requires st.i <= |r| == |st.hl| && !st.inComment && MlComment !in st.hl
    ensures !Finish(s, r, st).inComment && MlComment !in Finish(s, r, st).hl
    decreases |r| - st.i
  {
    hide Next, Matches;
    if st.i < |r| {
      OutsideStep(s, r, st);
      OutsideOnwards(s, r, Next(s, r, st));
    }
  }

  /** A row that starts outside comments and has no opening mark ends outside, and nothing in it is a comment of
      several lines. */
  lemma OutsideStays(s: Syntax, r: string)
    requires SyntaxOk(s) && forall i :: 0 <= i < |r| ==> !Matches(r, i, s.open)
    ensures !Highlight(s, r, false).open && MlComment !in Highlight(s, r, false).hl
  {
    hide Next;
    OutsideOnwards(s, r, Start(r, false));
  }

  /** The row looks the same and ends the same inside and outside comments. */
  predicate EitherWay(s: Syntax, r: string)
    requires SyntaxOk(s)
  {
    Highlight(s, r, true) == Highlight(s, r, false)
  }

  lemma FirstInside(s: Syntax, r: string)
    requires SyntaxOk(s) && s.open != "" && s.close != "" && r != ""
    ensures MlComment in Highlight(s, r, true).hl
  {
    var st := Start(r, true);
    var n := Next(s, r, st);
    assert n.hl[0] == MlComment;
    assert Finish(s, r, n).hl[0] == Finish(s, r, n).hl[..n.i][0] == n.hl[..n.i][0];
  }

  /** Only a row with an opening mark of its own can look the same either way. */
  lemma EitherWayOpens(s: Syntax, r: string)
    requires SyntaxOk(s) && s.open != "" && s.close != "" && EitherWay(s, r)
    ensures exists i :: 0 <= i < |r| && Matches(r, i, s.open)
  {
    if forall i :: 0 <= i < |r| ==> !Matches(r, i, s.open) {
      OutsideStays(s, r);
      if r != "" { FirstInside(s, r); }
    }
  }

  /** memset of n classes. */
  method SetClasses(hl: array<Hl>, i: nat, n: nat, h: Hl)
    requires i + n <= hl.Length
    modifies hl
    ensures hl[..] == Paint(old(hl[..]), i, n, h)
  {
    ghost var was := hl[..];
    var j := 0;
    while j < n
      invariant 0 <= j <= n
      invariant hl[..] == Paint(was, i, j, h)
    {
      hl[i + j] := h;
      j := j + 1;
    }
  }

  lemma PaintTwice(hl: seq<Hl>, i: nat, m: nat, n: nat, h: Hl)
    requires m <= n && i + n <= |hl|
    ensures Paint(Paint(hl, i, m, h), i, n, h) == Paint(hl, i, n, h)
  {}

  method SetClass(hl: array<Hl>, i: nat, h: Hl)
    requires i < hl.Length
    modifies hl
    ensures hl[..] == Paint(old(hl[..]), i, 1, h)
  {
    hl[i] := h;
    PaintOne(old(hl[..]), i, h);
  }

  lemma MatchesFits(r: string, i: nat, mark: string)
    requires Matches(r, i, mark)
    ensures i + |mark| <= |r|
  {}

  method MarkStep(s: Syntax, r: string, i0: nat, prevSep0: bool, inString: char, inComment0: bool, hl: array<Hl>)
    returns (done: bool, i: nat, prevSep: bool, inComment: bool)
    requires i0 < |r| == hl.Length
    modifies hl
    ensures (if done then Some(Scan(i, prevSep, inString, inComment, hl[..])) else None)
         == NextMark(s, r, Scan(i0, prevSep0, inString, inComment0, old(hl[..])))
    ensures !done ==> i == i0 && prevSep == prevSep0 && inComment == inComment0 && hl[..] == old(hl[..])
  {
    hide Paint, Matches;
    i, prevSep, inComment := i0, prevSep0, inComment0;
    if s.single != "" && inString == NUL && !inComment {
      if Matches(r, i, s.single) {
        SetClasses(hl, i, |r| - i, Comment);
        return true, |r|, prevSep, inComment;
      }
    }
    if s.open != "" && s.close != "" && inString == NUL {
      if inComment {
        SetClass(hl, i, MlComment);
        if Matches(r, i, s.close) {
          MatchesFits(r, i, s.close);
          SetClasses(hl, i, |s.close|, MlComment);
          PaintTwice(old(hl[..]), i, 1, |s.close|, MlComment);
          return true, i + |s.close|, true, false;
        } else {
          return true, i + 1, prevSep, inComment;
        }
      } else if Matches(r, i, s.open) {
        MatchesFits(r, i, s.open);
        SetClasses(hl, i, |s.open|, MlComment);
        return true, i + |s.open|, prevSep, true;
      }
    }
    done := false;
  }

  lemma PaintTwo(hl: seq<Hl>, i: nat, h: Hl)
    requires i + 2 <= |hl|
    ensures hl[i := h][i + 1 := h] == Paint(hl, i, 2, h)
  {}

  method LiteralStep(s: Syntax, r: string, i0: nat, prevSep0: bool, inString0: char, inComment: bool, hl: array<Hl>)
    returns (done: bool, i: nat, prevSep: bool, inString: char)
    requires i0 < |r| == hl.Length
    modifies hl
    ensures (if done then Some(Scan(i, prevSep, inString, inComment, hl[..])) else None)
         == NextLiteral(s, r, Scan(i0, prevSep0, inString0, inComment, old(hl[..])))
    ensures !done ==> i == i0 && prevSep == prevSep0 && inString == inString0 && hl[..] == old(hl[..])
  {
    hide Paint;
    i, prevSep, inString := i0, prevSep0, inString0;
    var c := r[i];
    var prevHl := if i > 0 then hl[i - 1] else Normal;
    if s.strings {
      if inString != NUL {
        if c == '\\' && i + 1 < |r| {
          hl[i] := Str;
          hl[i + 1] := Str;
          PaintTwo(old(hl[..]), i, Str);
          return true, i + 2, prevSep, inString;
        }
        SetClass(hl, i, Str);
        return true, i + 1, true, if c == inString then NUL else inString;
      } else if c == '"' || c == '\'' {
        SetClass(hl, i, Str);
        return true, i + 1, prevSep, c;
      }
    }
    if s.numbers {
      if (IsDigit(c) && (prevSep || prevHl == Number)) || (c == '.' && prevHl == Number) {
        SetClass(hl, i, Number);
        return true, i + 1, false, inString;
      }
    }
    done := false;
  }

  method WordStep(s: Syntax, r: string, i0: nat, prevSep0: bool, inString: char, inComment: bool, hl: array<Hl>)
    returns (i: nat, prevSep: bool)
    requires SyntaxOk(s) && i0 < |r| == hl.Length
    modifies hl
    ensures Scan(i, prevSep, inString, inComment, hl[..])
            == NextWord(s, r, Scan(i0, prevSep0, inString, inComment, old(hl[..])))
  {
    hide Paint;
    i, prevSep := i0, prevSep0;
    if prevSep {
      var j := 0;
      while j < |s.keywords|
        invariant 0 <= j <= |s.keywords|
        invariant forall k :: 0 <= k < j ==> !KeywordAt(r, i, s.keywords[k])
      {
        if KeywordAt(r, i, s.keywords[j]) {
          assert KeywordFound(s, r, i) == Some(j);
          var n := |WordOf(s.keywords[j])|;
          SetClasses(hl, i, n, if SecondKind(s.keywords[j]) then Keyword2 else Keyword1);
          return i + n, false;
        }
        j := j + 1;
      }
      assert KeywordFound(s, r, i) == None;
    }
    prevSep := IsSeparator(r[i]);
    i := i + 1;
  }

  /** One turn of the loop. */
  method ScanStep(s: Syntax, r: string, i0: nat, prevSep0: bool, inString0: char, inComment0: bool, hl: array<Hl>)
    returns (i: nat, prevSep: bool, inString: char, inComment: bool)
    requires SyntaxOk(s) && i0 < |r| == hl.Length
    modifies hl
    ensures Scan(i, prevSep, inString, inComment, hl[..])
            == Next(s, r, Scan(i0, prevSep0, inString0, inComment0, old(hl[..])))
  {
    hide NextMark, NextLiteral, NextWord;
    var done: bool;
    inString := inString0;
    done, i, prevSep, inComment := MarkStep(s, r, i0, prevSep0, inString0, inComment0, hl);
    if done { return; }
    done, i, prevSep, inString := LiteralStep(s, r, i, prevSep, inString, inComment, hl);
    if done { return; }
    i, prevSep := WordStep(s, r, i, prevSep, inString, inComment, hl);
  }

  /** The scan, step by step in place. */
  method ScanRow(s: Syntax, r: string, openBefore: bool) returns (hl: array<Hl>, inComment: bool)
    requires SyntaxOk(s)
    ensures fresh(hl)
    ensures Result(hl[..], inComment) == Highlight(s, r, openBefore)
  {
    hl := new Hl[|r|](_ => Normal);
    var i, prevSep, inString := 0, true, NUL;
    inComment := openBefore;
    assert hl[..] == Start(r, openBefore).hl;
    while i < |r|
      invariant i <= |r| == hl.Length
      invariant Finish(s, r, Scan(i, prevSep, inString, inComment, hl[..])) == Finish(s, r, Start(r, openBefore))
    {
      ghost var st := Scan(i, prevSep, inString, inComment, hl[..]);
      i, prevSep, inString, inComment := ScanStep(s, r, i, prevSep, inString, inComment, hl);
    }
  }
}
