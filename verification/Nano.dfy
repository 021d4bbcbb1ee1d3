/** The editor: the file's rows, the cursor and the operations that keep rows, rendering and colours together. */
module Nano {
  import opened Common
  import opened Highlighting
  import opened EditorText
  import opened RowColors

  function Lines(rows: seq<Row>): (r: seq<string>)
    ensures |r| == |rows| && forall k :: 0 <= k < |r| ==> r[k] == rows[k].chars
  {
    seq(|rows|, k requires 0 <= k < |rows| => rows[k].chars)
  }

  /** Row indices are positions. */
  predicate Numbered(rows: seq<Row>) {
    forall k :: 0 <= k < |rows| ==> rows[k].idx == k
  }

  predicate Rendered(rows: seq<Row>) {
    forall k :: 0 <= k < |rows| ==> rows[k].render == Render(rows[k].chars)
  }

  lemma NoText(lines: seq<string>)
    ensures Text(lines[..0]) == ""
  {}

  lemma TextNext(lines: seq<string>, j: nat)
    requires j < |lines|
    ensures Text(lines[..j + 1]) == Text(lines[..j]) + (lines[j] + "\n") && |Text(lines[..j + 1])| <= |Text(lines)|
  {
    hide Text;
    assert lines[..j + 1] == lines[..j] + [lines[j]];
    TextAppend(lines[..j], [lines[j]]);
    OneLine(lines[j]);
    assert lines == lines[..j + 1] + lines[j + 1..];
    TextAppend(lines[..j + 1], lines[j + 1..]);
  }

  /** memcpy. */
  method CopyInto(buf: array<char>, p: nat, s: string)
    requires p + |s| <= buf.Length
    modifies buf
    ensures buf[..p + |s|] == old(buf[..p]) + s
  {
    var i := 0;
    while i < |s|
      invariant 0 <= i <= |s| && buf[..p + i] == old(buf[..p]) + s[..i]
    {
      buf[p + i] := s[i];
      i := i + 1;
    }
    assert s[..i] == s;
  }

  lemma PrefixKept(was: seq<Row>, now: seq<Row>, syntax: Option<Syntax>, k: nat)
    requires (syntax.Some? ==> SyntaxOk(syntax.value)) && Updated(was, now, syntax, k, |was|)
    requires forall j :: 0 <= j < k ==> Colored(was, syntax, j)
    ensures forall j :: 0 <= j <= k ==> Colored(now, syntax, j)
  {
    hide Highlight, SyntaxOk;
    assert forall j :: 0 <= j < k ==> now[j] == now[..k][j] == was[..k][j] == was[j];
    forall j | 0 <= j < k ensures Colored(now, syntax, j) {
      assert Colored(was, syntax, j);
    }
  }

  lemma ErasedLine(lines: seq<string>, cy: nat, cx: nat)
    requires cy < |lines| && 0 < cx <= |lines[cy]|
    ensures |Erased(lines, cy, cx)| == |lines| && |Erased(lines, cy, cx)[cy]| == |lines[cy]| - 1
  {}

  lemma MergedLines(lines: seq<string>, cy: nat)
    requires 0 < cy < |lines|
    ensures var l := lines[cy - 1 := lines[cy - 1] + lines[cy]];
            Merged(lines, cy) == l[..cy] + l[cy + 1..] && Merged(lines, cy)[cy - 1] == lines[cy - 1] + lines[cy]
  {}

  lemma TypedOnNew(lines: seq<string>, c: char)
    ensures Typed(lines + [""], |lines|, 0, c) == lines + [[c]]
  {
    assert ""[..0] + [c] + ""[0..] == [c];
  }

  /** The renumbered rows with the new one, once it is rendered. */
  lemma NewRow(was: seq<Row>, mid: seq<Row>, at: nat, s: string)
    requires at <= |was| && |mid| == |was| + 1 && Numbered(was)
    requires mid[..at] == was[..at] && mid[at] == Row(at, s, "", [], false)
    requires forall k :: at < k < |mid| ==> mid[k] == was[k - 1].(idx := k)
    ensures Numbered(mid) && Rewritten(mid, at, s) == WithRow(was, at, s)
  {
    hide Render;
    assert forall k :: 0 <= k < at ==> mid[k] == mid[..at][k] == was[k];
  }

  lemma NewLines(was: seq<Row>, now: seq<Row>, at: nat, s: string)
    requires at <= |was| && Rendered(was) && Numbered(was) && SameText(now, WithRow(was, at, s))
    ensures Rendered(now) && Numbered(now) && Lines(now) == Lines(was)[..at] + [s] + Lines(was)[at..]
  {
    hide Render;
    var l := Lines(was)[..at] + [s] + Lines(was)[at..];
    assert forall k :: 0 <= k < |now| ==> now[k].chars == l[k];
  }

  lemma RowGone(was: seq<Row>, now: seq<Row>, at: nat)
    requires at < |was| == |now| + 1 && Rendered(was) && Numbered(was)
    requires now[..at] == was[..at] && forall k :: at <= k < |now| ==> now[k] == was[k + 1].(idx := k)
    ensures Rendered(now) && Numbered(now) && now == WithoutRow(was, at)
    ensures Lines(now) == Lines(was)[..at] + Lines(was)[at + 1..]
  {
    hide Render;
    assert forall k :: 0 <= k < at ==> now[k] == now[..at][k] == was[..at][k] == was[k];
  }

  class Editor {
    var rows: seq<Row>
    var numrows: nat
    var cx: nat
    var cy: nat
    var dirty: nat
    var syntax: Option<Syntax>
    var filename: Option<string>

    constructor ()
      ensures Valid() && rows == [] && cx == 0 && cy == 0 && syntax == None && filename == None
    {
      rows, numrows, cx, cy, dirty, syntax, filename := [], 0, 0, 0, 0, None, None;
    }

    ghost predicate SyntaxFine()
      reads this
    {
      syntax.Some? ==> SyntaxOk(syntax.value)
    }

    ghost function View(): View
      reads this
    {
      EditorText.View(Lines(rows), cy, cx)
    }

    ghost predicate Valid()
      reads this
    {
      && numrows == |rows| && Numbered(rows) && Rendered(rows) && SyntaxFine()
      && OnText(View())
    }

    /** Colours row k, and goes on with the next row only when the flag of this one changed. */
    method UpdateSyntax(k: nat)
      requires k < |rows| && numrows <= |rows| && Numbered(rows) && SyntaxFine()
      modifies this`rows
      ensures rows == Recolored(old(rows), syntax, k, numrows)
      ensures SameText(rows, old(rows)) && Updated(old(rows), rows, syntax, k, numrows)
      decreases |rows| - k
    {
      hide Highlight, SyntaxOk;
      RecoloredUpdates(rows, syntax, k, numrows);
      var row := rows[k];
      if syntax.None? {
        rows := rows[k := row.(hl := seq(|row.render|, _ => Normal))];
        return;
      }
      var inComment := row.idx > 0 && rows[row.idx - 1].open;
      var hl, open := ScanRow(syntax.value, row.render, inComment);
      var changed := row.open != open;
      rows := rows[k := row.(hl := hl[..], open := open)];
      if changed && row.idx + 1 < numrows {
        UpdateSyntax(k + 1);
      }
    }

    /** Renders row k anew and colours it. */
    method UpdateRow(k: nat)
      requires k < |rows| && numrows <= |rows| && Numbered(rows) && SyntaxFine()
      modifies this`rows
      ensures rows == Recolored(Rewritten(old(rows), k, old(rows)[k].chars), syntax, k, numrows)
      ensures SameText(rows, Rewritten(old(rows), k, old(rows)[k].chars))
      ensures Updated(Rewritten(old(rows), k, old(rows)[k].chars), rows, syntax, k, numrows)
    {
      hide Highlight, SyntaxOk, Recolored;
      var render := RenderRow(rows[k].chars);
      rows := rows[k := rows[k].(render := render)];
      UpdateSyntax(k);
    }

    /** Changes the characters of row k and updates it. */
    method SetChars(k: nat, chars: string)
      requires k < |rows| && numrows == |rows| && Numbered(rows) && Rendered(rows) && SyntaxFine()
      modifies this`rows, this`dirty
      ensures numrows == |rows| && Numbered(rows) && Rendered(rows)
      ensures rows == Recolored(Rewritten(old(rows), k, chars), syntax, k, numrows)
      ensures Lines(rows) == Lines(old(rows))[k := chars]
      ensures AllColored(old(rows), syntax) ==> AllColored(rows, syntax)
      ensures dirty == old(dirty) + 1
    {
      hide Highlight, SyntaxOk, Render, Recolored, AllColored;
      rows := rows[k := rows[k].(chars := chars)];
      assert Rewritten(rows, k, chars) == Rewritten(old(rows), k, chars);
      UpdateRow(k);
      if AllColored(old(rows), syntax) { RewrittenColored(old(rows), syntax, k, chars); }
      dirty := dirty + 1;
    }

    /** Puts a character into row k; a place outside the row is its end. */
    method RowInsertChar(k: nat, at: int, c: char)
      requires k < |rows| && numrows == |rows| && Numbered(rows) && Rendered(rows) && SyntaxFine()
      modifies this`rows, this`dirty
      ensures numrows == |rows| && Numbered(rows) && Rendered(rows)
      ensures var l := Lines(old(rows)); var i := if 0 <= at <= |l[k]| then at else |l[k]|;
              Lines(rows) == Typed(l, k, i, c)
      ensures AllColored(old(rows), syntax) ==> AllColored(rows, syntax)
      ensures dirty == old(dirty) + 1
    {
      var chars := rows[k].chars;
      var i := if at < 0 || at > |chars| then |chars| else at;
      SetChars(k, chars[..i] + [c] + chars[i..]);
    }

    method RowAppendString(k: nat, s: string)
      requires k < |rows| && numrows == |rows| && Numbered(rows) && Rendered(rows) && SyntaxFine()
      modifies this`rows, this`dirty
      ensures numrows == |rows| && Numbered(rows) && Rendered(rows)
      ensures Lines(rows) == Lines(old(rows))[k := Lines(old(rows))[k] + s]
      ensures rows == Recolored(Rewritten(old(rows), k, old(rows)[k].chars + s), syntax, k, numrows)
      ensures AllColored(old(rows), syntax) ==> AllColored(rows, syntax)
      ensures dirty == old(dirty) + 1
    {
      SetChars(k, rows[k].chars + s);
    }

    /** Takes a character out of row k; a place outside the row changes nothing. */
    method RowDeleteChar(k: nat, at: int)
      requires k < |rows| && numrows == |rows| && Numbered(rows) && Rendered(rows) && SyntaxFine()
      modifies this`rows, this`dirty
      ensures numrows == |rows| && Numbered(rows) && Rendered(rows)
      ensures var l := Lines(old(rows));
              if 0 <= at < |l[k]| then Lines(rows) == Erased(l, k, at + 1) && dirty == old(dirty) + 1
              else rows == old(rows) && dirty == old(dirty)
      ensures AllColored(old(rows), syntax) ==> AllColored(rows, syntax)
    {
      var chars := rows[k].chars;
      if at < 0 || at >= |chars| { return; }
      SetChars(k, chars[..at] + chars[at + 1..]);
    }

    /** Puts a new row at a place from 0 to the number of rows; the rows after it are renumbered. */
    method InsertRow(at: int, s: string)
      requires numrows == |rows| && Numbered(rows) && Rendered(rows) && SyntaxFine()
      modifies this`rows, this`dirty, this`numrows
      ensures numrows == |rows| && Numbered(rows) && Rendered(rows)
      ensures if 0 <= at <= old(numrows) then
                && rows == Recolored(WithRow(old(rows), at, s), syntax, at, old(numrows))
                && Lines(rows) == Lines(old(rows))[..at] + [s] + Lines(old(rows))[at..] && dirty == old(dirty) + 1
              else rows == old(rows) && dirty == old(dirty)
      ensures 0 <= at <= old(numrows) && AllColored(old(rows), syntax) ==>
                (AllColored(rows, syntax) <==> InsertionKeeps(old(rows), syntax, at, s))
    {
      hide Highlight, SyntaxOk, Render, Recolored, AllColored, InsertionKeeps;
      if at < 0 || at > numrows { return; }
      ghost var was := rows;
      rows := rows[..at] + [Row(at, s, "", [], false)] + rows[at..];
      var j := at + 1;
      while j <= numrows
        modifies this`rows
        invariant at + 1 <= j <= numrows + 1 == |rows|
        invariant rows[..at] == was[..at] && rows[at] == Row(at, s, "", [], false)
        invariant forall k :: at < k < j ==> rows[k] == was[k - 1].(idx := k)
        invariant forall k :: j <= k <= numrows ==> rows[k] == was[k - 1]
      {
        rows := rows[j := rows[j].(idx := rows[j].idx + 1)];
        j := j + 1;
      }
      NewRow(was, rows, at, s);
      UpdateRow(at);
      NewLines(was, rows, at, s);
      if AllColored(was, syntax) { InsertedIff(was, syntax, at, s); }
      numrows := numrows + 1;
      dirty := dirty + 1;
    }

    method DeleteRow(at: int)
      requires numrows == |rows| && Numbered(rows) && Rendered(rows) && SyntaxFine()
      modifies this`rows, this`dirty, this`numrows
      ensures numrows == |rows| && Numbered(rows) && Rendered(rows)
      ensures if 0 <= at < old(numrows) then
                && rows == WithoutRow(old(rows), at)
                && Lines(rows) == Lines(old(rows))[..at] + Lines(old(rows))[at + 1..] && dirty == old(dirty) + 1
              else rows == old(rows) && dirty == old(dirty)
      ensures 0 <= at < old(numrows) && AllColored(old(rows), syntax) ==>
                && (AllColored(rows, syntax) <==> RemovalKeeps(old(rows), syntax, at))
                && forall k :: 0 <= k < |rows| && k != at ==> Colored(rows, syntax, k)
    {
      hide Highlight, SyntaxOk, Render, AllColored, Colored, RemovalKeeps;
      if at < 0 || at >= numrows { return; }
      ghost var was := rows;
      rows := rows[..at] + rows[at + 1..];
      var j := at;
      while j < numrows - 1
        modifies this`rows
        invariant at <= j <= numrows - 1 == |rows|
        invariant rows[..at] == was[..at]
        invariant forall k :: at <= k < j ==> rows[k] == was[k + 1].(idx := k)
        invariant forall k :: j <= k < numrows - 1 ==> rows[k] == was[k + 1]
      {
        rows := rows[j := rows[j].(idx := rows[j].idx - 1)];
        j := j + 1;
      }
      RowGone(was, rows, at);
      if AllColored(was, syntax) { RemovedIff(was, syntax, at); }
      numrows := numrows - 1;
      dirty := dirty + 1;
    }

    method InsertChar(c: char)
      requires Valid()
      modifies this
      ensures Valid() && View() == Character(old(View()), c) && syntax == old(syntax) && filename == old(filename)
      ensures AllColored(old(rows), syntax) ==> AllColored(rows, syntax)
    {
      hide Highlight, SyntaxOk, Render, Recolored, AllColored, WithRow;
      if cy == numrows {
        InsertRow(numrows, "");
        TypedOnNew(Lines(old(rows)), c);
        assert Lines(rows) == Lines(old(rows)) + [""];
      }
      RowInsertChar(cy, cx, c);
      cx := cx + 1;
    }

    method InsertNewline()
      requires Valid()
      modifies this
      ensures Valid() && View() == Newline(old(View())) && syntax == old(syntax) && filename == old(filename)
      ensures AllColored(old(rows), syntax) ==>
                (AllColored(rows, syntax) <==> old(cx) == 0 || SplitKeeps(old(rows), syntax, old(cy), old(cx)))
    {
      hide Highlight, SyntaxOk, Render, Recolored, AllColored, WithRow, InsertionKeeps, SplitKeeps;
      if cx == 0 {
        InsertRow(cy, "");
        if AllColored(old(rows), syntax) { EmptyKeeps(old(rows), syntax, cy); }
      } else {
        var row := rows[cy];
        InsertRow(cy + 1, row.chars[cx..]);
        SetChars(cy, rows[cy].chars[..cx]);
        if AllColored(old(rows), syntax) { SplitIff(old(rows), syntax, cy, cx); }
      }
      cy := cy + 1;
      cx := 0;
    }

    /** Takes the line break before the cursor's row out. */
    method JoinRows()
      requires Valid() && 0 < cy < numrows && cx == 0
      modifies this
      ensures Valid() && syntax == old(syntax) && filename == old(filename)
      ensures cy == old(cy) - 1 && cx == |Lines(old(rows))[cy]| && Lines(rows) == Merged(Lines(old(rows)), old(cy))
      ensures rows == JoinedRows(old(rows), syntax, old(cy))
    {
      hide Highlight, SyntaxOk, Render, Recolored, Merged, AllColored, Colored, Rendered, Numbered, Rewritten,
           WithoutRow, RemovalKeeps, JoinKeeps;
      cx := |rows[cy - 1].chars|;
      RowAppendString(cy - 1, rows[cy].chars);
      DeleteRow(cy);
      MergedLines(Lines(old(rows)), cy);
      cy := cy - 1;
    }

    method DeleteChar()
      requires Valid()
      modifies this
      ensures Valid() && View() == Deletion(old(View())) && syntax == old(syntax) && filename == old(filename)
      ensures AllColored(old(rows), syntax) ==>
                (AllColored(rows, syntax) <==>
                  || old(cx) > 0 || old(cy) == 0 || old(cy) == old(numrows)
                  || JoinKeeps(old(rows), syntax, old(cy)))
    {
      hide Highlight, SyntaxOk, Render, Recolored, Merged, Erased, AllColored, Rendered, JoinedRows, JoinKeeps;
      if cy == numrows { return; }
      if cx == 0 && cy == 0 { return; }
      if cx > 0 {
        RowDeleteChar(cy, cx - 1);
        ErasedLine(Lines(old(rows)), cy, cx);
        cx := cx - 1;
      } else {
        JoinRows();
        if AllColored(old(rows), syntax) { JoinIff(old(rows), syntax, old(cy)); }
      }
    }

    /** Colours the rows from the first to the last. */
    method ColorAll()
      requires Valid() && syntax.Some?
      modifies this`rows
      ensures Valid() && View() == old(View()) && AllColored(rows, syntax)
    {
      hide Highlight, SyntaxOk, Recolored;
      var filerow := 0;
      while filerow < numrows
        modifies this`rows
        invariant 0 <= filerow <= numrows == |rows| && Numbered(rows)
        invariant SameText(rows, old(rows))
        invariant forall k :: 0 <= k < filerow ==> Colored(rows, syntax, k)
      {
        ghost var was := rows;
        UpdateSyntax(filerow);
        PrefixKept(was, rows, syntax, filerow);
        filerow := filerow + 1;
      }
      assert Lines(rows) == Lines(old(rows));
    }

    /** Chooses the syntax by the file's name and colours every row in turn; without a match the rows stay as they
        are. */
    method SelectSyntaxHighlight()
      requires Valid()
      modifies this`syntax, this`rows
      ensures Valid() && View() == old(View())
      ensures syntax == if filename.None? then None else SyntaxFor(filename.value)
      ensures if syntax.Some? then AllColored(rows, syntax) else rows == old(rows)
    {
      hide Highlight, SyntaxOk, NameMatches, Colored;
      syntax := None;
      if filename.None? { return; }
      var j := 0;
      while j < |HLDB|
        invariant 0 <= j <= |HLDB| && rows == old(rows) && syntax.None?
        invariant forall k :: 0 <= k < j ==> !AnyMatches(filename.value, HLDB[k].filematch)
      {
        var s := HLDB[j];
        var i := 0;
        while i < |s.filematch|
          invariant 0 <= i <= |s.filematch| && rows == old(rows) && syntax.None?
          invariant forall k :: 0 <= k < i ==> !NameMatches(filename.value, s.filematch[k])
        {
          if NameMatches(filename.value, s.filematch[i]) {
            TableOk(j);
            syntax := Some(s);
            ColorAll();
            return;
          }
          i := i + 1;
        }
        j := j + 1;
      }
    }

    /** The text written to the file. */
    method RowsToString() returns (buf: array<char>)
      requires Valid()
      ensures fresh(buf) && buf[..] == Text(Lines(rows))
    {
      hide Text;
      var totlen, j := 0, 0;
      NoText(Lines(rows));
      while j < numrows
        invariant 0 <= j <= numrows && totlen == |Text(Lines(rows)[..j])|
      {
        TextNext(Lines(rows), j);
        totlen := totlen + |rows[j].chars| + 1;
        j := j + 1;
      }
      assert Lines(rows)[..j] == Lines(rows);
      buf := new char[totlen](_ => ' ');
      var p := 0;
      j := 0;
      while j < numrows
        invariant 0 <= j <= numrows
        invariant 0 <= p <= totlen && buf[..p] == Text(Lines(rows)[..j])
      {
        TextNext(Lines(rows), j);
        ghost var done := buf[..p];
        CopyInto(buf, p, rows[j].chars);
        p := p + |rows[j].chars|;
        buf[p] := '\n';
        p := p + 1;
        assert buf[..p] == done + (rows[j].chars + "\n");
        j := j + 1;
      }
      assert Lines(rows)[..j] == Lines(rows);
    }
  }
}
