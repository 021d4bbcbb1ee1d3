/** The editor's rows as text: rendering, and what typing and deleting do to the joined text. */
module EditorText {
  const TAB_STOP := 8

  function Tabs(s: string): nat {
    if s == "" then 0 else Tabs(s[..|s| - 1]) + if s[|s| - 1] == '\t' then 1 else 0
  }

  function Blanks(n: nat): (r: string)
    ensures |r| == n
  {
    seq(n, _ => ' ')
  }

  /** A row with every tab replaced by blanks up to the next tab stop. */
  function Render(s: string): string {
    if s == "" then ""
    else
      var r := Render(s[..|s| - 1]);
      r + if s[|s| - 1] == '\t' then Blanks(TAB_STOP - |r| % TAB_STOP) else [s[|s| - 1]]
  }

  /** A tab reaches the next tab stop. */
  lemma TabReachesStop(s: string)
    ensures |Render(s + ['\t'])| % TAB_STOP == 0 && |Render(s)| < |Render(s + ['\t'])| <= |Render(s)| + TAB_STOP
  {
    assert (s + ['\t'])[..|s|] == s;
  }

  lemma {:induction false} RenderFits(s: string)
    ensures |s| <= |Render(s)| <= |s| + Tabs(s) * (TAB_STOP - 1)
  {
    if s != "" {
      RenderFits(s[..|s| - 1]);
    }
  }

  lemma {:induction false} RenderPrefix(s: string, k: nat)
    requires k <= |s|
    ensures |Render(s[..k])| <= |Render(s)| && Render(s)[..|Render(s[..k])|] == Render(s[..k])
    decreases |s| - k
  {
    if k == |s| {
      assert s[..k] == s;
    } else {
      RenderPrefix(s, k + 1);
      assert s[..k + 1][..k] == s[..k];
    }
  }

  /** Every character of the row stands in the rendering where the text before it ends, and is followed by what comes
      next; in place of a tab there are blanks up to the next multiple of eight. */
  lemma RenderedAt(s: string, k: nat)
    requires k < |s|
    ensures var x, y := |Render(s[..k])|, |Render(s[..k + 1])|;
            && x < y <= |Render(s)|
            && (s[k] != '\t' ==> y == x + 1 && Render(s)[x] == s[k])
            && (s[k] == '\t' ==> y % 8 == 0 && y <= x + 8 && forall i :: x <= i < y ==> Render(s)[i] == ' ')
  {
    RenderPrefix(s, k + 1);
    RenderPrefix(s, k);
    var r, t := Render(s), Render(s[..k + 1]);
    assert s[..k + 1][..k] == s[..k];
    assert r[..|t|] == t;
    forall i | |Render(s[..k])| <= i < |t| ensures r[i] == t[i] { assert r[i] == r[..|t|][i]; }
  }

  lemma {:induction false} TabsAppend(s: string, k: nat)
    requires k < |s|
    ensures Tabs(s[..k + 1]) == Tabs(s[..k]) + if s[k] == '\t' then 1 else 0
    ensures Tabs(s[..k + 1]) <= Tabs(s)
    decreases |s| - k
  {
    assert s[..k + 1][..k] == s[..k];
    if k + 1 < |s| {
      TabsAppend(s, k + 1);
    } else {
      assert s[..k + 1] == s;
    }
  }

  lemma RenderNext(s: string, k: nat)
    requires k < |s|
    ensures Render(s[..k + 1])
         == Render(s[..k]) + if s[k] == '\t' then Blanks(TAB_STOP - |Render(s[..k])| % TAB_STOP) else [s[k]]
  {
    assert s[..k + 1][..k] == s[..k];
  }

  /** The column at which character cx is shown: as many as the rendered characters before it. */
  method CxToRx(chars: string, cx: nat) returns (rx: nat)
    requires cx <= |chars|
    ensures rx == |Render(chars[..cx])|
  {
    rx := 0;
    var j := 0;
    while j < cx
      invariant 0 <= j <= cx && rx == |Render(chars[..j])|
    {
      RenderNext(chars, j);
      if chars[j] == '\t' {
        rx := rx + (TAB_STOP - 1) - rx % TAB_STOP;
      }
      rx := rx + 1;
      j := j + 1;
    }
  }

  lemma NothingRendered(chars: string)
    ensures Render(chars[..0]) == ""
  {}

  /** Through one more character the buffer has room, and a place for the NUL. */
  lemma Room(chars: string, j: nat)
    requires j < |chars|
    ensures |Render(chars[..j + 1])| <= |chars| + Tabs(chars) * (TAB_STOP - 1)
  {
    RenderFits(chars);
    RenderPrefix(chars, j + 1);
  }

  method PadTab(buf: array<char>, idx0: nat, ghost done: string) returns (idx: nat)
    requires idx0 < buf.Length && buf[..idx0] == done
    requires idx0 + (TAB_STOP - idx0 % TAB_STOP) < buf.Length
    modifies buf
    ensures idx == idx0 + (TAB_STOP - idx0 % TAB_STOP) && buf[..idx] == done + Blanks(TAB_STOP - idx0 % TAB_STOP)
  {
    idx := idx0;
    buf[idx] := ' ';
    idx := idx + 1;
    ghost var stop := idx0 + (TAB_STOP - idx0 % TAB_STOP);
    while idx % TAB_STOP != 0
      invariant idx0 < idx <= stop
      invariant buf[..idx] == done + Blanks(idx - idx0)
      decreases stop - idx
    {
      buf[idx] := ' ';
      idx := idx + 1;
    }
  }

  /** The characters, with tabs padded, in place. */
  method FillRow(chars: string, tabs: nat) returns (render: string)
    requires tabs == Tabs(chars)
    ensures render == Render(chars)
  {
    hide Render, Tabs;
    var buf := new char[|chars| + tabs * (TAB_STOP - 1) + 1](_ => ' ');
    var idx, j := 0, 0;
    NothingRendered(chars);
    while j < |chars|
      invariant 0 <= j <= |chars|
      invariant 0 <= idx < buf.Length && buf[..idx] == Render(chars[..j])
    {
      RenderNext(chars, j);
      Room(chars, j);
      ghost var done := buf[..idx];
      if chars[j] == '\t' {
        idx := PadTab(buf, idx, done);
      } else {
        buf[idx] := chars[j];
        idx := idx + 1;
      }
      j := j + 1;
    }
    assert chars[..j] == chars;
    buf[idx] := '\0';
    render := buf[..idx];
  }

  /** The rendered row, written into a buffer of the size computed beforehand. */
  method RenderRow(chars: string) returns (render: string)
    ensures render == Render(chars)
  {
    var tabs, j := 0, 0;
    while j < |chars|
      invariant 0 <= j <= |chars| && tabs == Tabs(chars[..j])
    {
      TabsAppend(chars, j);
      if chars[j] == '\t' { tabs := tabs + 1; }
      j := j + 1;
    }
    assert chars[..j] == chars;
    render := FillRow(chars, tabs);
  }

  // ---------------------------------------------------------------- the joined text

  function Text(lines: seq<string>): string {
    if lines == [] then "" else lines[0] + "\n" + Text(lines[1..])
  }

  lemma {:induction false} TextAppend(a: seq<string>, b: seq<string>)
    ensures Text(a + b) == Text(a) + Text(b)
  {
    if a == [] {
      assert a + b == b;
    } else {
      TextAppend(a[1..], b);
      assert (a + b)[1..] == a[1..] + b;
    }
  }

  /** The place of the cursor in the joined text. */
  function Offset(lines: seq<string>, cy: nat, cx: nat): nat
    requires cy <= |lines|
  {
    |Text(lines[..cy])| + cx
  }

  function Framed(p: string, l: string, q: string): string {
    p + (l + "\n") + q
  }

  lemma OneLine(l: string)
    ensures Text([l]) == l + "\n"
  {
    assert [l][1..] == [];
    assert Text([l]) == l + "\n" + Text([]);
  }

  lemma TextFramed(p: seq<string>, l: string, q: seq<string>)
    ensures Text(p + [l] + q) == Framed(Text(p), l, Text(q))
  {
    hide Text;
    TextAppend(p + [l], q);
    TextAppend(p, [l]);
    OneLine(l);
  }

  /** The text around line cy. */
  lemma Around(lines: seq<string>, cy: nat)
    requires cy < |lines|
    ensures Text(lines) == Framed(Text(lines[..cy]), lines[cy], Text(lines[cy + 1..]))
  {
    hide Text, Framed;
    assert lines == lines[..cy] + [lines[cy]] + lines[cy + 1..];
    TextFramed(lines[..cy], lines[cy], lines[cy + 1..]);
  }

  /** A text with s put in at offset o. */
  function Inserted(t: string, o: nat, s: string): string
    requires o <= |t|
  {
    t[..o] + s + t[o..]
  }

  /** Putting s into the middle part of a text. */
  lemma InsertedInside(p: string, l: string, q: string, cx: nat, s: string)
    requires cx <= |l|
    ensures |p| + cx <= |Framed(p, l, q)|
    ensures Inserted(Framed(p, l, q), |p| + cx, s) == Framed(p, l[..cx] + s + l[cx..], q)
  {
    var t := p + (l + "\n") + q;
    assert t == (p + l[..cx]) + (l[cx..] + "\n" + q);
    assert t[..|p| + cx] == p + l[..cx] && t[|p| + cx..] == l[cx..] + "\n" + q;
  }

  function Deleted(t: string, o: nat): string
    requires o < |t|
  {
    t[..o] + t[o + 1..]
  }

  // What the edits do to the lines.
  function Typed(lines: seq<string>, cy: nat, cx: nat, c: char): seq<string>
    requires cy < |lines| && cx <= |lines[cy]|
  {
    lines[cy := lines[cy][..cx] + [c] + lines[cy][cx..]]
  }

  function Split(lines: seq<string>, cy: nat, cx: nat): seq<string>
    requires cy < |lines| && cx <= |lines[cy]|
  {
    lines[..cy] + [lines[cy][..cx], lines[cy][cx..]] + lines[cy + 1..]
  }

  function Erased(lines: seq<string>, cy: nat, cx: nat): seq<string>
    requires cy < |lines| && 0 < cx <= |lines[cy]|
  {
    lines[cy := lines[cy][..cx - 1] + lines[cy][cx..]]
  }

  function Merged(lines: seq<string>, cy: nat): seq<string>
    requires 0 < cy < |lines|
  {
    lines[..cy - 1] + [lines[cy - 1] + lines[cy]] + lines[cy + 1..]
  }

  /** Typing a character is insertion into the text, and the cursor moves past it. */
  lemma TypedText(lines: seq<string>, cy: nat, cx: nat, c: char)
    requires cy < |lines| && cx <= |lines[cy]|
    ensures Offset(lines, cy, cx) <= |Text(lines)|
    ensures Text(Typed(lines, cy, cx, c)) == Inserted(Text(lines), Offset(lines, cy, cx), [c])
    ensures Offset(Typed(lines, cy, cx, c), cy, cx + 1) == Offset(lines, cy, cx) + 1
  {
    hide Text, Inserted, Framed;
    var t := Typed(lines, cy, cx, c);
    Around(lines, cy);
    Around(t, cy);
    assert t[..cy] == lines[..cy] && t[cy + 1..] == lines[cy + 1..];
    InsertedInside(Text(lines[..cy]), lines[cy], Text(lines[cy + 1..]), cx, [c]);
  }

  lemma SplitFrame(p: seq<string>, x: string, y: string, q: seq<string>)
    ensures Text(p + [x, y] + q) == Framed(Text(p), x + "\n" + y, Text(q))
    ensures |Text(p + [x])| == |Text(p)| + |x| + 1
  {
    hide Text;
    assert Text(p) + (x + "\n") + (y + "\n") == Text(p) + (x + "\n" + y + "\n");
    assert p + [x, y] + q == p + [x] + [y] + q;
    TextAppend(p + [x] + [y], q);
    TextAppend(p + [x], [y]);
    TextAppend(p, [x]);
    OneLine(x);
    OneLine(y);
  }

  lemma SplitParts(p: seq<string>, l: string, q: seq<string>, cx: nat)
    requires cx <= |l|
    ensures |Text(p)| + cx <= |Framed(Text(p), l, Text(q))|
    ensures Text(p + [l[..cx], l[cx..]] + q) == Inserted(Framed(Text(p), l, Text(q)), |Text(p)| + cx, "\n")
    ensures |Text(p + [l[..cx]])| == |Text(p)| + cx + 1
  {
    hide Text, Inserted, Framed;
    SplitFrame(p, l[..cx], l[cx..], q);
    InsertedInside(Text(p), l, Text(q), cx, "\n");
  }

  lemma SplitShape(lines: seq<string>, cy: nat, cx: nat)
    requires cy < |lines| && cx <= |lines[cy]|
    ensures |Split(lines, cy, cx)| == |lines| + 1
    ensures Split(lines, cy, cx) == lines[..cy] + [lines[cy][..cx], lines[cy][cx..]] + lines[cy + 1..]
    ensures Split(lines, cy, cx)[..cy + 1] == lines[..cy] + [lines[cy][..cx]]
  {}

  /** Splitting a line is insertion of a newline. */
  lemma SplitText(lines: seq<string>, cy: nat, cx: nat)
    requires cy < |lines| && cx <= |lines[cy]|
    ensures Offset(lines, cy, cx) <= |Text(lines)|
    ensures Text(Split(lines, cy, cx)) == Inserted(Text(lines), Offset(lines, cy, cx), "\n")
    ensures Offset(Split(lines, cy, cx), cy + 1, 0) == Offset(lines, cy, cx) + 1
  {
    hide Text, Inserted, Split, Framed;
    SplitShape(lines, cy, cx);
    Around(lines, cy);
    SplitParts(lines[..cy], lines[cy], lines[cy + 1..], cx);
  }

  /** Deleting undoes typing. */
  lemma ErasedTyped(lines: seq<string>, cy: nat, cx: nat, c: char)
    requires cy < |lines| && cx <= |lines[cy]|
    ensures Erased(Typed(lines, cy, cx, c), cy, cx + 1) == lines
  {
    var l := lines[cy];
    var t := l[..cx] + [c] + l[cx..];
    assert t[..cx] + t[cx + 1..] == l;
  }

  /** Deleting at the start of a line undoes a newline. */
  lemma MergedSplit(lines: seq<string>, cy: nat, cx: nat)
    requires cy < |lines| && cx <= |lines[cy]|
    ensures Merged(Split(lines, cy, cx), cy + 1) == lines
  {
    var l := lines[cy];
    assert l[..cx] + l[cx..] == l;
    assert Split(lines, cy, cx)[..cy] == lines[..cy] && Split(lines, cy, cx)[cy + 2..] == lines[cy + 1..];
  }

  /** And deleting is always such an undoing: its result with the character typed again is what there was. */
  lemma TypedErased(lines: seq<string>, cy: nat, cx: nat)
    requires cy < |lines| && 0 < cx <= |lines[cy]|
    ensures Typed(Erased(lines, cy, cx), cy, cx - 1, lines[cy][cx - 1]) == lines
  {
    var l := lines[cy];
    var e := l[..cx - 1] + l[cx..];
    assert e[..cx - 1] + [l[cx - 1]] + e[cx - 1..] == l;
  }

  lemma SplitMerged(lines: seq<string>, cy: nat)
    requires 0 < cy < |lines|
    ensures Split(Merged(lines, cy), cy - 1, |lines[cy - 1]|) == lines
  {
    var a, b := lines[cy - 1], lines[cy];
    assert (a + b)[..|a|] == a && (a + b)[|a|..] == b;
    var m := Merged(lines, cy);
    assert m[cy - 1] == a + b && m[..cy - 1] == lines[..cy - 1] && m[cy..] == lines[cy + 1..];
  }

  lemma DeletedInserted(t: string, o: nat, c: char)
    requires o <= |t|
    ensures |Inserted(t, o, [c])| == |t| + 1 && Deleted(Inserted(t, o, [c]), o) == t
  {}

  /** Deleting a character is deletion from the text, one place before the cursor. */
  lemma ErasedText(lines: seq<string>, cy: nat, cx: nat)
    requires cy < |lines| && 0 < cx <= |lines[cy]|
    ensures 0 < Offset(lines, cy, cx) <= |Text(lines)|
    ensures Text(Erased(lines, cy, cx)) == Deleted(Text(lines), Offset(lines, cy, cx) - 1)
    ensures Offset(Erased(lines, cy, cx), cy, cx - 1) == Offset(lines, cy, cx) - 1
  {
    hide Text, Inserted, Deleted;
    var e := Erased(lines, cy, cx);
    TypedErased(lines, cy, cx);
    TypedText(e, cy, cx - 1, lines[cy][cx - 1]);
    DeletedInserted(Text(e), Offset(e, cy, cx - 1), lines[cy][cx - 1]);
    assert e[..cy] == lines[..cy];
    assert |Text(lines)| == |Text(e)| + 1;
  }

  /** Merging a line with the one before it is deletion of the newline between them. */
  lemma MergedText(lines: seq<string>, cy: nat)
    requires 0 < cy < |lines|
    ensures 0 < Offset(lines, cy, 0) <= |Text(lines)|
    ensures Text(Merged(lines, cy)) == Deleted(Text(lines), Offset(lines, cy, 0) - 1)
    ensures Offset(Merged(lines, cy), cy - 1, |lines[cy - 1]|) == Offset(lines, cy, 0) - 1
  {
    hide Text, Inserted, Deleted;
    var e := Merged(lines, cy);
    SplitMerged(lines, cy);
    SplitText(e, cy - 1, |lines[cy - 1]|);
    DeletedInserted(Text(e), Offset(e, cy - 1, |lines[cy - 1]|), '\n');
  }

  // ---------------------------------------------------------------- lines and cursor

  datatype View = View(lines: seq<string>, cy: nat, cx: nat)

  /** The cursor is on a line, or at the start of the empty place after the last one. */
  predicate OnText(v: View) {
    v.cy <= |v.lines| && v.cx <= if v.cy < |v.lines| then |v.lines[v.cy]| else 0
  }

  predicate AfterLast(v: View) {
    v.cy == |v.lines|
  }

  function Character(v: View, c: char): View
    requires OnText(v)
  {
    if AfterLast(v) then View(v.lines + [[c]], v.cy, v.cx + 1)
    else View(Typed(v.lines, v.cy, v.cx, c), v.cy, v.cx + 1)
  }

  function Newline(v: View): View
    requires OnText(v)
  {
    if v.cx == 0 then View(v.lines[..v.cy] + [""] + v.lines[v.cy..], v.cy + 1, 0)
    else View(Split(v.lines, v.cy, v.cx), v.cy + 1, 0)
  }

  function Deletion(v: View): View
    requires OnText(v)
  {
    if AfterLast(v) || (v.cx == 0 && v.cy == 0) then v
    else if v.cx > 0 then View(Erased(v.lines, v.cy, v.cx), v.cy, v.cx - 1)
    else View(Merged(v.lines, v.cy), v.cy - 1, |v.lines[v.cy - 1]|)
  }

  function Place(v: View): nat
    requires OnText(v)
  {
    Offset(v.lines, v.cy, v.cx)
  }

  lemma PlaceInText(v: View)
    requires OnText(v)
    ensures Place(v) <= |Text(v.lines)|
    ensures AfterLast(v) ==> Place(v) == |Text(v.lines)|
  {
    if AfterLast(v) {
      assert v.lines[..v.cy] == v.lines;
    } else {
      SplitText(v.lines, v.cy, v.cx);
    }
  }

  /** Typing refines insertion; on the empty place after the last line the new line brings its newline. */
  lemma CharacterRefines(v: View, c: char)
    requires OnText(v)
    ensures OnText(Character(v, c)) && Place(v) <= |Text(v.lines)|
    ensures Text(Character(v, c).lines) == Inserted(Text(v.lines), Place(v), if AfterLast(v) then [c] + "\n" else [c])
    ensures Place(Character(v, c)) == Place(v) + 1
  {
    hide Text;
    PlaceInText(v);
    if AfterLast(v) {
      TextAppend(v.lines, [[c]]);
      OneLine([c]);
      assert (v.lines + [[c]])[..v.cy] == v.lines[..v.cy];
    } else {
      TypedText(v.lines, v.cy, v.cx, c);
    }
  }

  lemma SplitAtStart(lines: seq<string>, cy: nat)
    requires cy < |lines|
    ensures Split(lines, cy, 0) == lines[..cy] + [""] + lines[cy..]
  {
    assert lines[cy..] == [lines[cy]] + lines[cy + 1..];
    assert lines[cy][..0] == "" && lines[cy][0..] == lines[cy];
  }

  /** A newline refines insertion of a newline everywhere. */
  lemma NewlineRefines(v: View)
    requires OnText(v)
    ensures OnText(Newline(v)) && Place(v) <= |Text(v.lines)|
    ensures Text(Newline(v).lines) == Inserted(Text(v.lines), Place(v), "\n")
    ensures Place(Newline(v)) == Place(v) + 1
  {
    hide Text;
    PlaceInText(v);
    if AfterLast(v) {
      TextAppend(v.lines, [""]);
      OneLine("");
      assert v.lines[..v.cy] == v.lines && v.lines[v.cy..] == [];
      assert Newline(v).lines == v.lines + [""] && Newline(v).lines[..v.cy + 1] == v.lines + [""];
    } else {
      SplitText(v.lines, v.cy, v.cx);
      if v.cx == 0 {
        SplitAtStart(v.lines, v.cy);
      }
    }
  }

  /** Deleting refines deletion of the character before the cursor, where there is one and the cursor is on a line. */
  lemma DeletionRefines(v: View)
    requires OnText(v)
    ensures OnText(Deletion(v))
    ensures !AfterLast(v) && (v.cx > 0 || v.cy > 0) ==>
              && 0 < Place(v) <= |Text(v.lines)|
              && Text(Deletion(v).lines) == Deleted(Text(v.lines), Place(v) - 1)
              && Place(Deletion(v)) == Place(v) - 1
  {
    hide Text;
    if !AfterLast(v) && v.cx > 0 {
      ErasedText(v.lines, v.cy, v.cx);
    } else if !AfterLast(v) && v.cy > 0 {
      MergedText(v.lines, v.cy);
    }
  }

  /** Deleting undoes typing, lines and cursor, exactly when the cursor was on a line. */
  lemma DeleteUndoesCharacter(v: View, c: char)
    requires OnText(v)
    ensures OnText(Character(v, c)) && (Deletion(Character(v, c)) == v <==> !AfterLast(v))
  {
    if AfterLast(v) {
      assert |Deletion(Character(v, c)).lines| == |v.lines| + 1;
    } else {
      ErasedTyped(v.lines, v.cy, v.cx, c);
    }
  }

  /** Deleting undoes a newline, lines and cursor, exactly when the cursor was on a line. */
  lemma DeleteUndoesNewline(v: View)
    requires OnText(v)
    ensures OnText(Newline(v)) && (Deletion(Newline(v)) == v <==> !AfterLast(v))
  {
    if AfterLast(v) {
      assert |Deletion(Newline(v)).lines| == |v.lines| + 1;
    } else {
      if v.cx == 0 {
        SplitAtStart(v.lines, v.cy);
      }
      MergedSplit(v.lines, v.cy, v.cx);
      assert Split(v.lines, v.cy, v.cx)[v.cy] == v.lines[v.cy][..v.cx];
    }
  }
}
