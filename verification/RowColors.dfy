/** The rows of the editor and their colours: what colouring one row does to the rows after it. */
module RowColors {
  import opened Common
  import opened Highlighting
  import opened EditorText

  datatype Row = Row(idx: int, chars: string, render: string, hl: seq<Hl>, open: bool)

  function OpenBefore(rows: seq<Row>, k: nat): bool
    requires k <= |rows|
  {
    k > 0 && rows[k - 1].open
  }

  /** Row k is coloured as its text and the row before it call for. */
  ghost predicate Colored(rows: seq<Row>, syntax: Option<Syntax>, k: nat)
    requires k < |rows| && (syntax.Some? ==> SyntaxOk(syntax.value))
  {
    if syntax.None? then rows[k].hl == seq(|rows[k].render|, _ => Normal)
    else Highlighting.Result(rows[k].hl, rows[k].open) == Highlight(syntax.value, rows[k].render, OpenBefore(rows, k))
  }

  /** Colouring the whole file from the top. */
  function FullPass(s: Syntax, renders: seq<string>): (r: seq<Highlighting.Result>)
    requires SyntaxOk(s)
    ensures |r| == |renders|
  {
    if renders == [] then []
    else
      var n := |renders| - 1;
      var before := FullPass(s, renders[..n]);
      before + [Highlight(s, renders[n], n > 0 && before[n - 1].open)]
  }

  function Renders(rows: seq<Row>): (r: seq<string>)
    ensures |r| == |rows| && forall k :: 0 <= k < |r| ==> r[k] == rows[k].render
  {
    seq(|rows|, k requires 0 <= k < |rows| => rows[k].render)
  }

  function Classes(rows: seq<Row>): (r: seq<Highlighting.Result>)
    ensures |r| == |rows| && forall k :: 0 <= k < |r| ==> r[k] == Highlighting.Result(rows[k].hl, rows[k].open)
  {
    seq(|rows|, k requires 0 <= k < |rows| => Highlighting.Result(rows[k].hl, rows[k].open))
  }

  ghost predicate AllColored(rows: seq<Row>, syntax: Option<Syntax>)
    requires syntax.Some? ==> SyntaxOk(syntax.value)
  {
    forall k :: 0 <= k < |rows| ==> Colored(rows, syntax, k)
  }

  /** The last row, once those before it are as the full pass makes them. */
  lemma LastColored(rows: seq<Row>, s: Syntax)
    requires SyntaxOk(s) && rows != []
    requires Classes(rows)[..|rows| - 1] == FullPass(s, Renders(rows)[..|rows| - 1])
    ensures Colored(rows, Some(s), |rows| - 1) <==> Classes(rows)[|rows| - 1] == FullPass(s, Renders(rows))[|rows| - 1]
  {
    hide Highlight;
    var n := |rows| - 1;
    assert n > 0 ==> FullPass(s, Renders(rows)[..n])[n - 1] == Classes(rows)[..n][n - 1] == Classes(rows)[n - 1];
  }

  lemma FrontColored(rows: seq<Row>, s: Syntax)
    requires SyntaxOk(s) && rows != []
    ensures AllColored(rows, Some(s)) <==> AllColored(rows[..|rows| - 1], Some(s)) && Colored(rows, Some(s), |rows| - 1)
  {
    hide Highlight;
    var n := |rows| - 1;
    forall k | 0 <= k < n ensures Colored(rows, Some(s), k) <==> Colored(rows[..n], Some(s), k) {}
  }

  lemma FullPassFront(s: Syntax, renders: seq<string>)
    requires SyntaxOk(s) && renders != []
    ensures FullPass(s, renders)[..|renders| - 1] == FullPass(s, renders[..|renders| - 1])
  {
    hide Highlight;
  }

  lemma NoRows(s: Syntax)
    requires SyntaxOk(s)
    ensures AllColored([], Some(s)) && FullPass(s, []) == [] && Classes([]) == [] && Renders([]) == []
  {}

  lemma SameSplit<T>(a: seq<T>, b: seq<T>, n: nat)
    requires |a| == |b| == n + 1
    ensures a == b <==> a[..n] == b[..n] && a[n] == b[n]
  {
    assert a == a[..n] + [a[n]] && b == b[..n] + [b[n]];
  }

  /** Every row is right with respect to the one before it exactly when all are as the full pass makes them. */
  lemma {:induction false} ColoredIsFullPass(rows: seq<Row>, s: Syntax)
    requires SyntaxOk(s)
    ensures AllColored(rows, Some(s)) <==> Classes(rows) == FullPass(s, Renders(rows))
  {
    hide Highlight, Colored, AllColored, FullPass, SyntaxOk;
    if rows == [] {
      NoRows(s);
    } else {
      var n := |rows| - 1;
      ColoredIsFullPass(rows[..n], s);
      assert Renders(rows)[..n] == Renders(rows[..n]) && Classes(rows)[..n] == Classes(rows[..n]);
      FrontColored(rows, s);
      FullPassFront(s, Renders(rows));
      SameSplit(Classes(rows), FullPass(s, Renders(rows)), n);
      if Classes(rows[..n]) == FullPass(s, Renders(rows[..n])) {
        LastColored(rows, s);
      }
    }
  }

  /** Only classes and flags differ. */
  predicate SameText(a: seq<Row>, b: seq<Row>) {
    |a| == |b| && forall k :: 0 <= k < |a| ==>
        a[k].idx == b[k].idx && a[k].chars == b[k].chars && a[k].render == b[k].render
  }

  /** Colouring row k, and the next row below n for as long as a row's flag changes. */
  function Recolored(rows: seq<Row>, syntax: Option<Syntax>, k: nat, n: nat): (r: seq<Row>)
    requires k < |rows| && n <= |rows| && (syntax.Some? ==> SyntaxOk(syntax.value))
    ensures |r| == |rows|
    decreases |rows| - k
  {
    if syntax.None? then rows[k := rows[k].(hl := seq(|rows[k].render|, _ => Normal))]
    else
      var h := Highlight(syntax.value, rows[k].render, OpenBefore(rows, k));
      var mid := rows[k := rows[k].(hl := h.hl, open := h.open)];
      if h.open != rows[k].open && k + 1 < n then Recolored(mid, syntax, k + 1, n) else mid
  }

  /** What colouring row k leaves: the rows before it, row k itself right, and no later row below n made wrong. */
  ghost predicate Updated(was: seq<Row>, now: seq<Row>, syntax: Option<Syntax>, k: nat, n: nat)
    requires syntax.Some? ==> SyntaxOk(syntax.value)
  {
    && k < |now| == |was|
    && n <= |now|
    && now[..k] == was[..k]
    && Colored(now, syntax, k)
    && forall j :: k < j < n && Colored(was, syntax, j) ==> Colored(now, syntax, j)
  }

  /** Colouring row k alone can make only the next row wrong, and only by changing the flag. */
  lemma RowColored(was: seq<Row>, mid: seq<Row>, s: Syntax, k: nat)
    requires k < |was| && SyntaxOk(s)
    requires var h := Highlight(s, was[k].render, OpenBefore(was, k));
             mid == was[k := was[k].(hl := h.hl, open := h.open)]
    ensures Colored(mid, Some(s), k)
    ensures forall j :: 0 <= j < |was| && j != k && j != k + 1 ==>
              (Colored(mid, Some(s), j) <==> Colored(was, Some(s), j))
    ensures k + 1 < |was| && was[k].open == mid[k].open ==>
              (Colored(mid, Some(s), k + 1) <==> Colored(was, Some(s), k + 1))
  {
    hide Highlight, SyntaxOk;
  }

  lemma GoesOn(was: seq<Row>, mid: seq<Row>, now: seq<Row>, syntax: Option<Syntax>, k: nat, n: nat)
    requires k + 1 < n <= |was| == |mid| && syntax.Some? && SyntaxOk(syntax.value)
    requires mid[..k] == was[..k] && Colored(mid, syntax, k)
    requires forall j :: k + 1 < j < |was| && Colored(was, syntax, j) ==> Colored(mid, syntax, j)
    requires Updated(mid, now, syntax, k + 1, n)
    ensures Updated(was, now, syntax, k, n)
  {
    hide Highlight, SyntaxOk;
    assert now[..k] == now[..k + 1][..k] == mid[..k];
    assert now[k] == now[..k + 1][k] == mid[k];
    assert k > 0 ==> now[k - 1] == now[..k][k - 1] == mid[k - 1];
  }

  lemma {:induction false} RecoloredUpdates(was: seq<Row>, syntax: Option<Syntax>, k: nat, n: nat)
    requires k < |was| && n <= |was| && (syntax.Some? ==> SyntaxOk(syntax.value))
    ensures var now := Recolored(was, syntax, k, n); SameText(now, was) && Updated(was, now, syntax, k, n)
    decreases |was| - k
  {
    hide Highlight, SyntaxOk;
    if syntax.Some? {
      var h := Highlight(syntax.value, was[k].render, OpenBefore(was, k));
      var mid := was[k := was[k].(hl := h.hl, open := h.open)];
      RowColored(was, mid, syntax.value, k);
      if h.open != was[k].open && k + 1 < n {
        RecoloredUpdates(mid, syntax, k + 1, n);
        GoesOn(was, mid, Recolored(mid, syntax, k + 1, n), syntax, k, n);
      }
    }
  }

  /** Whether these rows end inside a comment. */
  function FlagAfter(s: Syntax, renders: seq<string>, inComment: bool): bool
    requires SyntaxOk(s)
  {
    if renders == [] then inComment else FlagAfter(s, renders[1..], Highlight(s, renders[0], inComment).open)
  }

  ghost predicate ColoredBut(rows: seq<Row>, s: Syntax, k: nat, w: nat)
    requires SyntaxOk(s)
  {
    forall j :: 0 <= j < |rows| && j != k && j != w ==> Colored(rows, Some(s), j)
  }

  /** Right rows carry the flag on. */
  lemma {:induction false} FlagsFollow(rows: seq<Row>, s: Syntax, k: nat, n: nat)
    requires 0 < k <= n <= |rows| && SyntaxOk(s)
    requires forall j :: k <= j < n ==> Colored(rows, Some(s), j)
    ensures FlagAfter(s, Renders(rows)[k..n], rows[k - 1].open) == rows[n - 1].open
    decreases n - k
  {
    hide Highlight, SyntaxOk;
    if k < n {
      var r := Renders(rows)[k..n];
      assert r[1..] == Renders(rows)[k + 1..n] && r[0] == rows[k].render;
      assert Colored(rows, Some(s), k);
      FlagsFollow(rows, s, k + 1, n);
    }
  }

  /** The flag of row k is the one the rows after it start with. */
  lemma FirstFlag(rows: seq<Row>, mid: seq<Row>, s: Syntax, k: nat, n: nat)
    requires k < n <= |rows| && SyntaxOk(s)
    requires var h := Highlight(s, rows[k].render, OpenBefore(rows, k));
             mid == rows[k := rows[k].(hl := h.hl, open := h.open)]
    ensures Renders(mid) == Renders(rows)
    ensures FlagAfter(s, Renders(rows)[k..n], OpenBefore(rows, k)) == FlagAfter(s, Renders(mid)[k + 1..n], mid[k].open)
  {
    hide Highlight, SyntaxOk;
    var r := Renders(rows)[k..n];
    assert r[1..] == Renders(rows)[k + 1..n] && r[0] == rows[k].render;
  }

  /** The row after one whose flag changed is still right exactly when it looks the same either way. */
  lemma NextRow(was: seq<Row>, mid: seq<Row>, s: Syntax, k: nat)
    requires k + 1 < |was| == |mid| && SyntaxOk(s) && Colored(was, Some(s), k + 1)
    requires mid[k + 1] == was[k + 1]
    ensures Colored(mid, Some(s), k + 1) <==> mid[k].open == was[k].open || EitherWay(s, was[k + 1].render)
  {
    hide Highlight, SyntaxOk;
  }

  /**
   * When all rows but k are right, colouring row k below n leaves all rows right exactly when no row lies at n, or the
   * rows from k to n end with the flag they had, or the row at n looks the same either way.
   */
  lemma {:induction false} RecoloredIff(rows: seq<Row>, s: Syntax, k: nat, n: nat)
    requires k < n <= |rows| && SyntaxOk(s) && ColoredBut(rows, s, k, k)
    ensures ColoredBut(Recolored(rows, Some(s), k, n), s, n, n)
    ensures AllColored(Recolored(rows, Some(s), k, n), Some(s)) <==>
            || n == |rows|
            || FlagAfter(s, Renders(rows)[k..n], OpenBefore(rows, k)) == rows[n - 1].open
            || EitherWay(s, rows[n].render)
    decreases n - k
  {
    hide Highlight, SyntaxOk, FlagAfter;
    var h := Highlight(s, rows[k].render, OpenBefore(rows, k));
    var mid := rows[k := rows[k].(hl := h.hl, open := h.open)];
    RowColored(rows, mid, s, k);
    FirstFlag(rows, mid, s, k, n);
    if h.open == rows[k].open {
      FlagsFollow(mid, s, k + 1, n);
    } else if k + 1 < n {
      assert ColoredBut(mid, s, k + 1, k + 1);
      RecoloredIff(mid, s, k + 1, n);
      assert Recolored(rows, Some(s), k, n) == Recolored(mid, Some(s), k + 1, n);
      assert mid[n - 1] == rows[n - 1] && OpenBefore(mid, k + 1) == h.open;
    } else {
      FlagsFollow(mid, s, n, n);
      if n < |rows| { NextRow(rows, mid, s, k); }
    }
  }

  /**
   * When a row w after k is wrong too, colouring row k to the end leaves all rows right exactly when it gets as far as
   * w: the rows from k to w end with another flag than they had.
   */
  lemma {:induction false} RecoloredReaches(rows: seq<Row>, s: Syntax, k: nat, w: nat)
    requires k < w < |rows| && SyntaxOk(s) && ColoredBut(rows, s, k, w)
    ensures AllColored(Recolored(rows, Some(s), k, |rows|), Some(s)) <==>
            || Colored(rows, Some(s), w)
            || FlagAfter(s, Renders(rows)[k..w], OpenBefore(rows, k)) != rows[w - 1].open
    decreases w - k
  {
    hide Highlight, SyntaxOk, FlagAfter;
    var h := Highlight(s, rows[k].render, OpenBefore(rows, k));
    var mid := rows[k := rows[k].(hl := h.hl, open := h.open)];
    RowColored(rows, mid, s, k);
    FirstFlag(rows, mid, s, k, w);
    if h.open == rows[k].open {
      FlagsFollow(mid, s, k + 1, w);
    } else {
      assert Recolored(rows, Some(s), k, |rows|) == Recolored(mid, Some(s), k + 1, |rows|);
      if k + 1 == w {
        FlagsFollow(mid, s, w, w);
        assert ColoredBut(mid, s, w, w);
        RecoloredIff(mid, s, w, |rows|);
      } else {
        assert ColoredBut(mid, s, k + 1, w);
        RecoloredReaches(mid, s, k + 1, w);
      }
    }
  }

  /** A new row at a place from 0 to the number of rows, not coloured yet; the rows after it are renumbered. */
  function WithRow(rows: seq<Row>, at: nat, chars: string): (r: seq<Row>)
    requires at <= |rows|
    ensures |r| == |rows| + 1 && r[..at] == rows[..at] && r[at] == Row(at, chars, Render(chars), [], false)
    ensures forall k :: at < k < |r| ==> r[k] == rows[k - 1].(idx := k)
  {
    seq(|rows| + 1, k requires 0 <= k <= |rows| =>
      if k < at then rows[k] else if k == at then Row(at, chars, Render(chars), [], false) else rows[k - 1].(idx := k))
  }

  function WithoutRow(rows: seq<Row>, at: nat): (r: seq<Row>)
    requires at < |rows|
    ensures |r| == |rows| - 1 && r[..at] == rows[..at]
    ensures forall k :: at <= k < |r| ==> r[k] == rows[k + 1].(idx := k)
  {
    seq(|rows| - 1, k requires 0 <= k < |rows| - 1 => if k < at then rows[k] else rows[k + 1].(idx := k))
  }

  function Rewritten(rows: seq<Row>, k: nat, chars: string): (r: seq<Row>)
    requires k < |rows|
  {
    rows[k := rows[k].(chars := chars, render := Render(chars))]
  }

  /** Whether removing row at leaves the other rows right: nothing follows it, it kept the flag, or the next row
      looks the same. */
  predicate RemovalKeeps(rows: seq<Row>, syntax: Option<Syntax>, at: nat)
    requires at < |rows| && (syntax.Some? ==> SyntaxOk(syntax.value))
  {
    || syntax.None?
    || at + 1 == |rows|
    || rows[at].open == OpenBefore(rows, at)
    || EitherWay(syntax.value, rows[at + 1].render)
  }

  lemma RemovedIff(rows: seq<Row>, syntax: Option<Syntax>, at: nat)
    requires at < |rows| && (syntax.Some? ==> SyntaxOk(syntax.value)) && AllColored(rows, syntax)
    ensures AllColored(WithoutRow(rows, at), syntax) <==> RemovalKeeps(rows, syntax, at)
    ensures forall k :: 0 <= k < |rows| - 1 && k != at ==> Colored(WithoutRow(rows, at), syntax, k)
  {
    hide Highlight, SyntaxOk, WithoutRow;
    var now := WithoutRow(rows, at);
    assert forall k :: 0 <= k < at ==> now[k] == now[..at][k] == rows[..at][k] == rows[k];
    forall k | 0 <= k < |now| && k != at ensures Colored(now, syntax, k) {
      assert Colored(rows, syntax, if k < at then k else k + 1);
    }
    if at < |now| {
      assert Colored(rows, syntax, at + 1);
      assert Colored(now, syntax, at) <==> RemovalKeeps(rows, syntax, at);
    }
  }

  /**
   * Whether inserting a row leaves all rows right. When the new row ends inside a comment, colouring goes on below it
   * but never reaches the last row, since the number of rows is raised afterwards; otherwise it does not go on at all.
   */
  predicate InsertionKeeps(rows: seq<Row>, syntax: Option<Syntax>, at: nat, chars: string)
    requires at <= |rows| && (syntax.Some? ==> SyntaxOk(syntax.value))
  {
    syntax.None? || at == |rows| ||
    var s, n := syntax.value, |rows|;
    var flag := Highlight(s, Render(chars), OpenBefore(rows, at)).open;
    if flag && at + 1 < n then
      FlagAfter(s, Renders(rows)[at..n - 1], true) == rows[n - 2].open || EitherWay(s, rows[n - 1].render)
    else flag == OpenBefore(rows, at) || EitherWay(s, rows[at].render)
  }

  /** The one row an insertion may leave wrong. */
  function Doubtful(rows: seq<Row>, s: Syntax, at: nat, chars: string): (w: nat)
    requires at <= |rows| && SyntaxOk(s)
    ensures at < w
  {
    if Highlight(s, Render(chars), OpenBefore(rows, at)).open && at + 1 < |rows| then |rows| else at + 1
  }

  /** The rows around the new one, once it is coloured. */
  lemma InsertedColored(rows: seq<Row>, s: Syntax, at: nat, chars: string, mid: seq<Row>)
    requires at <= |rows| && SyntaxOk(s) && AllColored(rows, Some(s))
    requires var was := WithRow(rows, at, chars);
             var h := Highlight(s, Render(chars), OpenBefore(rows, at));
             mid == was[at := was[at].(hl := h.hl, open := h.open)]
    ensures Colored(mid, Some(s), at) && ColoredBut(mid, s, at + 1, at + 1)
    ensures at < |rows| ==> (Colored(mid, Some(s), at + 1) <==>
              mid[at].open == OpenBefore(rows, at) || EitherWay(s, rows[at].render))
  {
    hide Highlight, SyntaxOk, WithRow;
    var was := WithRow(rows, at, chars);
    assert forall k :: 0 <= k < at ==> mid[k] == was[..at][k] == rows[k];
    forall k | 0 <= k < |mid| && k != at && k != at + 1 ensures Colored(mid, Some(s), k) {
      assert Colored(rows, Some(s), if k < at then k else k - 1);
    }
    if at < |rows| { assert Colored(rows, Some(s), at); }
  }

  /** Without a syntax every row stays plain. */
  lemma PlainInserted(rows: seq<Row>, at: nat, chars: string)
    requires at <= |rows| && AllColored(rows, None)
    ensures AllColored(Recolored(WithRow(rows, at, chars), None, at, |rows|), None)
  {
    hide WithRow;
    var was := WithRow(rows, at, chars);
    var now := Recolored(was, None, at, |rows|);
    assert forall k :: 0 <= k < at ==> was[k] == was[..at][k] == rows[k];
    forall k | 0 <= k < |was| ensures Colored(now, None, k) {
      if k != at { assert Colored(rows, None, if k < at then k else k - 1); }
    }
  }

  lemma OneDoubtful(rows: seq<Row>, s: Syntax, w: nat)
    requires SyntaxOk(s) && ColoredBut(rows, s, w, w)
    ensures AllColored(rows, Some(s)) <==> w >= |rows| || Colored(rows, Some(s), w)
  {}

  /** The flag of the row above decides together with the text. */
  lemma BeforeNew(rows: seq<Row>, at: nat, chars: string)
    requires at <= |rows|
    ensures OpenBefore(WithRow(rows, at, chars), at) == OpenBefore(rows, at)
  {
    hide WithRow;
    var was := WithRow(rows, at, chars);
    assert at > 0 ==> was[at - 1] == was[..at][at - 1] == rows[at - 1];
  }

  lemma ShiftedRenders(rows: seq<Row>, at: nat, chars: string, now: seq<Row>)
    requires at < |rows| && SameText(now, WithRow(rows, at, chars))
    ensures Renders(now)[at + 1..|rows|] == Renders(rows)[at..|rows| - 1]
  {
    hide WithRow;
  }

  /** A new row that ends inside a comment, with at least two rows after it. */
  lemma InsertionGoesOn(rows: seq<Row>, s: Syntax, at: nat, chars: string)
    requires at + 1 < |rows| && SyntaxOk(s) && AllColored(rows, Some(s))
    requires Highlight(s, Render(chars), OpenBefore(rows, at)).open
    ensures var now := Recolored(WithRow(rows, at, chars), Some(s), at, |rows|);
            && (AllColored(now, Some(s)) <==> InsertionKeeps(rows, Some(s), at, chars))
            && ColoredBut(now, s, |rows|, |rows|)
  {
    hide Highlight, SyntaxOk, WithRow, EitherWay, FlagAfter, AllColored, ColoredBut;
    var was, n := WithRow(rows, at, chars), |rows|;
    BeforeNew(rows, at, chars);
    var h := Highlight(s, Render(chars), OpenBefore(rows, at));
    var mid := was[at := was[at].(hl := h.hl, open := h.open)];
    InsertedColored(rows, s, at, chars, mid);
    assert Recolored(was, Some(s), at, n) == Recolored(mid, Some(s), at + 1, n);
    RecoloredIff(mid, s, at + 1, n);
    ShiftedRenders(rows, at, chars, mid);
  }

  lemma InsertionStops(rows: seq<Row>, s: Syntax, at: nat, chars: string)
    requires at <= |rows| && SyntaxOk(s) && AllColored(rows, Some(s))
    requires at + 1 >= |rows| || !Highlight(s, Render(chars), OpenBefore(rows, at)).open
    ensures var now := Recolored(WithRow(rows, at, chars), Some(s), at, |rows|);
            && (AllColored(now, Some(s)) <==> InsertionKeeps(rows, Some(s), at, chars))
            && ColoredBut(now, s, at + 1, at + 1)
  {
    hide Highlight, SyntaxOk, WithRow, EitherWay, AllColored, ColoredBut;
    var was := WithRow(rows, at, chars);
    BeforeNew(rows, at, chars);
    var h := Highlight(s, Render(chars), OpenBefore(rows, at));
    var mid := was[at := was[at].(hl := h.hl, open := h.open)];
    InsertedColored(rows, s, at, chars, mid);
    assert Recolored(was, Some(s), at, |rows|) == mid;
    OneDoubtful(mid, s, at + 1);
  }

  lemma InsertedIff(rows: seq<Row>, syntax: Option<Syntax>, at: nat, chars: string)
    requires at <= |rows| && (syntax.Some? ==> SyntaxOk(syntax.value)) && AllColored(rows, syntax)
    ensures var now := Recolored(WithRow(rows, at, chars), syntax, at, |rows|);
            && (AllColored(now, syntax) <==> InsertionKeeps(rows, syntax, at, chars))
            && (syntax.Some? ==> var w := Doubtful(rows, syntax.value, at, chars); ColoredBut(now, syntax.value, w, w))
  {
    hide Highlight, SyntaxOk, WithRow, Recolored, AllColored, ColoredBut, EitherWay, FlagAfter;
    if syntax.None? {
      PlainInserted(rows, at, chars);
    } else if at + 1 < |rows| && Highlight(syntax.value, Render(chars), OpenBefore(rows, at)).open {
      InsertionGoesOn(rows, syntax.value, at, chars);
    } else {
      InsertionStops(rows, syntax.value, at, chars);
    }
  }

  /** An empty new row never disturbs the others: it ends as it starts. */
  lemma EmptyKeeps(rows: seq<Row>, syntax: Option<Syntax>, at: nat)
    requires at <= |rows| && (syntax.Some? ==> SyntaxOk(syntax.value)) && AllColored(rows, syntax)
    ensures InsertionKeeps(rows, syntax, at, "")
  {
    hide SyntaxOk, EitherWay;
    if syntax.Some? {
      assert Highlight(syntax.value, "", OpenBefore(rows, at)).open == OpenBefore(rows, at);
      if OpenBefore(rows, at) && at + 1 < |rows| { FlagsFollow(rows, syntax.value, at, |rows| - 1); }
    }
  }

  /**
   * Whether splitting row k leaves all rows right. The tail is inserted first, against the flag of the whole row; when
   * that leaves a row wrong, colouring the head must get as far as that row: the head, the tail and the rows above it
   * must then end with another flag than the tail and those rows ended with before.
   */
  predicate SplitKeeps(rows: seq<Row>, syntax: Option<Syntax>, k: nat, cx: nat)
    requires k < |rows| && cx <= |rows[k].chars| && (syntax.Some? ==> SyntaxOk(syntax.value))
  {
    var head, tail := rows[k].chars[..cx], rows[k].chars[cx..];
    InsertionKeeps(rows, syntax, k + 1, tail) ||
    var s := syntax.value;
    var below := Renders(rows)[k + 1..Doubtful(rows, s, k + 1, tail) - 1];
    FlagAfter(s, [Render(head), Render(tail)] + below, OpenBefore(rows, k))
      != FlagAfter(s, [Render(tail)] + below, rows[k].open)
  }

  function SplitRows(rows: seq<Row>, syntax: Option<Syntax>, k: nat, cx: nat): (r: seq<Row>)
    requires k < |rows| && cx <= |rows[k].chars| && (syntax.Some? ==> SyntaxOk(syntax.value))
  {
    var inserted := Recolored(WithRow(rows, k + 1, rows[k].chars[cx..]), syntax, k + 1, |rows|);
    Recolored(Rewritten(inserted, k, rows[k].chars[..cx]), syntax, k, |rows| + 1)
  }

  /** A row that keeps its classes and flag does not disturb the colouring of the others. */
  lemma StillColored(was: seq<Row>, syntax: Option<Syntax>, k: nat, chars: string)
    requires k < |was| && (syntax.Some? ==> SyntaxOk(syntax.value))
    ensures forall j :: 0 <= j < |was| && j != k ==>
              (Colored(Rewritten(was, k, chars), syntax, j) <==> Colored(was, syntax, j))
  {
    hide Highlight, SyntaxOk, Render;
  }

  /** Rewriting a row and colouring it leaves all rows right. */
  lemma RewrittenColored(was: seq<Row>, syntax: Option<Syntax>, k: nat, chars: string)
    requires k < |was| && (syntax.Some? ==> SyntaxOk(syntax.value)) && AllColored(was, syntax)
    ensures AllColored(Recolored(Rewritten(was, k, chars), syntax, k, |was|), syntax)
  {
    hide Highlight, SyntaxOk, Render, FlagAfter, EitherWay;
    StillColored(was, syntax, k, chars);
    var mid := Rewritten(was, k, chars);
    if syntax.Some? {
      RecoloredIff(mid, syntax.value, k, |was|);
    } else {
      var now := Recolored(mid, syntax, k, |was|);
      forall j | 0 <= j < |was| ensures Colored(now, syntax, j) {
        if j != k { assert Colored(mid, syntax, j); }
      }
    }
  }

  lemma TailRenders(rows: seq<Row>, k: nat, cx: nat, now: seq<Row>, w: nat)
    requires k < |rows| && cx <= |rows[k].chars| && k + 1 < w <= |rows|
    requires SameText(now, WithRow(rows, k + 1, rows[k].chars[cx..]))
    ensures Renders(now)[k + 1..w] == [Render(rows[k].chars[cx..])] + Renders(rows)[k + 1..w - 1]
  {
    hide WithRow, Render;
  }

  /** The rows from the tail to the doubtful one, after the insertion. */
  lemma TailFlags(rows: seq<Row>, s: Syntax, k: nat, cx: nat, now: seq<Row>, w: nat)
    requires k < |rows| && cx <= |rows[k].chars| && SyntaxOk(s) && k + 1 < w <= |rows|
    requires SameText(now, WithRow(rows, k + 1, rows[k].chars[cx..])) && ColoredBut(now, s, w, w)
    requires |now| == |rows| + 1 && now[k].open == rows[k].open
    ensures now[w - 1].open == FlagAfter(s, [Render(rows[k].chars[cx..])] + Renders(rows)[k + 1..w - 1], rows[k].open)
  {
    hide Highlight, SyntaxOk, WithRow, Colored, FlagAfter, Render, SameText;
    FlagsFollow(now, s, k + 1, w);
    TailRenders(rows, k, cx, now, w);
  }

  lemma HeadFlags(rows: seq<Row>, k: nat, cx: nat, now: seq<Row>, w: nat)
    requires k < |rows| && cx <= |rows[k].chars| && k + 1 < w <= |rows|
    requires SameText(now, WithRow(rows, k + 1, rows[k].chars[cx..]))
    ensures Renders(Rewritten(now, k, rows[k].chars[..cx]))[k..w]
         == [Render(rows[k].chars[..cx]), Render(rows[k].chars[cx..])] + Renders(rows)[k + 1..w - 1]
  {
    hide WithRow;
  }

  /** What the insertion of the tail leaves in place. */
  lemma AboveTail(rows: seq<Row>, s: Syntax, k: nat, tail: string)
    requires k < |rows| && SyntaxOk(s)
    ensures var now := Recolored(WithRow(rows, k + 1, tail), Some(s), k + 1, |rows|);
            && SameText(now, WithRow(rows, k + 1, tail))
            && now[k] == rows[k] && OpenBefore(now, k) == OpenBefore(rows, k)
  {
    hide Highlight, SyntaxOk, WithRow, Recolored;
    var was := WithRow(rows, k + 1, tail);
    RecoloredUpdates(was, Some(s), k + 1, |rows|);
    var now := Recolored(was, Some(s), k + 1, |rows|);
    assert forall j :: 0 <= j <= k ==> now[j] == now[..k + 1][j] == was[..k + 1][j] == rows[j];
  }

  lemma SplitIff(rows: seq<Row>, syntax: Option<Syntax>, k: nat, cx: nat)
    requires k < |rows| && cx <= |rows[k].chars| && (syntax.Some? ==> SyntaxOk(syntax.value))
             && AllColored(rows, syntax)
    ensures AllColored(SplitRows(rows, syntax, k, cx), syntax) <==> SplitKeeps(rows, syntax, k, cx)
  {
    hide Highlight, SyntaxOk, WithRow, Recolored, Colored, Render, FlagAfter;
    var head, tail := rows[k].chars[..cx], rows[k].chars[cx..];
    var inserted := Recolored(WithRow(rows, k + 1, tail), syntax, k + 1, |rows|);
    InsertedIff(rows, syntax, k + 1, tail);
    if InsertionKeeps(rows, syntax, k + 1, tail) {
      RewrittenColored(inserted, syntax, k, head);
    } else {
      var s := syntax.value;
      var w := Doubtful(rows, s, k + 1, tail);
      AboveTail(rows, s, k, tail);
      TailFlags(rows, s, k, cx, inserted, w);
      HeadFlags(rows, k, cx, inserted, w);
      StillColored(inserted, syntax, k, head);
      OneDoubtful(inserted, s, w);
      RecoloredReaches(Rewritten(inserted, k, head), s, k, w);
    }
  }

  /** Whether joining row k to the row before it leaves all rows right. */
  predicate JoinKeeps(rows: seq<Row>, syntax: Option<Syntax>, k: nat)
    requires 0 < k < |rows| && (syntax.Some? ==> SyntaxOk(syntax.value))
  {
    syntax.None? || k + 1 == |rows| ||
    var s := syntax.value;
    var flag := Highlight(s, Render(rows[k - 1].chars + rows[k].chars), OpenBefore(rows, k - 1)).open;
    Highlight(s, rows[k].render, flag).open == flag || EitherWay(s, rows[k + 1].render)
  }

  function JoinedRows(rows: seq<Row>, syntax: Option<Syntax>, k: nat): (r: seq<Row>)
    requires 0 < k < |rows| && (syntax.Some? ==> SyntaxOk(syntax.value))
  {
    WithoutRow(Recolored(Rewritten(rows, k - 1, rows[k - 1].chars + rows[k].chars), syntax, k - 1, |rows|), k)
  }

  lemma JoinIff(rows: seq<Row>, syntax: Option<Syntax>, k: nat)
    requires 0 < k < |rows| && (syntax.Some? ==> SyntaxOk(syntax.value)) && AllColored(rows, syntax)
    ensures AllColored(JoinedRows(rows, syntax, k), syntax) <==> JoinKeeps(rows, syntax, k)
  {
    hide Highlight, SyntaxOk, Recolored, WithoutRow, Render, EitherWay;
    var chars := rows[k - 1].chars + rows[k].chars;
    var was := Rewritten(rows, k - 1, chars);
    var now := Recolored(was, syntax, k - 1, |rows|);
    RewrittenColored(rows, syntax, k - 1, chars);
    RecoloredUpdates(was, syntax, k - 1, |rows|);
    RemovedIff(now, syntax, k);
    assert k > 1 ==> now[k - 2] == now[..k - 1][k - 2] == was[..k - 1][k - 2] == rows[k - 2];
    assert Colored(now, syntax, k - 1) && Colored(now, syntax, k);
  }

  function Fresh(k: int, chars: string, s: Syntax, inComment: bool): Row
    requires SyntaxOk(s)
  {
    var h := Highlight(s, Render(chars), inComment);
    Row(k, chars, Render(chars), h.hl, h.open)
  }

  lemma Unclosed(r: string)
    requires Matches(r, 0, "/*") && SyntaxOk(C_SYNTAX) && forall i :: 0 <= i < |r| ==> !Matches(r, i, "*/")
    ensures Highlight(C_SYNTAX, r, false).open
  {
    assert !Matches(r, 0, "//") by { assert r[..2][1] == '*'; }
    var st := Next(C_SYNTAX, r, Start(r, false));
    assert st.inComment;
    InsideOnwards(C_SYNTAX, r, st);
  }

  /** Three texts in C: a row comment that hides an opening mark, the opening mark, and a letter. */
  lemma CommentTexts()
    ensures SyntaxOk(C_SYNTAX)
    ensures Render("//") == "//" && Render("/* x") == "/* x" && Render("///* x") == "///* x" && Render("b") == "b"
    ensures !Highlight(C_SYNTAX, "//", false).open && !Highlight(C_SYNTAX, "///* x", false).open
    ensures Highlight(C_SYNTAX, "/* x", false).open && !EitherWay(C_SYNTAX, "b")
  {
    hide Highlight, SyntaxOk, Render, EitherWay;
    TableOk(0);
    RendersItself("//");
    RendersItself("/* x");
    RendersItself("///* x");
    RendersItself("b");
    RowComment("//");
    RowComment("///* x");
    forall i | 0 <= i < 4 ensures !Matches("/* x", i, "*/") {
      if i + 2 <= 4 { assert "/* x"[i..i + 2] == ["/* x"[i], "/* x"[i + 1]]; }
    }
    Unclosed("/* x");
    if EitherWay(C_SYNTAX, "b") { EitherWayOpens(C_SYNTAX, "b"); }
  }

  lemma {:induction false} RendersItself(chars: string)
    requires '\t' !in chars
    ensures Render(chars) == chars
  {
    if chars != "" {
      RendersItself(chars[..|chars| - 1]);
      assert chars == chars[..|chars| - 1] + [chars[|chars| - 1]];
    }
  }

  lemma RowComment(r: string)
    requires Matches(r, 0, "//") && SyntaxOk(C_SYNTAX)
    ensures !Highlight(C_SYNTAX, r, false).open
  {
    var st := Next(C_SYNTAX, r, Start(r, false));
    assert Finish(C_SYNTAX, r, st) == st;
  }

  /** Rows made one after the other are right. */
  lemma FreshColored(rows: seq<Row>, s: Syntax)
    requires SyntaxOk(s)
    requires forall k :: 0 <= k < |rows| ==> rows[k] == Fresh(k, rows[k].chars, s, OpenBefore(rows, k))
    ensures AllColored(rows, Some(s))
  {
    hide Highlight, SyntaxOk, Render;
  }

  lemma TwoFlags(s: Syntax, a: string, b: string)
    requires SyntaxOk(s)
    ensures FlagAfter(s, [b] + [], false) == Highlight(s, b, false).open
    ensures FlagAfter(s, [a, b] + [], false) == Highlight(s, b, Highlight(s, a, false).open).open
  {
    hide Highlight;
    assert [a, b] + [] == [a, b] && [a, b][1..] == [b] && [b] + [] == [b] && [b][1..] == [];
    var flag := Highlight(s, a, false).open;
    assert FlagAfter(s, [b], flag) == FlagAfter(s, [], Highlight(s, b, flag).open);
  }

  /** Splitting a row comment after its two slashes leaves the next row wrong. */
  lemma SplitBreaks()
    ensures SyntaxOk(C_SYNTAX)
    ensures var rows := [Fresh(0, "///* x", C_SYNTAX, false), Fresh(1, "b", C_SYNTAX, false)];
            AllColored(rows, Some(C_SYNTAX)) && !AllColored(SplitRows(rows, Some(C_SYNTAX), 0, 2), Some(C_SYNTAX))
  {
    hide Highlight, SyntaxOk, Render, SplitRows, EitherWay;
    CommentTexts();
    var rows := [Fresh(0, "///* x", C_SYNTAX, false), Fresh(1, "b", C_SYNTAX, false)];
    FreshColored(rows, C_SYNTAX);
    assert rows[0].chars[..2] == "//" && rows[0].chars[2..] == "/* x";
    SplitIff(rows, Some(C_SYNTAX), 0, 2);
    assert Renders(rows)[1..1] == [];
    TwoFlags(C_SYNTAX, "//", "/* x");
  }

  /** Joining the two again, when they were coloured right, leaves it wrong too. */
  lemma JoinBreaks()
    ensures SyntaxOk(C_SYNTAX)
    ensures var rows := [Fresh(0, "//", C_SYNTAX, false), Fresh(1, "/* x", C_SYNTAX, false),
                         Fresh(2, "b", C_SYNTAX, true)];
            AllColored(rows, Some(C_SYNTAX)) && !AllColored(JoinedRows(rows, Some(C_SYNTAX), 1), Some(C_SYNTAX))
  {
    hide Highlight, SyntaxOk, Render, JoinedRows, EitherWay;
    CommentTexts();
    var rows := [Fresh(0, "//", C_SYNTAX, false), Fresh(1, "/* x", C_SYNTAX, false), Fresh(2, "b", C_SYNTAX, true)];
    FreshColored(rows, C_SYNTAX);
    assert rows[0].chars + rows[1].chars == "///* x";
    JoinIff(rows, Some(C_SYNTAX), 1);
  }
}
