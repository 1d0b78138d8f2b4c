/** The edit-distance search of the message filter. */
module Levenshtein {
  import opened Basics

  // `Fill` and `Distance` are the dynamic-programming loops of `liczLevenshteina`; `Filter` is the word loop of
  // `zastosujFiltr`. The reference notion is independent of the matrix: a script is a list of single-character
  // edits applied one after the other, and a distance is the length of a shortest script.

  /** The script counts and compares the 16-bit units of its strings. */
  type CodeUnit = u: int | 0 <= u < 0x1_0000

  type Word = seq<CodeUnit>

  datatype Edit =
    | Insert(at: nat, c: CodeUnit)
    | Delete(at: nat)
    | Substitute(at: nat, c: CodeUnit)
  {
    predicate Fits(s: Word) {
      match this
      case Insert(i, _) => i <= |s|
      case Delete(i) => i < |s|
      case Substitute(i, _) => i < |s|
    }

    function Apply(s: Word): Word
      requires Fits(s)
    {
      match this
      case Insert(i, c) => s[..i] + [c] + s[i..]
      case Delete(i) => s[..i] + s[i + 1..]
      case Substitute(i, c) => s[..i] + [c] + s[i + 1..]
    }
  }

  type Script = seq<Edit>

  /** The script can be run from `a`, edit by edit, and ends in `b`. */
  predicate Rewrites(script: Script, a: Word, b: Word) {
    if script == [] then a == b
    else script[0].Fits(a) && Rewrites(script[1..], script[0].Apply(a), b)
  }

  ghost predicate WithinEdits(a: Word, b: Word, k: nat) {
    exists script :: |script| <= k && Rewrites(script, a, b)
  }

  /** `d` is the least number of edits that turn `a` into `b`. */
  ghost predicate IsMinimum(a: Word, b: Word, d: nat) {
    && (exists script :: |script| == d && Rewrites(script, a, b))
    && (forall script :: Rewrites(script, a, b) ==> d <= |script|)
  }

  function Init(s: Word): Word
    requires s != []
  {
    s[..|s| - 1]
  }

  function Last(s: Word): CodeUnit
    requires s != []
  {
    s[|s| - 1]
  }

  /** One cell of the matrix: on equal last characters the diagonal is taken outright. */
  function Cell(a: Word, b: Word): nat
    decreases |a| + |b|
  {
    if a == [] then |b|
    else if b == [] then |a|
    else if Last(a) == Last(b) then Cell(Init(a), Init(b))
    else 1 + Min(Cell(Init(a), Init(b)), Min(Cell(Init(a), b), Cell(a, Init(b))))
  }

  // ---- The matrix recurrence, its Lipschitz bound and the exchange argument

  lemma {:induction false} CellSymmetric(a: Word, b: Word)
    ensures Cell(a, b) == Cell(b, a)
    decreases |a| + |b|
  {
    if a != [] && b != [] {
      CellSymmetric(Init(a), Init(b));
      CellSymmetric(Init(a), b);
      CellSymmetric(a, Init(b));
    }
  }

  /** Dropping the last character of the left word moves the cell by at most one. */
  lemma {:induction false} CellLipschitz(a: Word, b: Word)
    requires a != []
    ensures Cell(Init(a), b) - 1 <= Cell(a, b) <= Cell(Init(a), b) + 1
    decreases |a| + |b|
  {
    if b != [] {
      CellSymmetric(a, b);
      CellSymmetric(Init(a), b);
      CellLipschitz(a, Init(b));
      if |a| > 1 {
        CellLipschitz(Init(a), b);
        CellLipschitz(Init(a), Init(b));
      }
      CellSymmetric(Init(a), Init(b));
      CellLipschitz(b, Init(a));
      CellSymmetric(a, Init(b));
    } else {
      assert |Init(a)| == |a| - 1;
    }
  }

  lemma {:induction false} CellLipschitzRight(a: Word, b: Word)
    requires b != []
    ensures Cell(a, Init(b)) - 1 <= Cell(a, b) <= Cell(a, Init(b)) + 1
  {
    CellLipschitz(b, a);
    CellSymmetric(a, b);
    CellSymmetric(a, Init(b));
  }

  /** The exchange argument: taking the diagonal on equal characters never loses against the other two
      neighbours, so the cell is the plain three-way minimum. */
  lemma {:induction false} CellIsThreeWayMinimum(a: Word, b: Word)
    requires a != [] && b != []
    ensures Cell(a, b) == Min(Cell(Init(a), Init(b)) + (if Last(a) == Last(b) then 0 else 1),
                              Min(Cell(Init(a), b) + 1, Cell(a, Init(b)) + 1))
  {
    CellLipschitz(a, Init(b));
    CellLipschitzRight(Init(a), b);
  }

  /** Which neighbour a cell was taken from. */
  datatype Move = Diagonal | Left | Up

  function Via(a: Word, b: Word, m: Move): nat
    requires a != [] && b != []
  {
    match m
    case Diagonal => Cell(Init(a), Init(b)) + (if Last(a) == Last(b) then 0 else 1)
    case Left => Cell(Init(a), b) + 1
    case Up => Cell(a, Init(b)) + 1
  }

  lemma {:induction false} BestMove(a: Word, b: Word) returns (m: Move)
    requires a != [] && b != []
    ensures Cell(a, b) == Via(a, b, m)
    ensures forall n :: Cell(a, b) <= Via(a, b, n)
  {
    CellIsThreeWayMinimum(a, b);
    m := if Cell(a, b) == Via(a, b, Diagonal) then Diagonal else if Cell(a, b) == Via(a, b, Left) then Left else Up;
  }

  lemma {:induction false} CellTriangle(a: Word, b: Word, c: Word)
    ensures Cell(a, c) <= Cell(a, b) + Cell(b, c)
    decreases |a| + |b| + |c|, 1
  {
    if a == [] {
      CellBounds(b, c);
    } else if c == [] {
      CellBounds(a, b);
    } else if b == [] {
      CellBounds(a, c);
    } else {
      var m := BestMove(a, b);
      var n := BestMove(b, c);
      var o := BestMove(a, c);
      TriangleStep(a, b, c, m, n);
    }
  }

  lemma {:induction false} TriangleStep(a: Word, b: Word, c: Word, m: Move, n: Move)
    requires a != [] && b != [] && c != []
    requires Cell(a, b) == Via(a, b, m) && Cell(b, c) == Via(b, c, n)
    requires forall o :: Cell(a, c) <= Via(a, c, o)
    ensures Cell(a, c) <= Cell(a, b) + Cell(b, c)
    decreases |a| + |b| + |c|, 0
  {
    assert Cell(a, c) <= Via(a, c, Diagonal) && Cell(a, c) <= Via(a, c, Left) && Cell(a, c) <= Via(a, c, Up);
    match (m, n)
    case (Left, _) => CellTriangle(Init(a), b, c);
    case (_, Up) => CellTriangle(a, b, Init(c));
    case (Diagonal, Diagonal) => CellTriangle(Init(a), Init(b), Init(c));
    case (Diagonal, Left) => CellTriangle(Init(a), Init(b), c);
    case (Up, Diagonal) => CellTriangle(a, Init(b), Init(c));
    case (Up, Left) => CellTriangle(a, Init(b), c);
  }

  lemma {:induction false} CellBounds(a: Word, b: Word)
    ensures |a| - |b| <= Cell(a, b)
    ensures |b| - |a| <= Cell(a, b)
    ensures Cell(a, b) <= Max(|a|, |b|)
    decreases |a| + |b|
  {
    if a != [] && b != [] {
      CellBounds(Init(a), Init(b));
      CellBounds(Init(a), b);
      CellBounds(a, Init(b));
    }
  }

  lemma {:induction false} CellZero(a: Word, b: Word)
    ensures Cell(a, b) == 0 <==> a == b
    decreases |a| + |b|
  {
    if a != [] && b != [] {
      CellZero(Init(a), Init(b));
      assert a == Init(a) + [Last(a)] && b == Init(b) + [Last(b)];
    }
  }

  // ---- From cells to scripts and back

  lemma {:induction false} RewritesAppend(script: Script, e: Edit, a: Word, b: Word)
    requires Rewrites(script, a, b) && e.Fits(b)
    ensures Rewrites(script + [e], a, e.Apply(b))
    decreases |script|
  {
    if script == [] {
      assert script + [e] == [e];
      assert Rewrites([e][1..], e.Apply(a), e.Apply(b));
    } else {
      RewritesAppend(script[1..], e, script[0].Apply(a), b);
      assert (script + [e])[1..] == script[1..] + [e];
    }
  }

  lemma ApplyUnder(e: Edit, a: Word, c: CodeUnit)
    requires e.Fits(a)
    ensures e.Fits(a + [c]) && e.Apply(a + [c]) == e.Apply(a) + [c]
  {
    match e
    case Insert(i, _) => assert (a + [c])[..i] == a[..i] && (a + [c])[i..] == a[i..] + [c];
    case Delete(i) => assert (a + [c])[..i] == a[..i] && (a + [c])[i + 1..] == a[i + 1..] + [c];
    case Substitute(i, _) => assert (a + [c])[..i] == a[..i] && (a + [c])[i + 1..] == a[i + 1..] + [c];
  }

  /** Running the same edits with an extra last character carried along. */
  lemma {:induction false} RewritesUnder(script: Script, a: Word, b: Word, c: CodeUnit)
    requires Rewrites(script, a, b)
    ensures Rewrites(script, a + [c], b + [c])
    decreases |script|
  {
    if script != [] {
      var e := script[0];
      RewritesUnder(script[1..], e.Apply(a), b, c);
      ApplyUnder(e, a, c);
    }
  }

  lemma {:induction false} ScriptEndingInInsert(s: Script, a: Word, b: Word) returns (script: Script)
    requires b != [] && Rewrites(s, a, Init(b))
    ensures |script| == |s| + 1 && Rewrites(script, a, b)
  {
    var e := Insert(|b| - 1, Last(b));
    RewritesAppend(s, e, a, Init(b));
    assert e.Apply(Init(b)) == b;
    script := s + [e];
  }

  lemma {:induction false} ScriptStartingWithDelete(s: Script, a: Word, b: Word) returns (script: Script)
    requires a != [] && Rewrites(s, Init(a), b)
    ensures |script| == |s| + 1 && Rewrites(script, a, b)
  {
    var e := Delete(|a| - 1);
    assert e.Apply(a) == Init(a);
    script := [e] + s;
    assert script[1..] == s;
  }

  lemma {:induction false} ScriptAlongDiagonal(s: Script, p: Word, q: Word, x: CodeUnit, y: CodeUnit)
    returns (script: Script)
    requires Rewrites(s, p, q)
    ensures |script| == |s| + (if x == y then 0 else 1)
    ensures Rewrites(script, p + [x], q + [y])
  {
    RewritesUnder(s, p, q, x);
    script := s;
    if x != y {
      var e := Substitute(|q|, y);
      assert e.Apply(q + [x]) == q + [y];
      RewritesAppend(s, e, p + [x], q + [x]);
      script := s + [e];
    }
  }

  lemma SplitLast(s: Word)
    requires s != []
    ensures s == Init(s) + [Last(s)]
  {
  }

  /** A script whose length is the cell value. */
  lemma {:induction false} ScriptOfCell(a: Word, b: Word) returns (script: Script)
    ensures |script| == Cell(a, b) && Rewrites(script, a, b)
    decreases |a| + |b|
  {
    if a == [] && b == [] {
      script := [];
    } else if a == [] {
      var s := ScriptOfCell(a, Init(b));
      script := ScriptEndingInInsert(s, a, b);
    } else if b == [] {
      var s := ScriptOfCell(Init(a), b);
      script := ScriptStartingWithDelete(s, a, b);
    } else {
      var m := BestMove(a, b);
      match m {
        case Diagonal =>
          var s := ScriptOfCell(Init(a), Init(b));
          script := ScriptAlongDiagonal(s, Init(a), Init(b), Last(a), Last(b));
          SplitLast(a);
          SplitLast(b);
        case Left =>
          var s := ScriptOfCell(Init(a), b);
          script := ScriptStartingWithDelete(s, a, b);
        case Up =>
          var s := ScriptOfCell(a, Init(b));
          script := ScriptEndingInInsert(s, a, b);
      }
    }
  }

  /** A common suffix costs nothing. */
  lemma {:induction false} CellCommonSuffix(a: Word, b: Word, s: Word)
    ensures Cell(a + s, b + s) <= Cell(a, b)
    decreases |s|
  {
    if s == [] {
      assert a + s == a && b + s == b;
    } else {
      CellCommonSuffix(a, b, Init(s));
      assert Init(a + s) == a + Init(s) && Init(b + s) == b + Init(s);
    }
  }

  /** One edit anywhere in the word is at distance at most one. */
  lemma OneEdit(e: Edit, a: Word)
    requires e.Fits(a)
    ensures Cell(a, e.Apply(a)) <= 1
  {
    var i := e.at;
    var p := a[..i];
    match e
    case Insert(_, c) =>
      CellCommonSuffix(p, p + [c], a[i..]);
      assert a == p + a[i..];
      assert Init(p + [c]) == p;
      CellLipschitz(p + [c], p);
      CellZero(p, p);
      CellSymmetric(p, p + [c]);
    case Delete(_) =>
      CellCommonSuffix(p + [a[i]], p, a[i + 1..]);
      assert a == p + [a[i]] + a[i + 1..];
      assert Init(p + [a[i]]) == p;
      CellLipschitz(p + [a[i]], p);
      CellZero(p, p);
    case Substitute(_, c) =>
      CellCommonSuffix(p + [a[i]], p + [c], a[i + 1..]);
      assert a == p + [a[i]] + a[i + 1..];
      assert Init(p + [a[i]]) == p && Init(p + [c]) == p;
      CellIsThreeWayMinimum(p + [a[i]], p + [c]);
      CellZero(p, p);
  }

  /** No script beats the cell. */
  lemma {:induction false} CellBelowScripts(script: Script, a: Word, b: Word)
    requires Rewrites(script, a, b)
    ensures Cell(a, b) <= |script|
    decreases |script|
  {
    if script == [] {
      CellZero(a, b);
    } else {
      var a' := script[0].Apply(a);
      OneEdit(script[0], a);
      CellBelowScripts(script[1..], a', b);
      CellTriangle(a, a', b);
    }
  }

  lemma CellIsMinimum(a: Word, b: Word)
    ensures IsMinimum(a, b, Cell(a, b))
  {
    var script := ScriptOfCell(a, b);
    forall s | Rewrites(s, a, b)
      ensures Cell(a, b) <= |s|
    {
      CellBelowScripts(s, a, b);
    }
  }

  /** The least number of edits: the length of a shortest script, whatever computes it. */
  ghost function EditDistance(a: Word, b: Word): (d: nat)
    ensures IsMinimum(a, b, d)
  {
    CellIsMinimum(a, b);
    var d :| IsMinimum(a, b, d);
    d
  }

  lemma EditDistanceIsCell(a: Word, b: Word)
    ensures EditDistance(a, b) == Cell(a, b)
  {
    CellIsMinimum(a, b);
  }

  lemma WithinEditsIffCell(a: Word, b: Word, k: nat)
    ensures WithinEdits(a, b, k) <==> Cell(a, b) <= k
  {
    if WithinEdits(a, b, k) {
      var s :| |s| <= k && Rewrites(s, a, b);
      CellBelowScripts(s, a, b);
    }
    if Cell(a, b) <= k {
      var s := ScriptOfCell(a, b);
    }
  }

  // ---- The metric laws

  lemma {:induction false} DistanceZeroIffEqual(a: Word, b: Word)
    ensures EditDistance(a, b) == 0 <==> a == b
  {
    EditDistanceIsCell(a, b);
    CellZero(a, b);
  }

  lemma {:induction false} DistanceSymmetric(a: Word, b: Word)
    ensures EditDistance(a, b) == EditDistance(b, a)
  {
    hide IsMinimum;
    EditDistanceIsCell(a, b);
    EditDistanceIsCell(b, a);
    CellSymmetric(a, b);
  }

  lemma {:induction false} DistanceTriangle(a: Word, b: Word, c: Word)
    ensures EditDistance(a, c) <= EditDistance(a, b) + EditDistance(b, c)
  {
    hide IsMinimum;
    EditDistanceIsCell(a, b);
    EditDistanceIsCell(b, c);
    EditDistanceIsCell(a, c);
    CellTriangle(a, b, c);
  }

  lemma DistanceBounds(a: Word, b: Word)
    ensures |a| - |b| <= EditDistance(a, b) && |b| - |a| <= EditDistance(a, b)
    ensures EditDistance(a, b) <= Max(|a|, |b|)
  {
    hide IsMinimum;
    EditDistanceIsCell(a, b);
    CellBounds(a, b);
  }

  // ---- The loops

  /** The value that belongs in row `i`, column `j`. */
  function CellAt(wordA: Word, wordB: Word, i: nat, j: nat): nat
    requires i <= |wordB| && j <= |wordA|
  {
    Cell(wordA[..j], wordB[..i])
  }

  lemma {:induction false} CellAtBorder(wordA: Word, wordB: Word)
    ensures forall i :: 0 <= i <= |wordB| ==> CellAt(wordA, wordB, i, 0) == i
    ensures forall j :: 0 <= j <= |wordA| ==> CellAt(wordA, wordB, 0, j) == j
  {
  }

  lemma {:induction false} CellAtInside(wordA: Word, wordB: Word, i: nat, j: nat)
    requires 1 <= i <= |wordB| && 1 <= j <= |wordA|
    ensures CellAt(wordA, wordB, i, j) ==
            if wordB[i - 1] == wordA[j - 1] then CellAt(wordA, wordB, i - 1, j - 1)
            else Min(CellAt(wordA, wordB, i - 1, j - 1) + 1,
                     Min(CellAt(wordA, wordB, i, j - 1) + 1, CellAt(wordA, wordB, i - 1, j) + 1))
  {
    assert Init(wordA[..j]) == wordA[..j - 1] && Init(wordB[..i]) == wordB[..i - 1];
  }

  /** The nested loops over `macierz`: rows follow the second word, columns the first. */
  method FillCells(wordA: Word, wordB: Word) returns (matrix: array2<nat>)
    ensures fresh(matrix) && matrix.Length0 == |wordB| + 1 && matrix.Length1 == |wordA| + 1
    ensures forall i, j :: 0 <= i <= |wordB| && 0 <= j <= |wordA| ==> matrix[i, j] == CellAt(wordA, wordB, i, j)
  {
    CellAtBorder(wordA, wordB);
    matrix := new nat[|wordB| + 1, |wordA| + 1];
    for i := 0 to |wordB| + 1
      invariant forall k :: 0 <= k < i ==> matrix[k, 0] == k
    {
      matrix[i, 0] := i;
    }
    for j := 0 to |wordA| + 1
      invariant forall k :: 0 <= k <= |wordB| ==> matrix[k, 0] == k
      invariant forall k :: 0 <= k < j ==> matrix[0, k] == k
    {
      matrix[0, j] := j;
    }
    for i := 1 to |wordB| + 1
      invariant forall k :: 0 <= k <= |wordB| ==> matrix[k, 0] == k
      invariant forall k, l :: 0 <= k < i && 0 <= l <= |wordA| ==> matrix[k, l] == CellAt(wordA, wordB, k, l)
    {
      for j := 1 to |wordA| + 1
        invariant forall k :: 0 <= k <= |wordB| ==> matrix[k, 0] == k
        invariant forall k, l :: 0 <= k < i && 0 <= l <= |wordA| ==> matrix[k, l] == CellAt(wordA, wordB, k, l)
        invariant forall l :: 0 <= l < j ==> matrix[i, l] == CellAt(wordA, wordB, i, l)
      {
        CellAtInside(wordA, wordB, i, j);
        if wordB[i - 1] == wordA[j - 1] {
          matrix[i, j] := matrix[i - 1, j - 1];
        } else {
          matrix[i, j] := Min(matrix[i - 1, j - 1] + 1, Min(matrix[i, j - 1] + 1, matrix[i - 1, j] + 1));
        }
      }
    }
  }

  /** Every cell of the filled matrix is the distance of its pair of prefixes. */
  method Fill(wordA: Word, wordB: Word) returns (matrix: array2<nat>)
    ensures fresh(matrix) && matrix.Length0 == |wordB| + 1 && matrix.Length1 == |wordA| + 1
    ensures forall i, j :: 0 <= i <= |wordB| && 0 <= j <= |wordA| ==>
              matrix[i, j] == EditDistance(wordA[..j], wordB[..i])
  {
    matrix := FillCells(wordA, wordB);
    hide IsMinimum, Cell;
    forall i, j | 0 <= i <= |wordB| && 0 <= j <= |wordA|
      ensures matrix[i, j] == EditDistance(wordA[..j], wordB[..i])
    {
      EditDistanceIsCell(wordA[..j], wordB[..i]);
    }
  }

  method Distance(wordA: Word, wordB: Word) returns (d: nat)
    ensures d == EditDistance(wordA, wordB)
  {
    hide IsMinimum;
    EditDistanceIsCell(wordA, wordB);
    if |wordA| == 0 {
      return |wordB|;
    }
    if |wordB| == 0 {
      return |wordA|;
    }
    var matrix := Fill(wordA, wordB);
    d := matrix[|wordB|, |wordA|];
    assert wordA[..|wordA|] == wordA && wordB[..|wordB|] == wordB;
  }

  // ---- The filter over message rows, bubbles and words

  type Bubble = seq<Word>
  type Row = seq<Bubble>

  ghost predicate BubbleMatches(query: Word, bubble: Bubble) {
    exists w :: w in bubble && WithinEdits(query, w, 2)
  }

  ghost predicate RowMatches(query: Word, row: Row) {
    exists b :: b in row && BubbleMatches(query, b)
  }

  /** The test of the filter: distance at most two. */
  method WordFits(query: Word, word: Word) returns (fits: bool)
    ensures fits <==> WithinEdits(query, word, 2)
  {
    var d := Distance(query, word);
    EditDistanceIsCell(query, word);
    WithinEditsIffCell(query, word, 2);
    fits := d <= 2;
  }

  method BubbleFits(query: Word, bubble: Bubble) returns (fits: bool)
    ensures fits <==> BubbleMatches(query, bubble)
  {
    fits := false;
    for i := 0 to |bubble|
      invariant !fits
      invariant forall k :: 0 <= k < i ==> !WithinEdits(query, bubble[k], 2)
    {
      var close := WordFits(query, bubble[i]);
      if close {
        fits := true;
        break;
      }
    }
  }

  method RowFits(query: Word, row: Row) returns (fits: bool, lit: seq<bool>)
    ensures fits <==> RowMatches(query, row)
    ensures |lit| == |row|
    ensures forall j :: 0 <= j < |row| ==> (lit[j] <==> BubbleMatches(query, row[j]))
  {
    fits, lit := false, [];
    for j := 0 to |row|
      invariant |lit| == j
      invariant fits <==> true in lit
      invariant forall k :: 0 <= k < j ==> (lit[k] <==> BubbleMatches(query, row[k]))
    {
      var b := BubbleFits(query, row[j]);
      lit := lit + [b];
      if b {
        fits := true;
      }
    }
    forall k | 0 <= k < |row|
      ensures lit[k] ==> row[k] in row
    {}
  }

  /** What the page shows after the filter ran: which rows are visible, which bubbles are highlighted. */
  datatype Page = Page(shown: seq<bool>, lit: seq<seq<bool>>)

  ghost predicate Filtered(query: Word, rows: seq<Row>, page: Page) {
    && |page.shown| == |rows| == |page.lit|
    && forall i :: 0 <= i < |rows| ==> RowFiltered(query, rows[i], page.shown[i], page.lit[i])
  }

  ghost predicate RowFiltered(query: Word, row: Row, shown: bool, lit: seq<bool>) {
    && (shown <==> RowMatches(query, row))
    && |lit| == |row|
    && forall j :: 0 <= j < |row| ==> (lit[j] <==> BubbleMatches(query, row[j]))
  }

  /** An empty query leaves the page alone. */
  method Filter(query: Word, rows: seq<Row>, before: Page) returns (page: Page)
    ensures query == [] ==> page == before
    ensures query != [] ==> Filtered(query, rows, page)
  {
    if query == [] {
      return before;
    }
    var shown: seq<bool>, lit: seq<seq<bool>> := [], [];
    for i := 0 to |rows|
      invariant |shown| == i == |lit|
      invariant forall k :: 0 <= k < i ==> RowFiltered(query, rows[k], shown[k], lit[k])
    {
      var fits, marks := RowFits(query, rows[i]);
      shown, lit := shown + [fits], lit + [marks];
    }
    page := Page(shown, lit);
  }
}
