/**
 * The knight's-tour checker of d13.go, `validKnightsD13`: 64 lines,
 * pairwise different, each starting with a file `a`..`h` and a rank
 * `1`..`8`, every consecutive pair a knight's move apart. Only the first
 * two bytes of a line are looked at, and a line too short to hold them
 * makes the Go code panic with an index out of range.
 */
module Knights {
  import opened Wrappers
  import opened GoStrings

  /** A tour of the 8x8 board visits every square once. */
  const NumSteps := 64

  predicate IsFile(c: char) { 'a' <= c <= 'h' }

  predicate IsRank(c: char) { '1' <= c <= '8' }

  /** The first two bytes of the line name a square of the board. */
  predicate OnBoard(step: string) {
    |step| >= 2 && IsFile(step[0]) && IsRank(step[1])
  }

  /**
   * The board-limits test of one line (d13.go:28). Go evaluates the four
   * comparisons left to right and stops at the first false one, so an
   * empty line panics on `step[0]`, and a one-byte line whose byte is a
   * file letter panics on `step[1]`.
   */
  function LimitTest(step: string): (r: Outcome<bool>)
    ensures r == Panic <==> |step| == 0 || (|step| == 1 && IsFile(step[0]))
    ensures r == Done(true) <==> OnBoard(step)
  {
    if |step| == 0 then Panic
    else if !IsFile(step[0]) then Done(false)
    else if |step| == 1 then Panic
    else Done(IsRank(step[1]))
  }

  predicate Distinct(lines: seq<string>) {
    forall i, j :: 0 <= i < |lines| && 0 <= j < |lines| && i != j ==> lines[i] != lines[j]
  }

  function Abs(x: int): nat { if x < 0 then -x else x }

  /**
   * The move test of d13.go:44-58 between two lines that passed the
   * board-limits test: the file distance is 1 or 2 and the file and rank
   * distances add up to 3.
   */
  predicate KnightMove(from: string, to: string)
  {
    |from| >= 2 && |to| >= 2 &&
    var df := Abs(to[0] as int - from[0] as int);
    var dr := Abs(to[1] as int - from[1] as int);
    1 <= df <= 2 && df + dr == 3
  }

  /** The move test accepts exactly the eight knight's moves. */
  lemma KnightMoveShapes(from: string, to: string)
    requires |from| >= 2 && |to| >= 2
    ensures var df, dr := Abs(to[0] as int - from[0] as int), Abs(to[1] as int - from[1] as int);
      KnightMove(from, to) <==> (df == 1 && dr == 2) || (df == 2 && dr == 1)
  {
  }

  /** The index of the first line that fails the board-limits test, or the number of lines. */
  function FirstOffBoard(lines: seq<string>): (k: nat)
    ensures k <= |lines|
    ensures forall j :: 0 <= j < k ==> OnBoard(lines[j])
    ensures k < |lines| ==> !OnBoard(lines[k])
  {
    if |lines| == 0 || !OnBoard(lines[0]) then 0
    else
      var k := FirstOffBoard(lines[1..]);
      assert forall j :: 1 <= j < k + 1 ==> lines[j] == lines[1..][j - 1];
      1 + k
  }

  predicate AllMoves(lines: seq<string>)
  {
    forall k :: 1 <= k < |lines| ==> KnightMove(lines[k - 1], lines[k])
  }

  /**
   * What validKnightsD13 decides about the lines of its input: the four
   * tests in the order the source runs them, the first failure deciding.
   */
  function Verdict(lines: seq<string>): Outcome<bool>
  {
    if |lines| != NumSteps then Done(false)
    else if !Distinct(lines) then Done(false)
    else if FirstOffBoard(lines) < |lines| then LimitTest(lines[FirstOffBoard(lines)])
    else Done(AllMoves(lines))
  }

  /** The lines form a knight's path of 64 different squares. */
  predicate IsTour(lines: seq<string>) {
    |lines| == NumSteps && Distinct(lines) &&
    (forall k :: 0 <= k < |lines| ==> OnBoard(lines[k])) &&
    AllMoves(lines)
  }

  /**
   * validKnightsD13 (d13.go:8-62). `Panic` stands for the run-time panic
   * of an index out of range at d13.go:28.
   */
  method ValidKnightsD13(solution: string) returns (r: Outcome<bool>)
    ensures r == Verdict(Split(solution))
  {
    var sl := Split(solution);
    var prevStep := sl[0];
    var row, col := 0, 0;

    if |sl| != NumSteps {
      return Done(false);
    }
    var i := 0;
    while i < |sl|
      invariant 0 <= i <= |sl|
      invariant forall a, b :: 0 <= a < i && 0 <= b < |sl| && a != b ==> sl[a] != sl[b]
    {
      var j := 0;
      while j < |sl|
        invariant 0 <= j <= |sl|
        invariant forall b :: 0 <= b < j && b != i ==> sl[i] != sl[b]
      {
        if sl[i] == sl[j] && i != j {
          return Done(false);
        }
        j := j + 1;
      }
      i := i + 1;
    }
    assert Distinct(sl);

    i := 0;
    while i < |sl|
      invariant 0 <= i <= |sl|
      invariant forall k :: 0 <= k < i ==> OnBoard(sl[k])
    {
      var step := sl[i];
      if |step| == 0 {
        return Panic;
      }
      if !(step[0] >= 'a' && step[0] <= 'h') {
        return Done(false);
      }
      if |step| == 1 {
        return Panic;
      }
      if !(step[1] >= '1' && step[1] <= '8') {
        return Done(false);
      }
      i := i + 1;
    }
    assert FirstOffBoard(sl) == |sl|;

    i := 1;
    while i < |sl|
      invariant 1 <= i <= |sl|
      invariant prevStep == sl[i - 1]
      invariant forall k :: 1 <= k < i ==> KnightMove(sl[k - 1], sl[k])
    {
      var step := sl[i];
      col := step[0] as int - prevStep[0] as int;
      if col < 0 {
        col := 0 - col;
      }
      row := step[1] as int - prevStep[1] as int;
      if row < 0 {
        row := 0 - row;
      }
      if col < 1 || col > 2 {
        return Done(false);
      }
      if col + row != 3 {
        return Done(false);
      }
      prevStep := step;
      i := i + 1;
    }
    return Done(true);
  }

  /** The checker accepts exactly the 64-line knight's paths over pairwise different lines. */
  lemma VerdictAccepts(lines: seq<string>)
    ensures Verdict(lines) == Done(true) <==> IsTour(lines)
  {
  }

  /**
   * The checker panics exactly when the first line that fails the
   * board-limits test is too short for the byte it reads next.
   */
  lemma VerdictPanics(lines: seq<string>)
    ensures Verdict(lines) == Panic <==>
      |lines| == NumSteps && Distinct(lines) && FirstOffBoard(lines) < |lines| &&
      (lines[FirstOffBoard(lines)] == [] || (|lines[FirstOffBoard(lines)]| == 1 && IsFile(lines[FirstOffBoard(lines)][0])))
  {
  }

  /** A line that is too short, reached by the board-limits loop, makes the checker panic. */
  lemma ShortLinePanics(lines: seq<string>, k: nat)
    requires |lines| == NumSteps && Distinct(lines) && k < |lines|
    requires forall j :: 0 <= j < k ==> OnBoard(lines[j])
    requires lines[k] == [] || (|lines[k]| == 1 && IsFile(lines[k][0]))
    ensures Verdict(lines) == Panic
  {
    assert FirstOffBoard(lines) == k;
  }

  /** Each of the four tests on its own rejects, in the order the source runs them. */
  lemma VerdictRejects(lines: seq<string>)
    ensures |lines| != NumSteps ==> Verdict(lines) == Done(false)
    ensures |lines| == NumSteps && !Distinct(lines) ==> Verdict(lines) == Done(false)
    ensures (|lines| == NumSteps && Distinct(lines) && FirstOffBoard(lines) < |lines| &&
             |lines[FirstOffBoard(lines)]| >= 2) ==> Verdict(lines) == Done(false)
    ensures (|lines| == NumSteps && Distinct(lines) && FirstOffBoard(lines) == |lines| &&
             !AllMoves(lines)) ==> Verdict(lines) == Done(false)
  {
  }

  /**
   * Bytes after the second never matter: lengthening an accepted line
   * keeps the solution accepted as long as the lines stay different.
   */
  lemma ExtraBytesIgnored(lines: seq<string>, k: nat, extra: string)
    requires Verdict(lines) == Done(true) && k < |lines|
    requires forall j :: 0 <= j < |lines| && j != k ==> lines[j] != lines[k] + extra
    ensures Verdict(lines[k := lines[k] + extra]) == Done(true)
  {
    VerdictAccepts(lines);
    var longer := lines[k := lines[k] + extra];
    assert longer[k][..2] == lines[k][..2];
    forall i | 1 <= i < |longer| ensures KnightMove(longer[i - 1], longer[i]) {
      assert KnightMove(lines[i - 1], lines[i]);
    }
    VerdictAccepts(longer);
  }

  /** "a1" and "a1x" are different lines that name the same square. */
  lemma SameSquareDifferentLines()
    ensures "a1" != "a1x" && OnBoard("a1") && OnBoard("a1x") && "a1"[..2] == "a1x"[..2]
  {
  }

  /** The square with index `k`: file `k / 8`, rank `k % 8`. */
  function Square(k: nat): (sq: string)
    requires k < NumSteps
    ensures |sq| == 2 && OnBoard(sq)
  {
    [('a' as int + k / 8) as char, ('1' as int + k % 8) as char]
  }

  /** The 64 squares of the board. */
  function Squares(): seq<string>
  {
    seq(NumSteps, k requires 0 <= k < NumSteps => Square(k))
  }

  function Elems(lines: seq<string>): set<string> {
    set x | x in lines
  }

  lemma SquaresDistinct()
    ensures Distinct(Squares())
  {
    forall i, j | 0 <= i < NumSteps && 0 <= j < NumSteps && Squares()[i] == Squares()[j] ensures i == j {
      assert Square(i)[0] == Square(j)[0] && Square(i)[1] == Square(j)[1];
      assert i / 8 == j / 8 && i % 8 == j % 8;
    }
  }

  /** Every two-byte line on the board is one of the 64 squares. */
  lemma SquareOf(step: string)
    requires |step| == 2 && OnBoard(step)
    ensures step in Elems(Squares())
  {
    var f, r := step[0] as int - 'a' as int, step[1] as int - '1' as int;
    var k := f * 8 + r;
    assert k / 8 == f && k % 8 == r;
    assert Square(k) == step;
    assert Squares()[k] == step;
  }

  lemma {:induction false} DistinctCard(lines: seq<string>)
    requires Distinct(lines)
    ensures |Elems(lines)| == |lines|
  {
    if lines != [] {
      var rest := lines[1..];
      assert Distinct(rest);
      DistinctCard(rest);
      assert Elems(lines) == Elems(rest) + {lines[0]};
      assert lines[0] !in Elems(rest);
    }
  }

  lemma {:induction false} SubsetCard(a: set<string>, b: set<string>)
    requires a <= b
    ensures |a| <= |b|
    decreases a
  {
    if a != {} {
      var x :| x in a;
      SubsetCard(a - {x}, b - {x});
    }
  }

  lemma SubsetSameCard(a: set<string>, b: set<string>)
    requires a <= b && |a| == |b|
    ensures a == b
  {
    if a != b {
      var x :| x in b && x !in a;
      SubsetCard(a, b - {x});
    }
  }

  /**
   * When every line is exactly two bytes long, an accepted solution
   * visits each of the 64 squares exactly once, moving like a knight.
   */
  lemma TourCoversBoard(lines: seq<string>)
    requires Verdict(lines) == Done(true)
    requires forall k :: 0 <= k < |lines| ==> |lines[k]| == 2
    ensures Elems(lines) == Elems(Squares())
    ensures Distinct(lines)
    ensures forall k :: 1 <= k < |lines| ==> KnightMove(lines[k - 1], lines[k])
  {
    VerdictAccepts(lines);
    forall x | x in Elems(lines) ensures x in Elems(Squares()) {
      SquareOf(x);
    }
    DistinctCard(lines);
    SquaresDistinct();
    DistinctCard(Squares());
    SubsetSameCard(Elems(lines), Elems(Squares()));
  }
}
