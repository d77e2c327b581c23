/**
 * The parts of Go's `strings` package that the validator relies on:
 * `Trim` with the cut set "\n\t\r ", `Split` and `Join` on "\n".
 * A Go string is a sequence of bytes; here each byte is one `char`.
 */
module GoStrings {

  /** Membership in the cut set "\n\t\r " used by the validator. */
  predicate IsBlank(c: char) {
    c == '\n' || c == '\t' || c == '\r' || c == ' '
  }

  /** Every character of `s` at positions `from` to `to` (exclusive) is blank. */
  predicate Blanks(s: string, from: int, to: int)
    requires 0 <= from <= to <= |s|
  {
    forall k :: from <= k < to ==> IsBlank(s[k])
  }

  /** Neither the first nor the last character is blank. */
  predicate NoEdgeBlanks(s: string) {
    s == [] || (!IsBlank(s[0]) && !IsBlank(s[|s| - 1]))
  }

  /** strings.TrimLeft(s, "\n\t\r "). */
  function TrimLeft(s: string): string
  {
    if s != [] && IsBlank(s[0]) then TrimLeft(s[1..]) else s
  }

  /** strings.TrimRight(s, "\n\t\r "). */
  function TrimRight(s: string): string
  {
    if s != [] && IsBlank(s[|s| - 1]) then TrimRight(s[..|s| - 1]) else s
  }

  /** TrimLeft drops the longest blank prefix: what it drops is blank, what it keeps does not start blank. */
  lemma {:induction false} TrimLeftSpec(s: string)
    ensures var r := TrimLeft(s);
      |r| <= |s| && r == s[|s| - |r|..] && Blanks(s, 0, |s| - |r|) && (r == [] || !IsBlank(r[0]))
    decreases |s|
  {
    if s != [] && IsBlank(s[0]) {
      TrimLeftSpec(s[1..]);
    }
  }

  /** TrimRight drops the longest blank suffix: what it drops is blank, what it keeps does not end blank. */
  lemma {:induction false} TrimRightSpec(s: string)
    ensures var r := TrimRight(s);
      |r| <= |s| && r == s[..|r|] && Blanks(s, |r|, |s|) && (r == [] || !IsBlank(r[|r| - 1]))
    decreases |s|
  {
    if s != [] && IsBlank(s[|s| - 1]) {
      TrimRightSpec(s[..|s| - 1]);
    }
  }

  /**
   * strings.Trim(s, "\n\t\r "): the infix of `s` left after removing
   * the longest blank prefix and the longest blank suffix.
   */
  function Trim(s: string): (r: string)
    ensures NoEdgeBlanks(r)
  {
    TrimLeftSpec(s);
    TrimRightSpec(TrimLeft(s));
    TrimRight(TrimLeft(s))
  }

  /** What Trim removes is a blank prefix and a blank suffix of `s`. */
  lemma TrimInfix(s: string) returns (i: nat)
    ensures i <= |s| - |Trim(s)| && Trim(s) == s[i..i + |Trim(s)|]
    ensures Blanks(s, 0, i) && Blanks(s, i + |Trim(s)|, |s|)
  {
    var l := TrimLeft(s);
    var r := TrimRight(l);
    TrimLeftSpec(s);
    TrimRightSpec(l);
    i := |s| - |l|;
    assert Trim(s) == r;
    assert l == s[i..] && r == l[..|r|];
    assert r == s[i..i + |r|];
    assert Blanks(s, 0, i);
    forall k | i + |r| <= k < |s| ensures IsBlank(s[k]) {
      assert s[k] == l[k - i];
    }
  }

  lemma TrimFixpoint(s: string)
    requires NoEdgeBlanks(s)
    ensures Trim(s) == s
  {
  }

  lemma TrimIdempotent(s: string)
    ensures Trim(Trim(s)) == Trim(s)
  {
    TrimFixpoint(Trim(s));
  }

  /** Trimming keeps a non-blank first character in place. */
  lemma TrimKeepsFirst(s: string)
    requires s != [] && !IsBlank(s[0])
    ensures Trim(s) != [] && Trim(s)[0] == s[0]
  {
    assert TrimLeft(s) == s;
    TrimRightSpec(s);
  }

  /** Trimming keeps a non-blank last character in place. */
  lemma TrimKeepsLast(s: string)
    requires s != [] && !IsBlank(s[|s| - 1])
    ensures Trim(s) != [] && Trim(s)[|Trim(s)| - 1] == s[|s| - 1]
  {
    var l := TrimLeft(s);
    TrimLeftSpec(s);
    assert l != [] && l[|l| - 1] == s[|s| - 1];
    assert TrimRight(l) == l;
  }

  /** Trimming never introduces a character, in particular no newline. */
  lemma TrimNoNewline(s: string)
    requires '\n' !in s
    ensures '\n' !in Trim(s)
  {
    var r := Trim(s);
    var i := TrimInfix(s);
    forall k | 0 <= k < |r| ensures r[k] != '\n' {
      assert r[k] == s[i + k];
    }
  }

  /**
   * strings.Split(s, "\n"): the pieces between newlines, in order. The
   * empty string splits into one empty piece.
   */
  function Split(s: string): (parts: seq<string>)
    ensures |parts| >= 1
    ensures forall k :: 0 <= k < |parts| ==> '\n' !in parts[k]
    decreases |s|
  {
    if s == [] then [[]]
    else
      var rest := Split(s[1..]);
      if s[0] == '\n' then [[]] + rest
      else [[s[0]] + rest[0]] + rest[1..]
  }

  /** strings.Join(parts, "\n"): a newline appears exactly where pieces meet or inside a piece. */
  function Join(parts: seq<string>): (r: string)
    ensures '\n' in r <==> |parts| >= 2 || exists k :: 0 <= k < |parts| && '\n' in parts[k]
  {
    if |parts| == 0 then []
    else if |parts| == 1 then parts[0]
    else parts[0] + "\n" + Join(parts[1..])
  }

  /** Joining the pieces of a split gives back the string. */
  lemma {:induction false} JoinSplit(s: string)
    ensures Join(Split(s)) == s
    decreases |s|
  {
    if s != [] {
      var rest := Split(s[1..]);
      JoinSplit(s[1..]);
      if s[0] == '\n' {
        assert Split(s) == [[]] + rest;
        assert Split(s)[1..] == rest;
      } else {
        var parts := Split(s);
        assert parts == [[s[0]] + rest[0]] + rest[1..];
        if |rest| == 1 {
          assert parts == [[s[0]] + rest[0]];
        } else {
          assert parts[1..] == rest[1..];
          assert Join(rest) == rest[0] + "\n" + Join(rest[1..]);
        }
      }
    }
  }

  lemma {:induction false} SplitNoNewline(p: string)
    requires '\n' !in p
    ensures Split(p) == [p]
    decreases |p|
  {
    if p != [] {
      SplitNoNewline(p[1..]);
      assert [p[0]] + p[1..] == p;
    }
  }

  lemma {:induction false} SplitCons(p: string, rest: string)
    requires '\n' !in p
    ensures Split(p + "\n" + rest) == [p] + Split(rest)
    decreases |p|
  {
    var s := p + "\n" + rest;
    if p == [] {
      assert s[1..] == rest;
    } else {
      assert s[1..] == p[1..] + "\n" + rest;
      SplitCons(p[1..], rest);
      assert [p[0]] + p[1..] == p;
    }
  }

  /** Splitting a join of newline-free pieces gives back the pieces. */
  lemma {:induction false} SplitJoin(parts: seq<string>)
    requires |parts| >= 1
    requires forall k :: 0 <= k < |parts| ==> '\n' !in parts[k]
    ensures Split(Join(parts)) == parts
  {
    if |parts| == 1 {
      SplitNoNewline(parts[0]);
    } else {
      SplitJoin(parts[1..]);
      SplitCons(parts[0], Join(parts[1..]));
      assert [parts[0]] + parts[1..] == parts;
    }
  }

  /** A join starts with its first piece, followed by a newline if more pieces come. */
  lemma JoinFirst(parts: seq<string>)
    requires |parts| >= 1
    ensures |Join(parts)| >= |parts[0]| && Join(parts)[..|parts[0]|] == parts[0]
    ensures |parts| >= 2 ==> |Join(parts)| > |parts[0]| && Join(parts)[|parts[0]|] == '\n'
  {
  }

  /** A join ends with its last piece, preceded by a newline if pieces came before. */
  lemma {:induction false} JoinLast(parts: seq<string>)
    requires |parts| >= 1
    ensures var j, last := Join(parts), parts[|parts| - 1];
      |j| >= |last| && j[|j| - |last|..] == last &&
      (|parts| >= 2 ==> |j| > |last| && j[|j| - |last| - 1] == '\n')
  {
    if |parts| >= 2 {
      JoinLast(parts[1..]);
      var j, last := Join(parts), parts[|parts| - 1];
      var tail := Join(parts[1..]);
      assert j == parts[0] + "\n" + tail;
      assert j[|j| - |tail|..] == tail;
      if |parts| == 2 {
        assert j[|j| - |last| - 1] == j[|parts[0]|];
      } else {
        assert j[|j| - |last| - 1] == tail[|tail| - |last| - 1];
      }
    }
  }

  /** The first piece of a split starts with the first character, unless that is a newline. */
  lemma SplitFirst(s: string)
    requires s != [] && s[0] != '\n'
    ensures Split(s)[0] != [] && Split(s)[0][0] == s[0]
  {
  }

  /** The last piece of a split ends with the last character, unless that is a newline. */
  lemma SplitLast(s: string)
    requires s != [] && s[|s| - 1] != '\n'
    ensures var last := Split(s)[|Split(s)| - 1]; last != [] && last[|last| - 1] == s[|s| - 1]
  {
    var parts := Split(s);
    JoinSplit(s);
    JoinLast(parts);
  }

  /** A join whose first piece and last piece have no blank at their outer ends has no blank at its ends. */
  lemma JoinEdges(parts: seq<string>)
    requires |parts| >= 1
    requires parts[0] != [] && !IsBlank(parts[0][0])
    requires var last := parts[|parts| - 1]; last != [] && !IsBlank(last[|last| - 1])
    ensures NoEdgeBlanks(Join(parts))
  {
    var j, first, last := Join(parts), parts[0], parts[|parts| - 1];
    JoinFirst(parts);
    JoinLast(parts);
    assert j[0] == j[..|first|][0] == first[0];
    assert j[|j| - 1] == j[|j| - |last|..][|last| - 1] == last[|last| - 1];
  }

  /** Joining one more piece appends a newline and that piece. */
  lemma {:induction false} JoinSnoc(parts: seq<string>, last: string)
    requires |parts| >= 1
    ensures Join(parts + [last]) == Join(parts) + "\n" + last
  {
    if |parts| >= 2 {
      assert (parts + [last])[1..] == parts[1..] + [last];
      JoinSnoc(parts[1..], last);
    }
  }

  /** Appending a newline to a string starts a new, empty piece. */
  lemma SplitSnocNewline(p: string)
    ensures Split(p + "\n") == Split(p) + [[]]
  {
    var parts := Split(p);
    JoinSplit(p);
    JoinSnoc(parts, []);
    assert Join(parts + [[]]) == p + "\n";
    SplitJoin(parts + [[]]);
  }

  /** Appending another character to a string extends its last piece. */
  lemma SplitSnoc(p: string, c: char)
    requires c != '\n'
    ensures var parts := Split(p);
      Split(p + [c]) == parts[..|parts| - 1] + [parts[|parts| - 1] + [c]]
  {
    var parts := Split(p);
    var n := |parts|;
    var longer := parts[..n - 1] + [parts[n - 1] + [c]];
    JoinSplit(p);
    if n == 1 {
      assert longer == [parts[0] + [c]];
    } else {
      assert parts == parts[..n - 1] + [parts[n - 1]];
      JoinSnoc(parts[..n - 1], parts[n - 1]);
      JoinSnoc(parts[..n - 1], parts[n - 1] + [c]);
    }
    assert Join(longer) == p + [c];
    SplitJoin(longer);
  }

  /** Blanks appended at the end are all trimmed away by TrimRight. */
  lemma {:induction false} TrimRightAppendBlanks(s: string, b: string)
    requires Blanks(b, 0, |b|)
    ensures TrimRight(s + b) == TrimRight(s)
    decreases |b|
  {
    if b == [] {
      assert s + b == s;
    } else {
      var b' := b[..|b| - 1];
      assert (s + b)[..|s + b| - 1] == s + b';
      TrimRightAppendBlanks(s, b');
    }
  }

  /** Blanks put in front are all trimmed away by TrimLeft. */
  lemma {:induction false} TrimLeftPrependBlanks(b: string, s: string)
    requires Blanks(b, 0, |b|)
    ensures TrimLeft(b + s) == TrimLeft(s)
    decreases |b|
  {
    if b == [] {
      assert b + s == s;
    } else {
      assert (b + s)[1..] == b[1..] + s;
      TrimLeftPrependBlanks(b[1..], s);
    }
  }

  /** TrimLeft stops at the first non-blank character, so what follows is kept whole. */
  lemma {:induction false} TrimLeftAppend(s: string, b: string)
    requires !Blanks(s, 0, |s|)
    ensures TrimLeft(s + b) == TrimLeft(s) + b
    decreases |s|
  {
    if IsBlank(s[0]) {
      assert (s + b)[1..] == s[1..] + b;
      TrimLeftAppend(s[1..], b);
    }
  }

  lemma {:induction false} TrimLeftOfBlanks(s: string)
    requires Blanks(s, 0, |s|)
    ensures TrimLeft(s) == []
    decreases |s|
  {
    if s != [] {
      TrimLeftOfBlanks(s[1..]);
    }
  }

  /** Blanks around a text do not change what Trim returns. */
  lemma TrimIgnoresEdgeBlanks(before: string, s: string, after: string)
    requires Blanks(before, 0, |before|) && Blanks(after, 0, |after|)
    ensures Trim(before + s + after) == Trim(s)
  {
    assert before + s + after == before + (s + after);
    TrimLeftPrependBlanks(before, s + after);
    if Blanks(s, 0, |s|) {
      assert Blanks(s + after, 0, |s + after|);
      TrimLeftOfBlanks(s + after);
      TrimLeftOfBlanks(s);
    } else {
      TrimLeftAppend(s, after);
      TrimRightAppendBlanks(TrimLeft(s), after);
    }
  }
}
