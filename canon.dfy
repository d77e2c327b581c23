/**
 * Text canonicalisation of main.go: `sanitize` trims the cut set
 * "\n\t\r " from the whole text and then from every line, keeping
 * interior blank lines; `trimSlash` drops one trailing slash.
 */
module Canon {
  import opened GoStrings

  /** Every line trimmed on its own, none dropped. */
  function TrimLines(lines: seq<string>): seq<string>
  {
    seq(|lines|, k requires 0 <= k < |lines| => Trim(lines[k]))
  }

  /** The lines of the whole text after the outer trim. */
  function OuterLines(text: string): seq<string>
  {
    Split(Trim(text))
  }

  /** The canonical form that `sanitize` computes. */
  function Canonical(text: string): string
  {
    Join(TrimLines(OuterLines(text)))
  }

  /** sanitize (main.go:138-150): the loop appends each trimmed line to `ret`. */
  method Sanitize(str: string) returns (r: string)
    ensures r == Canonical(str)
    ensures NoEdgeBlanks(r)
  {
    var trimmed := Trim(str);
    var sl := Split(trimmed);
    var ret: seq<string> := [];
    var i := 0;
    while i < |sl|
      invariant 0 <= i <= |sl|
      invariant |ret| == i
      invariant forall k :: 0 <= k < i ==> ret[k] == Trim(sl[k])
    {
      ret := ret + [Trim(sl[i])];
      i := i + 1;
    }
    assert ret == TrimLines(sl);
    r := Join(ret);
    assert r == Canonical(str);
    CanonicalEdges(str);
  }

  /** Trimmed lines contain no newline and have no blank at either end. */
  lemma TrimLinesShape(lines: seq<string>)
    requires forall k :: 0 <= k < |lines| ==> '\n' !in lines[k]
    ensures forall k :: 0 <= k < |lines| ==> '\n' !in TrimLines(lines)[k] && NoEdgeBlanks(TrimLines(lines)[k])
  {
    forall k | 0 <= k < |lines| ensures '\n' !in TrimLines(lines)[k] {
      TrimNoNewline(lines[k]);
    }
  }

  /** The canonical text neither starts nor ends with a blank character. */
  lemma CanonicalEdges(text: string)
    ensures NoEdgeBlanks(Canonical(text))
  {
    var t := Trim(text);
    var parts := Split(t);
    var lines := TrimLines(parts);
    assert Canonical(text) == Join(lines);
    if t != [] {
      SplitFirst(t);
      SplitLast(t);
      TrimKeepsFirst(parts[0]);
      TrimKeepsLast(parts[|parts| - 1]);
      JoinEdges(lines);
    } else {
      assert parts == [[]];
    }
  }

  /**
   * A join of trimmed, newline-free lines whose edges are not blank is
   * already canonical.
   */
  lemma CanonicalOfJoin(lines: seq<string>)
    requires |lines| >= 1
    requires forall k :: 0 <= k < |lines| ==> '\n' !in lines[k] && NoEdgeBlanks(lines[k])
    requires NoEdgeBlanks(Join(lines))
    ensures Canonical(Join(lines)) == Join(lines)
  {
    TrimFixpoint(Join(lines));
    SplitJoin(lines);
    TrimLinesFixpoint(lines);
  }

  /** Lines without blank ends are left alone when every line is trimmed. */
  lemma TrimLinesFixpoint(lines: seq<string>)
    requires forall k :: 0 <= k < |lines| ==> NoEdgeBlanks(lines[k])
    ensures TrimLines(lines) == lines
  {
    var trimmed := TrimLines(lines);
    forall k | 0 <= k < |lines| ensures trimmed[k] == lines[k] {
      TrimFixpoint(lines[k]);
    }
  }

  /** The lines of the canonical text are the trimmed lines of the outer-trimmed input. */
  lemma CanonicalLines(text: string)
    ensures Split(Canonical(text)) == TrimLines(OuterLines(text))
    ensures |Split(Canonical(text))| == |OuterLines(text)|
    ensures forall k :: 0 <= k < |Split(Canonical(text))| ==> NoEdgeBlanks(Split(Canonical(text))[k])
  {
    var lines := TrimLines(OuterLines(text));
    TrimLinesShape(OuterLines(text));
    SplitJoin(lines);
  }

  /** sanitize(sanitize(s)) == sanitize(s). */
  lemma CanonicalIdempotent(text: string)
    ensures Canonical(Canonical(text)) == Canonical(text)
  {
    var lines := TrimLines(OuterLines(text));
    TrimLinesShape(OuterLines(text));
    CanonicalEdges(text);
    CanonicalOfJoin(lines);
  }

  /** A line of the outer-trimmed input becomes an empty line, not a dropped one, iff it is all blanks. */
  lemma CanonicalKeepsBlankLines(text: string, k: nat)
    requires k < |OuterLines(text)|
    ensures k < |Split(Canonical(text))|
    ensures Split(Canonical(text))[k] == [] <==> Blanks(OuterLines(text)[k], 0, |OuterLines(text)[k]|)
  {
    CanonicalLines(text);
    var line := OuterLines(text)[k];
    if line != [] && !IsBlank(line[0]) {
      TrimKeepsFirst(line);
    } else if line != [] {
      TrimEmptyIffBlank(line);
    }
  }

  lemma TrimEmptyIffBlank(s: string)
    ensures Trim(s) == [] <==> Blanks(s, 0, |s|)
  {
    var r := Trim(s);
    var i := TrimInfix(s);
    if r != [] {
      assert !IsBlank(s[i]);
    }
  }

  lemma CanonicalEmpty()
    ensures Canonical("") == ""
  {
    assert Trim("") == "";
    assert Split("") == [""];
  }

  /** An interior blank line survives as an empty line. */
  lemma CanonicalExample()
    ensures Canonical(" a\n \t\nb \r\n") == "a\n\nb"
  {
    var t := " a\n \t\nb \r\n";
    assert t[1..] == "a\n \t\nb \r\n";
    assert TrimLeft(t) == "a\n \t\nb \r\n";
    var u := "a\n \t\nb \r\n";
    var u1, u2, u3 := "a\n \t\nb \r", "a\n \t\nb ", "a\n \t\nb";
    assert u[..|u| - 1] == u1 && u1[..|u1| - 1] == u2 && u2[..|u2| - 1] == u3;
    assert TrimRight(u3) == u3;
    assert TrimRight(u2) == u3;
    assert TrimRight(u1) == u3;
    assert TrimRight(u) == u3;
    assert "a" + "\n" + " \t\nb" == "a\n \t\nb";
    assert " \t" + "\n" + "b" == " \t\nb";
    SplitCons("a", " \t\nb");
    SplitCons(" \t", "b");
    SplitNoNewline("b");
    assert Split("a\n \t\nb") == ["a", " \t", "b"];
    assert TrimLeft(" \t") == "";
    assert Trim(" \t") == "";
    assert Trim("a") == "a" && Trim("b") == "b";
    assert TrimLines(["a", " \t", "b"]) == ["a", "", "b"];
  }

  /**
   * Blanks, newlines included, around the whole text do not change its
   * canonical form: a leading blank line or a trailing newline is cosmetic.
   */
  lemma CanonicalIgnoresEdgeBlanks(before: string, text: string, after: string)
    requires Blanks(before, 0, |before|) && Blanks(after, 0, |after|)
    ensures Canonical(before + text + after) == Canonical(text)
  {
    TrimIgnoresEdgeBlanks(before, text, after);
  }

  /** Every line of the text trimmed on its own, without the outer trim that sanitize does first. */
  function LinesTrimmed(text: string): string
  {
    Join(TrimLines(Split(text)))
  }

  lemma EmptyLinesTrimmed()
    ensures Trim([]) == [] && LinesTrimmed([]) == []
  {
    assert Split([]) == [[]];
    assert TrimLines([[]]) == [[]];
  }

  /** A text that starts with a non-blank character keeps it in front once every line is trimmed. */
  lemma LinesTrimmedFirst(text: string)
    requires text != [] && !IsBlank(text[0])
    ensures LinesTrimmed(text) != [] && LinesTrimmed(text)[0] == text[0]
  {
    var parts := Split(text);
    SplitFirst(text);
    TrimKeepsFirst(parts[0]);
    JoinFirst(TrimLines(parts));
  }

  /** A text that ends with a non-blank character keeps it at the end once every line is trimmed. */
  lemma LinesTrimmedLast(text: string)
    requires text != [] && !IsBlank(text[|text| - 1])
    ensures var t := LinesTrimmed(text); t != [] && t[|t| - 1] == text[|text| - 1]
  {
    var parts := Split(text);
    SplitLast(text);
    TrimKeepsLast(parts[|parts| - 1]);
    JoinLast(TrimLines(parts));
  }

  /** Trimming every line and trimming blanks in front can be done in either order. */
  lemma {:induction false} LinesTrimmedTrimLeft(text: string)
    ensures LinesTrimmed(TrimLeft(text)) == TrimLeft(LinesTrimmed(text))
    decreases |text|
  {
    if text == [] {
      EmptyLinesTrimmed();
    } else if !IsBlank(text[0]) {
      LinesTrimmedFirst(text);
    } else {
      var rest := Split(text[1..]);
      LinesTrimmedTrimLeft(text[1..]);
      if text[0] == '\n' {
        assert Split(text) == [[]] + rest;
        assert Trim([]) == [] by { EmptyLinesTrimmed(); }
        assert TrimLines(Split(text)) == [[]] + TrimLines(rest);
        assert LinesTrimmed(text) == "\n" + LinesTrimmed(text[1..]);
        assert ("\n" + LinesTrimmed(text[1..]))[1..] == LinesTrimmed(text[1..]);
      } else {
        assert Split(text) == [[text[0]] + rest[0]] + rest[1..];
        assert [text[0]] + rest[0] + [] == [text[0]] + rest[0];
        TrimIgnoresEdgeBlanks([text[0]], rest[0], []);
        assert TrimLines(Split(text)) == TrimLines(rest);
      }
    }
  }

  /** Trimming every line and trimming blanks at the end can be done in either order. */
  lemma {:induction false} LinesTrimmedTrimRight(text: string)
    ensures LinesTrimmed(TrimRight(text)) == TrimRight(LinesTrimmed(text))
    decreases |text|
  {
    if text == [] {
      EmptyLinesTrimmed();
    } else if !IsBlank(text[|text| - 1]) {
      LinesTrimmedLast(text);
    } else {
      var p, c := text[..|text| - 1], text[|text| - 1];
      assert text == p + [c];
      LinesTrimmedTrimRight(p);
      var parts := Split(p);
      if c == '\n' {
        SplitSnocNewline(p);
        assert Trim([]) == [] by { EmptyLinesTrimmed(); }
        assert TrimLines(Split(text)) == TrimLines(parts) + [[]];
        JoinSnoc(TrimLines(parts), []);
        assert LinesTrimmed(text) == LinesTrimmed(p) + "\n" + [];
        assert LinesTrimmed(p) + "\n" + [] == LinesTrimmed(p) + "\n";
        TrimRightAppendBlanks(LinesTrimmed(p), "\n");
        assert TrimRight(text) == TrimRight(p);
      } else {
        var last := parts[|parts| - 1];
        SplitSnoc(p, c);
        assert [] + last + [c] == last + [c];
        TrimIgnoresEdgeBlanks([], last, [c]);
        assert TrimLines(Split(text)) == TrimLines(parts);
      }
    }
  }

  /**
   * sanitize trims the whole text and then every line; trimming every
   * line and then the whole text gives the same result.
   */
  lemma CanonicalTrimsLines(text: string)
    ensures Canonical(text) == Trim(LinesTrimmed(text))
  {
    LinesTrimmedTrimLeft(text);
    LinesTrimmedTrimRight(TrimLeft(text));
  }

  /**
   * Blanks at the ends of any line do not change the canonical form:
   * two texts whose lines agree once trimmed canonicalise alike.
   */
  lemma CanonicalIgnoresLineEdgeBlanks(a: string, b: string)
    requires |Split(a)| == |Split(b)|
    requires forall k :: 0 <= k < |Split(a)| ==> Trim(Split(a)[k]) == Trim(Split(b)[k])
    ensures Canonical(a) == Canonical(b)
  {
    assert TrimLines(Split(a)) == TrimLines(Split(b));
    CanonicalTrimsLines(a);
    CanonicalTrimsLines(b);
  }

  /** A canonical form without a newline is the whole text trimmed. */
  lemma CanonicalSingleLine(text: string)
    requires '\n' !in Canonical(text)
    ensures Canonical(text) == Trim(text)
  {
    CanonicalLines(text);
    SplitNoNewline(Canonical(text));
    JoinSplit(Trim(text));
    TrimIdempotent(text);
  }

  /**
   * A text canonicalises to a newline-free line of its own length only
   * if it is that line: nothing can be changed in it and trimmed away.
   */
  lemma CanonicalLineFixed(text: string, line: string)
    requires '\n' !in line && |line| == |text|
    ensures Canonical(text) == line ==> text == line
  {
    if Canonical(text) == line {
      CanonicalSingleLine(text);
      var i := TrimInfix(text);
    }
  }

  /** trimSlash (main.go:129-134): drops one trailing slash, if any. */
  function TrimSlash(s: string): (r: string)
    ensures |s| > 0 && s[|s| - 1] == '/' ==> r + "/" == s
    ensures !(|s| > 0 && s[|s| - 1] == '/') ==> r == s
  {
    if |s| > 0 && s[|s| - 1] == '/' then s[..|s| - 1] else s
  }

  /** Appending a slash and trimming it again is the identity. */
  lemma TrimSlashAppend(s: string)
    ensures TrimSlash(s + "/") == s
  {
  }

  /** trimSlash removes only one slash, so it is not idempotent. */
  lemma TrimSlashNotIdempotent()
    ensures TrimSlash("//") == "/" && TrimSlash(TrimSlash("//")) == ""
  {
  }
}
