/** The caret of an error message stands under the character it is about. */
module Caret {
  import opened ErrorDisplay
  import Lexing
  import LexCoverage

  predicate Ordinary(c: char) {
    c != '\n' && c != '\r'
  }

  // ----- the line and the column find the character -----

  lemma {:induction false} LaterLines(s: string, i: nat, k: nat)
    requires i <= k <= |s|
    ensures LineOf(s, i) <= LineOf(s, k)
    decreases k - i
  {
    if i < k {
      LaterLines(s, i, k - 1);
    }
  }

  lemma PlainStep(s: string, i: nat, cur: string)
    requires i < |s| && Ordinary(s[i]) && Aligned(s, i)
    ensures Aligned(s, i + 1) && StartOf(s, i + 1) == StartOf(s, i) <= i && LineOf(s, i + 1) == LineOf(s, i)
    ensures Lines(s, i, cur) == Lines(s, i + 1, cur + [s[i]])
  {}

  lemma BreakStep(s: string, i: nat, cur: string)
    requires i < |s| && !Ordinary(s[i]) && Aligned(s, i)
    ensures var j := if Pair(s, i) then i + 2 else i + 1;
            && i < j <= |s| && Aligned(s, j) && StartOf(s, j) == j && LineOf(s, j) == LineOf(s, i) + 1
            && (forall k :: i <= k < |s| && Ordinary(s[k]) ==> j <= k)
            && Lines(s, i, cur) == [cur] + Lines(s, j, "")
  {
    var j := if Pair(s, i) then i + 2 else i + 1;
    assert LineOf(s, i + 1) == LineOf(s, i) + 1;
  }

  /** The line has the character in its column, behind the text before it. */
  predicate Shows(line: string, s: string, k: nat)
    requires k < |s|
  {
    && StartOf(s, k) <= k
    && ColumnOf(s, k) <= |line|
    && line[..ColumnOf(s, k) - 1] == s[StartOf(s, k)..k]
    && line[ColumnOf(s, k) - 1] == s[k]
  }

  /** The first line goes on from what it has begun with. */
  lemma {:induction false} RestOfLine(s: string, i: nat, cur: string)
    requires i <= |s|
    ensures |cur| <= |Lines(s, i, cur)[0]| && Lines(s, i, cur)[0][..|cur|] == cur
    decreases |s| - i
  {
    if i < |s| && Ordinary(s[i]) {
      RestOfLine(s, i + 1, cur + [s[i]]);
      assert Lines(s, i, cur)[0][..|cur|] == Lines(s, i, cur)[0][..|cur| + 1][..|cur|];
    }
  }

  lemma LastStep(s: string, k: nat, cur: string)
    requires k < |s| && Aligned(s, k) && cur == s[StartOf(s, k)..k] && Ordinary(s[k])
    ensures Shows(Lines(s, k, cur)[0], s, k)
  {
    PlainStep(s, k, cur);
    RestOfLine(s, k + 1, cur + [s[k]]);
    var line := Lines(s, k, cur)[0];
    assert line[|cur|] == line[..|cur| + 1][|cur|];
    assert line[..|cur|] == line[..|cur| + 1][..|cur|];
  }

  /** Splitting from an aligned position on, with the line so far in `cur`: the line of a later character shows
      it. */
  lemma {:induction false} LinesHold(s: string, i: nat, cur: string, k: nat)
    requires i <= k < |s| && Aligned(s, i) && cur == s[StartOf(s, i)..i] && Ordinary(s[k])
    ensures LineOf(s, i) <= LineOf(s, k)
    ensures var lines, n := Lines(s, i, cur), LineOf(s, k) - LineOf(s, i);
            n < |lines| && Shows(lines[n], s, k)
    decreases k - i
  {
    hide LineOf, StartOf, Aligned, Pair, Lines, Shows;
    LaterLines(s, i, k);
    if i == k {
      LastStep(s, k, cur);
    } else if Ordinary(s[i]) {
      PlainStep(s, i, cur);
      assert cur + [s[i]] == s[StartOf(s, i)..i + 1];
      LinesHold(s, i + 1, cur + [s[i]], k);
    } else {
      var j := if Pair(s, i) then i + 2 else i + 1;
      BreakStep(s, i, cur);
      assert s[j..j] == "";
      LinesHold(s, j, "", k);
    }
  }

  /** The line shown for a character, and the text before it on that line. */
  lemma LineHoldsCharacter(s: string, k: nat)
    requires k < |s| && Ordinary(s[k])
    ensures var lines, n := Lines(s, 0, ""), LineOf(s, k);
            1 <= n <= |lines| && Shows(lines[n - 1], s, k)
  {
    assert s[0..0] == "";
    LinesHold(s, 0, "", k);
  }

  function Without(s: string): string {
    if s == "" then "" else (if Ordinary(s[0]) then [s[0]] else "") + Without(s[1..])
  }

  function Joined(lines: seq<string>): string {
    if lines == [] then "" else lines[0] + Joined(lines[1..])
  }

  lemma {:induction false} LinesFrom(s: string, i: nat, cur: string)
    requires i <= |s| && Aligned(s, i) && forall c :: c in cur ==> Ordinary(c)
    ensures var lines := Lines(s, i, cur);
            && |lines| == LineOf(s, |s|) - LineOf(s, i) + 1
            && Joined(lines) == cur + Without(s[i..])
            && forall line, c :: line in lines && c in line ==> Ordinary(c)
    decreases |s| - i
  {
    hide LineOf, StartOf, Aligned;
    var lines := Lines(s, i, cur);
    if i == |s| {
      assert lines[1..] == [];
    } else if Ordinary(s[i]) {
      PlainStep(s, i, cur);
      LinesFrom(s, i + 1, cur + [s[i]]);
      assert s[i..][1..] == s[i + 1..];
    } else {
      BreakStep(s, i, cur);
      var j := if Pair(s, i) then i + 2 else i + 1;
      LinesFrom(s, j, "");
      assert lines[1..] == Lines(s, j, "");
      assert s[i..][1..] == s[i + 1..] && (Pair(s, i) ==> s[i + 1..][1..] == s[i + 2..]);
    }
  }

  /** There is one line more than there are line ends, no line has a line end in it, and together they are all other
      characters. */
  lemma AllLines(s: string)
    ensures |Lines(s, 0, "")| == LineOf(s, |s|)
    ensures Joined(Lines(s, 0, "")) == Without(s)
    ensures forall line, c :: line in Lines(s, 0, "") && c in line ==> c != '\n' && c != '\r'
  {
    LinesFrom(s, 0, "");
    assert s[0..] == s;
  }

  // ----- the caret is under the character -----

  lemma {:induction false} ExpandPrefix(line: string, n: nat, tab: nat)
    requires n <= |line| && tab > 0
    ensures Expand(line[..n], tab) <= Expand(line, tab)
    decreases |line|
  {
    if n < |line| {
      var before := line[..|line| - 1];
      assert before[..n] == line[..n];
      ExpandPrefix(before, n, tab);
    } else {
      assert line[..n] == line;
    }
  }

  /** In the expanded line the character stands behind the expansion of the text before it. */
  lemma ExpandedCharacter(line: string, n: nat, tab: nat)
    requires n < |line| && tab > 0
    ensures var at := |Expand(line[..n], tab)|;
            at < |Expand(line, tab)| && Expand(line, tab)[at] == if line[n] == '\t' then ' ' else line[n]
  {
    var t := line[..n + 1];
    assert t[..|t| - 1] == line[..n];
    ExpandPrefix(line, n + 1, tab);
  }

  /** Over ASCII text the two counters agree. */
  lemma {:induction false} VisualIsExpanded(line: string, n: nat, i: nat, tab: nat)
    requires i <= n <= |line| && tab > 0 && forall j :: 0 <= j < n ==> Ascii(line[j])
    ensures Visual(line, i, n - i, |Expand(line[..i], tab)|, tab) == |Expand(line[..n], tab)|
    decreases n - i
  {
    if i < n {
      var t := line[..i + 1];
      assert t[..|t| - 1] == line[..i];
      VisualIsExpanded(line, n, i + 1, tab);
    }
  }

  /** For any ordinary character behind ASCII text on its line, with any mixture of `\n`, `\r` and `\r\n`: the
      caret is printed in the column in which the expanded line shows that character. */
  lemma CaretPointsAtCharacter(s: string, k: nat, tab: nat)
    requires k < |s| && Ordinary(s[k]) && tab > 0
    requires forall j :: StartOf(s, k) <= j < k ==> Ascii(s[j])
    ensures var lines, n, c := Lines(s, 0, ""), LineOf(s, k), ColumnOf(s, k);
            && 1 <= n <= |lines| && 1 <= c <= |lines[n - 1]|
            && var line := lines[n - 1];
               var caret, shown := Visual(line, 0, c - 1, 0, tab), Expand(line, tab);
               && caret == |Expand(line[..c - 1], tab)| < |shown|
               && shown[caret] == if s[k] == '\t' then ' ' else s[k]
  {
    LineHoldsCharacter(s, k);
    var line, c := Lines(s, 0, "")[LineOf(s, k) - 1], ColumnOf(s, k);
    var before := line[..c - 1];
    forall j | 0 <= j < c - 1 ensures Ascii(line[j]) {
      assert line[j] == before[j] == s[StartOf(s, k)..k][j] == s[StartOf(s, k) + j];
    }
    assert line[..0] == "";
    VisualIsExpanded(line, c - 1, 0, tab);
    ExpandedCharacter(line, c - 1, tab);
  }

  // ----- behind other characters it is not -----

  /** A sequence of complete characters from `i` to `c`. */
  predicate Whole(line: string, i: nat, c: nat)
    requires c <= |line|
    decreases c - i
  {
    i == c || (i < c && !Stray(line[i]) && Whole(line, i + Bytes(line[i]), c))
  }

  /** The number of these characters. */
  function Count(line: string, i: nat, c: nat): (n: nat)
    requires c <= |line| && Whole(line, i, c)
    ensures i + n <= c
    decreases c - i
  {
    if i == c then 0 else 1 + Count(line, i + Bytes(line[i]), c)
  }

  /** The column behind these characters. */
  function Width(line: string, i: nat, c: nat, col: nat, tab: nat): nat
    requires c <= |line| && Whole(line, i, c) && tab > 0
    decreases c - i
  {
    if i == c then col else Width(line, i + Bytes(line[i]), c, After(line[i], col, tab), tab)
  }

  lemma {:induction false} VisualPasses(line: string, i: nat, c: nat, n: nat, col: nat, tab: nat)
    requires c <= |line| && Whole(line, i, c) && tab > 0 && Count(line, i, c) <= n
    ensures Visual(line, i, n, col, tab) == Visual(line, c, n - Count(line, i, c), Width(line, i, c, col, tab), tab)
    decreases c - i
  {
    if i < c {
      VisualPasses(line, i + Bytes(line[i]), c, n - 1, After(line[i], col, tab), tab);
    }
  }

  lemma {:induction false} CountIsBytes(line: string, i: nat, c: nat)
    requires c <= |line| && Whole(line, i, c)
    ensures Count(line, i, c) == c - i <==> forall j :: i <= j < c ==> Ascii(line[j])
    decreases c - i
  {
    if i < c {
      CountIsBytes(line, i + Bytes(line[i]), c);
    }
  }

  lemma {:induction false} VisualGrows(line: string, i: nat, n: nat, col: nat, tab: nat)
    requires tab > 0
    ensures Visual(line, i, n, col, tab) >= col
    decreases |line| - i
  {
    if i < |line| && n > 0 {
      VisualGrows(line, i + Bytes(line[i]), n - 1, After(line[i], col, tab), tab);
    }
  }

  /** The caret of an ASCII character is in the column where the characters before it end if and only if these
      are all ASCII: the source counts characters up to a number of bytes. */
  lemma CaretIsRightExactly(line: string, c: nat, tab: nat)
    requires c < |line| && Ascii(line[c]) && Whole(line, 0, c) && tab > 0
    ensures Visual(line, 0, c, 0, tab) == Width(line, 0, c, 0, tab) <==> forall j :: 0 <= j < c ==> Ascii(line[j])
  {
    var w, left := Width(line, 0, c, 0, tab), c - Count(line, 0, c);
    VisualPasses(line, 0, c, c, 0, tab);
    CountIsBytes(line, 0, c);
    if left > 0 {
      VisualGrows(line, c + Bytes(line[c]), left - 1, After(line[c], w, tab), tab);
    }
  }

  // ----- the positions of tokens -----

  /** A carriage return without a newline behind it. */
  predicate Lone(s: string, i: nat) {
    i < |s| && s[i] == '\r' && !Pair(s, i)
  }

  function Lones(s: string, k: nat): (n: nat)
    requires k <= |s|
    ensures n == 0 <==> forall i :: 0 <= i < k ==> !Lone(s, i)
  {
    if k == 0 then 0 else Lones(s, k - 1) + (if Lone(s, k - 1) then 1 else 0)
  }

  lemma {:induction false} LinesDiffer(s: string, k: nat)
    requires k <= |s|
    ensures LineOf(s, k) == Lexing.LineAt(s, k) + Lones(s, k) + (if Aligned(s, k) then 0 else 1)
  {
    if k > 0 {
      LinesDiffer(s, k - 1);
    }
  }

  lemma {:induction false} StartsAgree(s: string, k: nat)
    requires k <= |s| && Lones(s, k) == 0 && Aligned(s, k)
    ensures StartOf(s, k) == Lexing.LineStart(s, k)
  {
    if k > 0 && s[k - 1] != '\n' {
      assert !Lone(s, k - 1);
      StartsAgree(s, k - 1);
    }
  }

  /** The tokenizer's counters and those of the error display agree at a position if and only if no carriage
      return before it stands alone. */
  lemma CountersAgreeExactly(s: string, k: nat)
    requires k <= |s| && Aligned(s, k)
    ensures (Lexing.LineAt(s, k) == LineOf(s, k) && Lexing.ColumnAt(s, k) == ColumnOf(s, k))
            <==> forall i :: 0 <= i < k ==> !Lone(s, i)
  {
    LinesDiffer(s, k);
    if Lones(s, k) == 0 {
      StartsAgree(s, k);
    }
  }

  /** So they do for every token of a source in which no carriage return stands alone; in particular for every
      source without carriage returns. */
  lemma TokensAreWhereTheyAreShown(s: string, i: nat)
    requires Lexing.TokensFrom(s, 0).Tokens? && i < |Lexing.TokensFrom(s, 0).tokens|
    requires forall j :: 0 <= j < |s| ==> !Lone(s, j)
    ensures var t := Lexing.TokensFrom(s, 0).tokens[i];
            t.index <= |s| && t.line == LineOf(s, t.index) && t.column == ColumnOf(s, t.index)
  {
    LexCoverage.SourceIsCovered(s);
    LexCoverage.CoverageMeans(s, 0, Lexing.TokensFrom(s, 0).tokens, i);
    CountersAgreeExactly(s, Lexing.TokensFrom(s, 0).tokens[i].index);
  }
}
