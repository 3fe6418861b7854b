/** The tokens of a source cover it: nothing but white space and comments lies between them. */
module LexCoverage {
  import opened Lexing

  /** The end mark of block comments. */
  predicate Mark(s: string, i: nat) {
    Char(s, i) == '*' && Char(s, i + 1) == '/'
  }

  /** The first `k` characters are one comment. A block comment ends with the first mark; a line comment goes
      up to a newline. At the end of the source (`last`) both may just end. */
  predicate IsComment(s: string, k: nat, last: bool)
    requires 2 <= k <= |s|
  {
    s[0] == '/' &&
    match s[1]
    case '*' =>
      || (k >= 4 && Mark(s, k - 2) && forall i :: 2 <= i < k - 2 ==> !Mark(s, i))
      || (k == |s| && last && forall i :: 2 <= i < k ==> !Mark(s, i))
    case '/' => (forall i :: 2 <= i < k ==> s[i] != '\n') && if k == |s| then last else s[k] == '\n'
    case _ => false
  }

  /** White space and comments. */
  ghost predicate Blank(s: string, last: bool)
    decreases |s|
  {
    || s == []
    || (In(White, s[0]) && Blank(s[1..], last))
    || exists k :: 2 <= k <= |s| && IsComment(s, k, last) && Blank(s[k..], last)
  }

  lemma {:induction false} WhiteIsBlank(s: string, i: nat, j: nat, last: bool)
    requires i <= j <= |s| && (forall m :: i <= m < j ==> In(White, s[m])) && Blank(s[j..], last)
    ensures Blank(s[i..], last)
    decreases j - i
  {
    if i < j {
      WhiteIsBlank(s, i + 1, j, last);
      assert s[i..][1..] == s[i + 1..];
    }
  }

  /** A block comment ends with its first mark, or not at all. */
  lemma {:induction false} BlockEndIsFirst(s: string, i: nat, from: nat)
    requires from <= i <= |s| && forall m :: from <= m < i ==> !Mark(s, m)
    ensures var j := BlockEnd(s, i);
            || (j >= i + 2 && Mark(s, j - 2) && forall m :: from <= m < j - 2 ==> !Mark(s, m))
            || (j == |s| && forall m :: from <= m < j ==> !Mark(s, m))
    decreases |s| - i
  {
    if i < |s| && !Mark(s, i) {
      BlockEndIsFirst(s, i + 1, from);
    }
  }

  /** A comment of the source, seen as the start of what remains of the gap. */
  lemma BlockIsComment(s: string, w: nat, j: nat)
    requires w <= |s| && BlockComment(s, w) && BlockEnd(s, w + 2) <= j <= |s|
    ensures var t := s[..j][w..]; IsComment(t, BlockEnd(s, w + 2) - w, j == |s|)
  {
    BlockEndIsFirst(s, w + 2, w + 2);
    var t, c := s[..j][w..], BlockEnd(s, w + 2);
    assert forall i :: 2 <= i < c - w && i < |t| ==> t[i] == s[w + i];
    forall i | 2 <= i < c - w && Mark(t, i) ensures Mark(s, w + i) {}
  }

  lemma LineIsComment(s: string, w: nat, j: nat)
    requires w <= |s| && LineComment(s, w)
    requires var c := LineEnd(s, w + 2); c <= j <= |s| && (c == j ==> j == |s|)
    ensures var t := s[..j][w..]; IsComment(t, LineEnd(s, w + 2) - w, j == |s|)
  {
    var t, c := s[..j][w..], LineEnd(s, w + 2);
    assert forall i :: 0 <= i < |t| ==> t[i] == s[w + i];
  }

  lemma CommentIsBlank(s: string, k: nat, last: bool)
    requires 2 <= k <= |s| && IsComment(s, k, last) && Blank(s[k..], last)
    ensures Blank(s, last)
  {}

  /** A comment that starts at `w` and the rest of the gap behind it. */
  lemma CommentFirst(s: string, w: nat, c: nat, j: nat)
    requires w <= |s| && (LineComment(s, w) || BlockComment(s, w))
    requires c == if LineComment(s, w) then LineEnd(s, w + 2) else BlockEnd(s, w + 2)
    requires c <= j <= |s| && (c == j && LineComment(s, w) ==> j == |s|) && Blank(s[..j][c..], j == |s|)
    ensures Blank(s[..j][w..], j == |s|)
  {
    hide IsComment, Blank;
    if LineComment(s, w) {
      LineIsComment(s, w, j);
    } else {
      BlockIsComment(s, w, j);
    }
    assert s[..j][w..][c - w..] == s[..j][c..];
    CommentIsBlank(s[..j][w..], c - w, j == |s|);
  }

  /** The gap goes on behind a line comment, with the newline. */
  lemma BehindLine(s: string, i: nat)
    requires i <= |s| && Gap(s, LineEnd(s, i)) == LineEnd(s, i)
    ensures LineEnd(s, i) == |s|
  {
    hide Gap;
    GapStops(s, LineEnd(s, i));
  }

  lemma {:induction false} GapIsBlank(s: string, i: nat)
    requires i <= |s|
    ensures var j := Gap(s, i); Blank(s[..j][i..], j == |s|)
    decreases |s| - i
  {
    hide Blank, BlockEnd, LineEnd, End, IsComment;
    var j := Gap(s, i);
    var w := End(White, s, i);
    if LineComment(s, w) || BlockComment(s, w) {
      var c := if LineComment(s, w) then LineEnd(s, w + 2) else BlockEnd(s, w + 2);
      GapIsBlank(s, c);
      if LineComment(s, w) && c == j {
        BehindLine(s, w + 2);
      }
      CommentFirst(s, w, c, j);
    } else {
      NothingIsBlank(s[..j][w..], j == |s|);
    }
    WhiteIsBlank(s[..j], i, w, j == |s|);
  }

  lemma NothingIsBlank(s: string, last: bool)
    requires s == ""
    ensures Blank(s, last)
  {}

  // ----- coverage -----

  /** Where a token ends. */
  function Behind(t: Token): nat {
    t.index + |t.lexeme|
  }

  /** The tokens cut the source from `p` on into gaps and lexemes, in this order and without overlap. */
  ghost predicate Covers(s: string, p: nat, tokens: seq<Token>)
    requires p <= |s|
    decreases |tokens|
  {
    && tokens != []
    && var t := tokens[0];
       && p <= t.index && Behind(t) <= |s|
       && t.lexeme == s[t.index..Behind(t)]
       && t.line == LineAt(s, t.index) && t.column == ColumnAt(s, t.index)
       && Blank(s[p..t.index], t.index == |s|)
       && (t.index < |s| ==> !In(White, s[t.index]))
       && (if |tokens| == 1 then t.kind == EndOfFile && t.lexeme == "" && t.index == |s|
           else t.kind != EndOfFile && t.lexeme != "" && Covers(s, Behind(t), tokens[1..]))
  }

  lemma CoverStep(s: string, p: nat, t: Token, tokens: seq<Token>)
    requires p <= t.index < Behind(t) <= |s| && t.kind != EndOfFile && t.lexeme == s[t.index..Behind(t)]
    requires t.line == LineAt(s, t.index) && t.column == ColumnAt(s, t.index) && Blank(s[p..t.index], t.index == |s|)
    requires !In(White, s[t.index]) && Covers(s, Behind(t), tokens)
    ensures Covers(s, p, [t] + tokens)
  {
    hide Blank, LineAt, ColumnAt;
    assert ([t] + tokens)[1..] == tokens;
  }

  lemma {:induction false} TokensCover(s: string, p: nat)
    requires p <= |s| && TokensFrom(s, p).Tokens?
    ensures Covers(s, p, TokensFrom(s, p).tokens)
    decreases |s| - p
  {
    hide Lex, Gap, Blank, LineAt, ColumnAt;
    var i := p + Gap(s[p..], 0);
    GapIsBlank(s[p..], 0);
    assert s[p..][..i - p][0..] == s[p..i];
    if i < |s| {
      GapStops(s[p..], 0);
      assert s[p..][i - p] == s[i];
      TokensCoverMore(s, p, i);
    }
  }

  lemma {:induction false} TokensCoverMore(s: string, p: nat, i: nat)
    requires p <= |s| && TokensFrom(s, p).Tokens? && i == p + Gap(s[p..], 0) < |s| && Lex(s[i..]).Lexeme?
    requires Blank(s[p..i], i == |s|) && !In(White, s[i])
    ensures Covers(s, p, TokensFrom(s, p).tokens)
    decreases |s| - p, 0
  {
    hide Lex, Gap, Blank, LineAt, ColumnAt, Covers, TokensFrom;
    var l := Lex(s[i..]);
    NextTokenOf(s, p);
    TokensCover(s, i + l.n);
    CoverStep(s, p, TokensFrom(s, p).tokens[0], TokensFrom(s, i + l.n).tokens);
  }

  /** What follows from covering: every lexeme is the slice at its index, the indices increase, the slices are
      disjoint, each gap is blank, and there are at most as many tokens as characters and one more. */
  lemma {:induction false} CoverageMeans(s: string, p: nat, tokens: seq<Token>, i: nat)
    requires p <= |s| && Covers(s, p, tokens) && i < |tokens|
    ensures |tokens| <= |s| - p + 1
    ensures var t := tokens[i];
            && p <= t.index && Behind(t) <= |s| && t.lexeme == s[t.index..Behind(t)]
            && t.line == LineAt(s, t.index) && t.column == ColumnAt(s, t.index)
            && (t.index < |s| ==> !In(White, s[t.index]))
            && (t.kind == EndOfFile <==> i == |tokens| - 1)
            && (t.lexeme == "" <==> i == |tokens| - 1)
            && (i + 1 < |tokens| ==>
                  && t.index < Behind(t) <= tokens[i + 1].index <= |s|
                  && Blank(s[Behind(t)..tokens[i + 1].index], tokens[i + 1].index == |s|))
    decreases |tokens|
  {
    if |tokens| > 1 {
      var rest := tokens[1..];
      var n := Behind(tokens[0]);
      CoverageMeans(s, n, rest, if i == 0 then 0 else i - 1);
      if i > 0 {
        assert rest[i - 1] == tokens[i];
        assert i + 1 < |tokens| ==> rest[i] == tokens[i + 1];
      } else {
        assert rest[0] == tokens[1];
      }
    }
  }

  /** Every source that can be tokenized is covered by its tokens. */
  lemma SourceIsCovered(s: string)
    requires TokensFrom(s, 0).Tokens?
    ensures var tokens := TokensFrom(s, 0).tokens;
            Covers(s, 0, tokens) && |tokens| <= |s| + 1
  {
    TokensCover(s, 0);
    CoverageMeans(s, 0, TokensFrom(s, 0).tokens, 0);
  }
}
