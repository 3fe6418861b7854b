/** Where an error message points: line and column of a source index, the lines of the source, and the column
    of the caret under a line whose tabs have been expanded. */
module ErrorDisplay {
  import opened Arithmetic

  // ----- lines and columns -----

  predicate Pair(s: string, i: nat) {
    i + 1 < |s| && s[i] == '\r' && s[i + 1] == '\n'
  }

  /** The position is not between the two characters of a line end. */
  predicate Aligned(s: string, k: nat) {
    k == 0 || !Pair(s, k - 1)
  }

  /** One of `\n`, `\r` and `\r\n` starts here. */
  predicate EndsLine(s: string, i: nat)
    requires i < |s|
  {
    s[i] == '\r' || (s[i] == '\n' && Aligned(s, i))
  }

  /** One more than the line ends that start before the position. */
  function LineOf(s: string, k: nat): (n: nat)
    requires k <= |s|
    ensures n >= 1
  {
    if k == 0 then 1 else LineOf(s, k - 1) + (if EndsLine(s, k - 1) then 1 else 0)
  }

  /** Where the line of a position starts; between `\r` and `\n` the next line counts already. */
  function StartOf(s: string, k: nat): (j: nat)
    requires k <= |s|
    ensures j <= |s| && (Aligned(s, k) ==> j <= k) && j <= k + 1
  {
    if k == 0 || s[k - 1] == '\n' then k
    else if s[k - 1] == '\r' then (if Pair(s, k - 1) then k + 1 else k)
    else StartOf(s, k - 1)
  }

  function ColumnOf(s: string, k: nat): (n: nat)
    requires k <= |s|
    ensures n >= 1
  {
    if StartOf(s, k) > k then 1 else k - StartOf(s, k) + 1
  }

  method SourceIndexToLineColumn(source: string, index: nat) returns (line: nat, column: nat)
    ensures var k := if index < |source| then index else |source|;
            line == LineOf(source, k) && column == ColumnOf(source, k)
  {
    line, column := 1, 1;
    var i := 0;
    while i < index && i < |source|
      invariant i <= |source| && Aligned(source, i)
      invariant i <= index || (index > 0 && i == index + 1 && Pair(source, index - 1))
      invariant line == LineOf(source, i) && column == ColumnOf(source, i)
      decreases |source| - i
    {
      if source[i] == '\n' {
        line, column := line + 1, 1;
      } else if source[i] == '\r' {
        line, column := line + 1, 1;
        if i + 1 < |source| && source[i + 1] == '\n' {
          i := i + 1;
        }
      } else {
        column := column + 1;
      }
      i := i + 1;
    }
  }

  // ----- the lines of a source -----

  /** The lines from a position on, of which the first has begun with `cur`. */
  function Lines(s: string, i: nat, cur: string): (r: seq<string>)
    requires i <= |s|
    ensures r != []
    decreases |s| - i
  {
    if i == |s| then [cur]
    else if s[i] == '\n' then [cur] + Lines(s, i + 1, "")
    else if s[i] == '\r' then [cur] + Lines(s, if Pair(s, i) then i + 2 else i + 1, "")
    else Lines(s, i + 1, cur + [s[i]])
  }

  method SplitLines(source: string) returns (lines: seq<string>)
    ensures lines == Lines(source, 0, "")
  {
    lines := [];
    var current := "";
    var i := 0;
    while i < |source|
      invariant i <= |source|
      invariant lines + Lines(source, i, current) == Lines(source, 0, "")
      invariant i > 0 && current == "" ==> source[i - 1] == '\n' || source[i - 1] == '\r'
      decreases |source| - i
    {
      ghost var rest := Lines(source, i, current);
      var c := source[i];
      if c == '\n' {
        assert lines + rest == lines + [current] + rest[1..];
        lines := lines + [current];
        current := "";
      } else if c == '\r' {
        assert lines + rest == lines + [current] + rest[1..];
        if i + 1 < |source| && source[i + 1] == '\n' {
          i := i + 1;
        }
        lines := lines + [current];
        current := "";
      } else {
        current := current + [c];
      }
      i := i + 1;
    }
    if current != "" || source == "" || source[|source| - 1] == '\n' || source[|source| - 1] == '\r' {
      lines := lines + [current];
    }
  }

  // ----- tabs -----

  function Spaces(n: nat): (r: string)
    ensures |r| == n && forall i :: 0 <= i < n ==> r[i] == ' '
  {
    seq(n, _ => ' ')
  }

  /** How many columns a tab takes at a column. */
  function TabStop(col: nat, tab: nat): (n: nat)
    requires tab > 0
    ensures 1 <= n <= tab && (col + n) % tab == 0
  {
    Remainder(col + (tab - col % tab), tab, col / tab + 1, 0);
    tab - col % tab
  }

  /** A line with its tabs replaced by spaces up to the next tab stop. */
  function Expand(line: string, tab: nat): string
    requires tab > 0
  {
    if line == "" then ""
    else
      var before, c := Expand(line[..|line| - 1], tab), line[|line| - 1];
      before + if c == '\t' then Spaces(TabStop(|before|, tab)) else [c]
  }

  method ExpandTabs(line: string, tab: nat) returns (result: string)
    requires tab > 0
    ensures result == Expand(line, tab)
  {
    result := "";
    var col := 0;
    var i := 0;
    while i < |line|
      invariant i <= |line| && result == Expand(line[..i], tab) && col == |result|
    {
      assert line[..i + 1][..i] == line[..i];
      if line[i] == '\t' {
        var spaces := tab - col % tab;
        result := result + Spaces(spaces);
        col := col + spaces;
      } else {
        result := result + [line[i]];
        col := col + 1;
      }
      i := i + 1;
    }
    assert line[..|line|] == line;
  }

  // ----- the column of the caret -----

  /** How many bytes a character takes, from its first byte. A byte that cannot be the first one stands alone. */
  function Bytes(c: char): (n: nat)
    ensures 1 <= n <= 4
  {
    var b := c as int;
    if 0xC0 <= b < 0xE0 then 2
    else if 0xE0 <= b < 0xF0 then 3
    else if 0xF0 <= b < 0xF8 then 4
    else 1
  }

  predicate Ascii(c: char) {
    c as int < 0x80
  }

  /** A byte between two characters or after the last possible first byte takes no column. */
  predicate Stray(c: char) {
    Bytes(c) == 1 && !Ascii(c)
  }

  /** The column a character ends at. */
  function After(c: char, col: nat, tab: nat): nat
    requires tab > 0
  {
    if c == '\t' then col + TabStop(col, tab) else if Stray(c) then col else col + 1
  }

  /** The column behind the next `n` characters, or behind the last one. */
  function Visual(line: string, i: nat, n: nat, col: nat, tab: nat): nat
    requires tab > 0
    decreases |line| - i
  {
    if i >= |line| || n == 0 then col
    else Visual(line, i + Bytes(line[i]), n - 1, After(line[i], col, tab), tab)
  }

  method VisualColumn(line: string, byteColumn: nat, tab: nat) returns (visualCol: nat)
    requires tab > 0
    ensures visualCol == Visual(line, 0, byteColumn, 0, tab)
  {
    visualCol := 0;
    var bytePos := 0;
    var i := 0;
    while i < |line| && bytePos < byteColumn
      invariant bytePos <= byteColumn
      invariant Visual(line, i, byteColumn - bytePos, visualCol, tab) == Visual(line, 0, byteColumn, 0, tab)
      decreases |line| - i
    {
      var c := line[i] as int;
      if line[i] == '\t' {
        visualCol := visualCol + (tab - visualCol % tab);
        bytePos := bytePos + 1;
      } else if c < 0x80 {
        visualCol := visualCol + 1;
        bytePos := bytePos + 1;
      } else if 0xC0 <= c < 0xE0 {
        visualCol := visualCol + 1;
        bytePos := bytePos + 1;
        i := i + 1;
      } else if 0xE0 <= c < 0xF0 {
        visualCol := visualCol + 1;
        bytePos := bytePos + 1;
        i := i + 2;
      } else if 0xF0 <= c < 0xF8 {
        visualCol := visualCol + 1;
        bytePos := bytePos + 1;
        i := i + 3;
      } else {
        bytePos := bytePos + 1;
      }
      i := i + 1;
    }
  }
}
