// uppercase.js: the "Capitalize Selected Cells" tool, which title-cases
// every text cell of the selected range.
module TitleCase {
  import opened Strings
  import opened Cells

  /** Position i matches /\b\w/: a word character not preceded by one. */
  predicate StartsWord(s: string, i: nat)
    requires i < |s|
  {
    IsWordChar(s[i]) && (i == 0 || !IsWordChar(s[i - 1]))
  }

  /** s.replace(/\b\w/g, c => c.toUpperCase()). */
  function CapitalizeWords(s: string): (r: string)
    ensures |r| == |s|
  {
    seq(|s|, i requires 0 <= i < |s| => if StartsWord(s, i) then Upper(s[i]) else s[i])
  }

  /** toTitleCase(str). */
  function ToTitleCase(s: string): (r: string)
    ensures |r| == |s|
  {
    CapitalizeWords(ToLower(s))
  }

  lemma LowerKeepsWordChar(c: char)
    ensures IsWordChar(Lower(c)) <==> IsWordChar(c)
  {
  }

  lemma UpperKeepsWordChar(c: char)
    ensures IsWordChar(Upper(c)) <==> IsWordChar(c)
  {
  }

  /** Word starts are a property of the characters' word-ness only. */
  lemma StartsWordOfLower(s: string, i: nat)
    requires i < |s|
    ensures StartsWord(ToLower(s), i) <==> StartsWord(s, i)
  {
    LowerKeepsWordChar(s[i]);
    if i > 0 {
      LowerKeepsWordChar(s[i - 1]);
    }
  }

  /** Every character is lower-cased, except the first character of each
      word of the input, which is upper-cased. */
  lemma TitleCaseChars(s: string, i: nat)
    requires i < |s|
    ensures ToTitleCase(s)[i] == if StartsWord(s, i) then Upper(Lower(s[i])) else Lower(s[i])
  {
    StartsWordOfLower(s, i);
  }

  /** Title-casing ignores the letter case of its input. */
  lemma TitleCaseIgnoresCase(s: string)
    ensures ToLower(ToTitleCase(s)) == ToLower(s)
  {
    CapitalizeWordsLower(ToLower(s));
    ToLowerIdempotent(s);
  }

  /** Applying toTitleCase twice is applying it once. */
  lemma TitleCaseIdempotent(s: string)
    ensures ToTitleCase(ToTitleCase(s)) == ToTitleCase(s)
  {
    TitleCaseIgnoresCase(s);
  }

  /** Capitalising the word starts again changes nothing more. */
  lemma {:induction false} CapitalizeWordsIdempotent(s: string)
    ensures CapitalizeWords(CapitalizeWords(s)) == CapitalizeWords(s)
  {
    var t := CapitalizeWords(s);
    forall i | 0 <= i < |s|
      ensures CapitalizeWords(t)[i] == t[i]
    {
      UpperKeepsWordChar(s[i]);
      if i > 0 {
        UpperKeepsWordChar(s[i - 1]);
      }
      assert StartsWord(t, i) <==> StartsWord(s, i);
    }
  }

  /** Capitalising word starts leaves the lower-cased text unchanged. */
  lemma {:induction false} CapitalizeWordsLower(s: string)
    ensures ToLower(CapitalizeWords(s)) == ToLower(s)
  {
    var t := CapitalizeWords(s);
    forall i | 0 <= i < |s|
      ensures ToLower(t)[i] == ToLower(s)[i]
    {
      assert Lower(Upper(s[i])) == Lower(s[i]);
    }
  }

  // --------------------------------------------------- capitalizeSelection

  /** The cell map: text is title-cased, any other value is kept. */
  function CapitalizeCell(c: Cell): (r: Cell)
    ensures c.Text? ==> r == Text(ToTitleCase(c.s))
    ensures !c.Text? ==> r == c
  {
    match c
    case Text(s) => Text(ToTitleCase(s))
    case _ => c
  }

  function CapitalizeRow(row: Row): (r: Row)
    ensures |r| == |row|
    ensures forall j :: 0 <= j < |row| ==> r[j] == CapitalizeCell(row[j])
  {
    seq(|row|, j requires 0 <= j < |row| => CapitalizeCell(row[j]))
  }

  /** values.map(row => row.map(...)). */
  function CapitalizeGrid(grid: seq<Row>): (r: seq<Row>)
    ensures |r| == |grid|
    ensures forall i :: 0 <= i < |grid| ==> r[i] == CapitalizeRow(grid[i])
  {
    seq(|grid|, i requires 0 <= i < |grid| => CapitalizeRow(grid[i]))
  }

  /** The grid keeps its shape, every text cell keeps its length and every
      other cell is unchanged. */
  lemma CapitalizeGridShape(grid: seq<Row>, i: nat, j: nat)
    requires i < |grid| && j < |grid[i]|
    ensures |CapitalizeGrid(grid)| == |grid| && |CapitalizeGrid(grid)[i]| == |grid[i]|
    ensures grid[i][j].Text? ==> CapitalizeGrid(grid)[i][j].Text? && |CapitalizeGrid(grid)[i][j].s| == |grid[i][j].s|
    ensures !grid[i][j].Text? ==> CapitalizeGrid(grid)[i][j] == grid[i][j]
  {
  }

  /** Running the tool twice on the same range gives what one run gives. */
  lemma {:induction false} CapitalizeGridIdempotent(grid: seq<Row>)
    ensures CapitalizeGrid(CapitalizeGrid(grid)) == CapitalizeGrid(grid)
  {
    var g := CapitalizeGrid(grid);
    forall i | 0 <= i < |grid|
      ensures CapitalizeGrid(g)[i] == g[i]
    {
      forall j | 0 <= j < |grid[i]|
        ensures CapitalizeCell(g[i][j]) == g[i][j]
      {
        if grid[i][j].Text? {
          TitleCaseIdempotent(grid[i][j].s);
        }
      }
    }
  }
}
