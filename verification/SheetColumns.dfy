/** Spreadsheet columns: letters are bijective base 26, and new columns go right of the old. */
module SheetColumns {
  import opened Options
  import opened Text

  // ----- letters and numbers

  predicate IsLetters(s: string) { forall i :: 0 <= i < |s| ==> 'A' <= s[i] <= 'Z' }

  function LetterValue(c: char): nat
    requires 'A' <= c <= 'Z'
  {
    (c - 'A') as nat + 1
  }

  /** The column number, counted from one; no letters are zero. */
  function Value(s: string): nat
    requires IsLetters(s)
  {
    if s == "" then 0 else 26 * Value(s[..|s| - 1]) + LetterValue(s[|s| - 1])
  }

  function Letter(r: nat): char
    requires r < 26
  {
    'A' + r as char
  }

  function Letters(n: nat): (s: string)
    ensures IsLetters(s)
  {
    if n == 0 then "" else Letters((n - 1) / 26) + [Letter((n - 1) % 26)]
  }

  lemma {:induction false} LettersThenValue(n: nat)
    ensures Value(Letters(n)) == n
  {
    if n > 0 {
      LettersThenValue((n - 1) / 26);
      var s := Letters(n);
      assert s[..|s| - 1] == Letters((n - 1) / 26);
    }
  }

  lemma {:induction false} ValueThenLetters(s: string)
    requires IsLetters(s)
    ensures Letters(Value(s)) == s
  {
    if s != "" {
      var s', d := s[..|s| - 1], LetterValue(s[|s| - 1]);
      ValueThenLetters(s');
      OneMoreLetter(Value(s'), d - 1);
      assert s == s' + [s[|s| - 1]];
    }
  }

  lemma OneMoreLetter(n: nat, r: nat)
    requires r < 26
    ensures Letters(26 * n + r + 1) == Letters(n) + [Letter(r)]
  {
    assert (26 * n + r) / 26 == n && (26 * n + r) % 26 == r;
  }

  /** Shorter first, then as text: the order in which a sheet lists its columns. */
  predicate Shortlex(a: string, b: string) {
    |a| < |b| || (|a| == |b| && Less(a, b))
  }

  /** The number of the first column with `k` letters. */
  function First(k: nat): nat { if k == 0 then 0 else 26 * First(k - 1) + 1 }

  lemma {:induction false} ValueRange(s: string)
    requires IsLetters(s)
    ensures First(|s|) <= Value(s) < First(|s| + 1)
  {
    if s != "" {
      ValueRange(s[..|s| - 1]);
    }
  }

  lemma {:induction false} FirstGrows(j: nat, k: nat)
    requires j <= k
    ensures First(j) <= First(k)
  {
    if j < k {
      FirstGrows(j, k - 1);
    }
  }

  lemma {:induction false} ValueOrderSameLength(a: string, b: string)
    requires IsLetters(a) && IsLetters(b) && |a| == |b|
    ensures Value(a) < Value(b) <==> Less(a, b)
    ensures Value(a) == Value(b) ==> a == b
  {
    if a != "" {
      var n := |a| - 1;
      ValueOrderSameLength(a[..n], b[..n]);
      LessConcat(a[..n], b[..n], [a[n]], [b[n]]);
      assert a == a[..n] + [a[n]] && b == b[..n] + [b[n]];
    }
  }

  /** Numbers and letters order columns alike. */
  lemma OrderIsShortlex(m: nat, n: nat)
    ensures m < n <==> Shortlex(Letters(m), Letters(n))
  {
    hide Letters, Value;
    var a, b := Letters(m), Letters(n);
    LettersThenValue(m);
    LettersThenValue(n);
    ValueRange(a);
    ValueRange(b);
    if |a| < |b| {
      FirstGrows(|a| + 1, |b|);
    } else if |b| < |a| {
      FirstGrows(|b| + 1, |a|);
    } else {
      ValueOrderSameLength(a, b);
    }
  }

  // ----- the two conversions

  function UpperChar(c: char): char { if 'a' <= c <= 'z' then c - 'a' + 'A' else c }

  function Upper(s: string): string {
    if s == "" then "" else Upper(s[..|s| - 1]) + [UpperChar(s[|s| - 1])]
  }

  function Cleaned(s: string): string { Upper(Strip(s)) }

  /** The zero-based index, or nothing where the code raises. */
  method ColLetterToIndex(text: string) returns (index: Option<nat>)
    ensures var s := Cleaned(text);
            index == if s != "" && IsLetters(s) then Some(Value(s) - 1) else None
  {
    var s := Cleaned(text);
    if s == "" || !IsLetters(s) {
      return None;
    }
    var n := 0;
    for i := 0 to |s|
      invariant n == Value(s[..i]) && (i > 0 ==> n > 0)
    {
      assert s[..i + 1][..i] == s[..i] && s[..i + 1][i] == s[i];
      n := n * 26 + LetterValue(s[i]);
    }
    assert s[..|s|] == s;
    return Some(n - 1);
  }

  method IndexToColLetter(index: int) returns (text: string)
    ensures text == if index < 0 then "" else Letters(index + 1)
  {
    hide Letters, Letter;
    var n := index + 1;
    text := "";
    ghost var goal := if index < 0 then "" else Letters(index + 1);
    NoLetters();
    while n > 0
      invariant if n > 0 then goal == Letters(n) + text else goal == text
    {
      PeelLetter(n, text);
      var q, r := (n - 1) / 26, (n - 1) % 26;
      text := [Letter(r)] + text;
      n := q;
    }
  }

  lemma PeelLetter(n: nat, text: string)
    requires n > 0
    ensures 0 <= (n - 1) / 26 < n && 0 <= (n - 1) % 26 < 26
    ensures Letters(n) + text == Letters((n - 1) / 26) + ([Letter((n - 1) % 26)] + text)
  {
    hide Letter;
  }

  lemma NoLetters()
    ensures Letters(0) == ""
  {
  }

  lemma {:induction false} UpperOfLetters(s: string)
    requires IsLetters(s)
    ensures Upper(s) == s
  {
    if s != "" {
      var n := |s| - 1;
      UpperOfLetters(s[..n]);
      assert s == s[..n] + [s[n]];
    }
  }

  lemma LettersAreClean(s: string)
    requires IsLetters(s)
    ensures Cleaned(s) == s
  {
    hide IsSpace;
    LettersAreNoSpaces(s);
    AlreadyStripped(s);
    UpperOfLetters(s);
  }

  lemma LettersAreNoSpaces(s: string)
    requires IsLetters(s)
    ensures forall i :: 0 <= i < |s| ==> !IsSpace(s[i])
  {
  }

  predicate SmallOrCapital(c: char) { 'A' <= c <= 'Z' || 'a' <= c <= 'z' }

  function Capital(c: char): char { if 'a' <= c <= 'z' then c - 'a' + 'A' else c }

  /** Surrounding blanks and small letters do not matter: such a text names the column of its capitals. */
  lemma BlanksAndCaseIgnored(before: string, s: string, after: string)
    requires (forall i :: 0 <= i < |before| ==> before[i] in " \t\n\r") && forall i :: 0 <= i < |after| ==> after[i] in " \t\n\r"
    requires s != "" && forall i :: 0 <= i < |s| ==> SmallOrCapital(s[i])
    ensures var clean := Cleaned(before + s + after);
            && |clean| == |s| && IsLetters(clean)
            && forall i :: 0 <= i < |s| ==> clean[i] == Capital(s[i])
  {
    hide Cleaned, Strip, StripLeft, StripRight;
    assert !IsSpace(s[0]) && !IsSpace(s[|s| - 1]);
    StripsBlanks(before, s, after);
    UpperIsPointwise(s);
    CleanedIsUpper(before + s + after, s);
  }

  lemma CleanedIsUpper(text: string, s: string)
    requires Strip(text) == s
    ensures Cleaned(text) == Upper(s)
  {
  }

  lemma {:induction false} UpperIsPointwise(s: string)
    ensures |Upper(s)| == |s| && forall i :: 0 <= i < |s| ==> Upper(s)[i] == Capital(s[i])
  {
    if s != "" {
      UpperIsPointwise(s[..|s| - 1]);
    }
  }

  /** Index to letters and back is the identity. */
  method IndexRoundTrip(index: nat) returns (back: Option<nat>)
    ensures back == Some(index)
  {
    var text := IndexToColLetter(index);
    LettersThenValue(index + 1);
    LettersAreClean(text);
    assert text != "";
    back := ColLetterToIndex(text);
  }

  /** Letters to index and back is the letters, trimmed and in capitals. */
  method LetterRoundTrip(text: string) returns (back: string)
    requires Cleaned(text) != "" && IsLetters(Cleaned(text))
    ensures back == Cleaned(text)
  {
    var index := ColLetterToIndex(text);
    ValueThenLetters(Cleaned(text));
    assert Cleaned(text) != "" ==> Value(Cleaned(text)) > 0;
    back := IndexToColLetter(index.value);
  }

  // ----- appending columns

  /** `C1:F94`, with the column parts still as letters. */
  datatype Range = Range(startCol: string, startRow: int, endCol: string, endRow: int)

  class Worksheet {
    /** The cells by row and zero-based column. */
    var cells: map<(int, int), string>

    constructor ()
      ensures cells == map[]
    {
      cells := map[];
    }

    /** Writes a matrix with its first cell at the start of the range. */
    method Update(at: Range, matrix: seq<seq<string>>)
      requires IsLetters(at.startCol) && at.startCol != ""
      modifies this
      ensures cells == Placed(old(cells), at.startRow, Value(at.startCol) - 1, matrix)
    {
      hide Placed, Cleaned, Value;
      LettersAreClean(at.startCol);
      var col := ColLetterToIndex(at.startCol);
      cells := Placed(cells, at.startRow, col.value, matrix);
    }

    method AppendColumns(existing: seq<string>, headerRow: int, headers: seq<string>, data: seq<seq<string>>)
        returns (a1: Range)
      modifies this
      ensures cells == Placed(old(cells), headerRow, |existing|, [headers] + data)
      ensures IsLetters(a1.startCol) && Value(a1.startCol) == |existing| + 1
      ensures IsLetters(a1.endCol) && Value(a1.endCol) == |existing| + |headers|
      ensures a1.startRow == headerRow && a1.endRow - a1.startRow + 1 == |[headers] + data|
    {
      var start, end := |existing|, |existing| + |headers| - 1;
      var lastRow := headerRow + |data|;
      var startCol := IndexToColLetter(start);
      var endCol := IndexToColLetter(end);
      LettersThenValue(start + 1);
      LettersThenValue(end + 1);
      a1 := Range(startCol, headerRow, endCol, lastRow);
      Update(a1, [headers] + data);
    }
  }

  predicate Covers(row: int, col: int, matrix: seq<seq<string>>, r: int, c: int) {
    row <= r < row + |matrix| && col <= c < col + |matrix[r - row]|
  }

  function RowCells(row: int, col: int, line: seq<string>): map<(int, int), string> {
    if line == [] then map[]
    else RowCells(row, col, line[..|line| - 1])[(row, col + |line| - 1) := line[|line| - 1]]
  }

  function Placed(cells: map<(int, int), string>, row: int, col: int, matrix: seq<seq<string>>)
    : map<(int, int), string>
  {
    if matrix == [] then cells
    else
      var n := |matrix| - 1;
      Placed(cells, row, col, matrix[..n]) + RowCells(row + n, col, matrix[n])
  }

  lemma {:induction false} RowCellsAre(row: int, col: int, line: seq<string>, r: int, c: int)
    ensures (r, c) in RowCells(row, col, line) <==> r == row && col <= c < col + |line|
    ensures (r, c) in RowCells(row, col, line) ==> RowCells(row, col, line)[(r, c)] == line[c - col]
  {
    if line != [] {
      RowCellsAre(row, col, line[..|line| - 1], r, c);
    }
  }

  /** Placing a matrix writes exactly the cells it covers, each with its own value. */
  lemma {:induction false} PlacedCells(cells: map<(int, int), string>, row: int, col: int, matrix: seq<seq<string>>,
                                       r: int, c: int)
    ensures var after := Placed(cells, row, col, matrix);
            if Covers(row, col, matrix, r, c) then (r, c) in after && after[(r, c)] == matrix[r - row][c - col]
            else ((r, c) in after <==> (r, c) in cells) && ((r, c) in cells ==> after[(r, c)] == cells[(r, c)])
  {
    if matrix != [] {
      var n := |matrix| - 1;
      PlacedCells(cells, row, col, matrix[..n], r, c);
      RowCellsAre(row + n, col, matrix[n], r, c);
      if row <= r < row + n {
        assert matrix[..n][r - row] == matrix[r - row];
      }
    }
  }

  /** Appending columns overwrites exactly the cells of the new headers and data, whatever was there,
      and no cell of a column that has a header; and the range it reports runs forward exactly when there
      are headers to write. */
  lemma AppendedRight(cells: map<(int, int), string>, existing: nat, headerRow: int, headers: seq<string>,
                      data: seq<seq<string>>, r: int, c: int)
    ensures var after, matrix := Placed(cells, headerRow, existing, [headers] + data), [headers] + data;
            && (Covers(headerRow, existing, matrix, r, c) ==> (r, c) in after && after[(r, c)] == matrix[r - headerRow][c - existing])
            && (!Covers(headerRow, existing, matrix, r, c) ==>
                  ((r, c) in after <==> (r, c) in cells) && ((r, c) in cells ==> after[(r, c)] == cells[(r, c)]))
            && (c < existing ==> !Covers(headerRow, existing, matrix, r, c))
    ensures Shortlex(Letters(existing + |headers|), Letters(existing + 1)) <==> headers == []
  {
    hide Placed, Letters, Shortlex;
    PlacedCells(cells, headerRow, existing, [headers] + data, r, c);
    OrderIsShortlex(existing + |headers|, existing + 1);
  }
}
