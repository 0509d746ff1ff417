/**
 * Rooms as text. `grid_to_string` (tools/tools_map.py) writes a room one
 * row per line, each code followed by a space; `load_grid_map`
 * (tools/tools_world_explorer.py) reads such a file back into rows of
 * codes. The Python string built-ins the loader relies on (`readlines`,
 * `replace`, `split`) are written out as functions on `seq<char>`.
 */
module MapText {
  import opened Constants
  import opened MapGen

  /** `file.readlines()`: the text cut after every line break, which each line keeps. */
  function ReadLines(text: string): (lines: seq<string>)
    ensures |lines| == 0 <==> text == []
  {
    if text == [] then []
    else if text[0] == '\n' then ["\n"] + ReadLines(text[1..])
    else
      var rest := ReadLines(text[1..]);
      if rest == [] then [[text[0]]] else [[text[0]] + rest[0]] + rest[1..]
  }

  /** The lines joined back together. */
  function Concat(lines: seq<string>): string
  {
    if lines == [] then [] else lines[0] + Concat(lines[1..])
  }

  /** Cutting a text into lines loses nothing. */
  lemma {:induction false} ReadLinesConcat(text: string)
    ensures Concat(ReadLines(text)) == text
    decreases |text|
  {
    if text != [] {
      ReadLinesConcat(text[1..]);
      var rest := ReadLines(text[1..]);
      if text[0] != '\n' && rest != [] {
        var lines := ReadLines(text);
        assert lines[1..] == rest[1..];
        assert Concat(rest) == rest[0] + Concat(rest[1..]);
      }
    }
  }

  /** Every line is non-empty and holds a line break only at its end; every line but the last has one. */
  predicate BrokenLines(lines: seq<string>)
  {
    && (forall k | 0 <= k < |lines| :: |lines[k]| > 0 && '\n' !in lines[k][..|lines[k]| - 1])
    && (forall k | 0 <= k < |lines| - 1 :: lines[k][|lines[k]| - 1] == '\n')
  }

  lemma {:induction false} ReadLinesBreaks(text: string)
    ensures BrokenLines(ReadLines(text))
    decreases |text|
  {
    if text != [] {
      ReadLinesBreaks(text[1..]);
      var rest := ReadLines(text[1..]);
      assert BrokenLines(rest);
      var lines := ReadLines(text);
      if text[0] == '\n' {
        assert lines == ["\n"] + rest;
        forall k | 0 <= k < |lines|
          ensures |lines[k]| > 0 && '\n' !in lines[k][..|lines[k]| - 1]
          ensures k < |lines| - 1 ==> lines[k][|lines[k]| - 1] == '\n'
        {
          if k > 0 {
            assert lines[k] == rest[k - 1];
          }
        }
      } else if rest != [] {
        var first := [text[0]] + rest[0];
        assert lines == [first] + rest[1..];
        assert first[..|first| - 1] == [text[0]] + rest[0][..|rest[0]| - 1];
        forall k | 0 <= k < |lines|
          ensures |lines[k]| > 0 && '\n' !in lines[k][..|lines[k]| - 1]
          ensures k < |lines| - 1 ==> lines[k][|lines[k]| - 1] == '\n'
        {
          if k > 0 {
            assert lines[k] == rest[k];
          }
        }
      }
    }
  }

  /** A text ending in a line break reads as its own lines followed by those of what comes after. */
  lemma {:induction false} ReadLinesAppend(a: string, b: string)
    requires a == [] || a[|a| - 1] == '\n'
    ensures ReadLines(a + b) == ReadLines(a) + ReadLines(b)
    decreases |a|
  {
    if a != [] {
      var a' := a[1..];
      assert (a + b)[0] == a[0] && (a + b)[1..] == a' + b;
      assert a' == [] || a'[|a'| - 1] == '\n';
      ReadLinesAppend(a', b);
      var r := ReadLines(a');
      if a[0] == '\n' {
        assert ReadLines(a + b) == ["\n"] + ReadLines(a' + b);
        assert ReadLines(a) == ["\n"] + r;
        SeqAssoc(["\n"], r, ReadLines(b));
      } else {
        assert r != [];
        var rb := r + ReadLines(b);
        assert ReadLines(a + b) == [[a[0]] + rb[0]] + rb[1..];
        assert ReadLines(a) == [[a[0]] + r[0]] + r[1..];
        assert rb[0] == r[0] && rb[1..] == r[1..] + ReadLines(b);
        SeqAssoc([[a[0]] + r[0]], r[1..], ReadLines(b));
      }
    } else {
      assert a + b == b;
    }
  }

  /** A line without a break, followed by one, is read as a single line. */
  lemma {:induction false} ReadOneLine(line: string)
    requires '\n' !in line
    ensures ReadLines(line + "\n") == [line + "\n"]
    decreases |line|
  {
    var text := line + "\n";
    if line == [] {
      assert text == "\n";
      assert ReadLines(text) == ["\n"] + ReadLines(text[1..]);
    } else {
      assert text[0] == line[0] != '\n';
      assert text[1..] == line[1..] + "\n";
      ReadOneLine(line[1..]);
      assert ReadLines(text) == [[line[0]] + (line[1..] + "\n")];
      assert [line[0]] + (line[1..] + "\n") == text;
    }
  }

  /** `s.replace(c, "")`: every `c` removed. */
  function RemoveChar(s: string, c: char): (r: string)
    ensures c !in r && |r| <= |s|
  {
    if s == [] then [] else (if s[0] == c then [] else [s[0]]) + RemoveChar(s[1..], c)
  }

  lemma {:induction false} RemoveAbsentChar(s: string, c: char)
    requires c !in s
    ensures RemoveChar(s, c) == s
    decreases |s|
  {
    if s != [] {
      RemoveAbsentChar(s[1..], c);
    }
  }

  /**
   * `s.replace("  ", " ")`: each pair of spaces, found left to right without
   * overlap, becomes one space. Characters other than spaces are kept.
   */
  function ReplaceDoubleSpaces(s: string): (r: string)
    ensures RemoveChar(r, ' ') == RemoveChar(s, ' ')
    ensures |r| <= |s|
  {
    if |s| >= 2 && s[0] == ' ' && s[1] == ' ' then
      assert RemoveChar(s, ' ') == RemoveChar(s[1..], ' ') == RemoveChar(s[2..], ' ');
      " " + ReplaceDoubleSpaces(s[2..])
    else if s == [] then []
    else [s[0]] + ReplaceDoubleSpaces(s[1..])
  }

  /** No two spaces are next to each other. */
  predicate NoDoubleSpace(s: string)
  {
    forall i | 0 <= i < |s| - 1 :: !(s[i] == ' ' && s[i + 1] == ' ')
  }

  lemma {:induction false} ReplaceDoubleSpacesKeeps(s: string)
    requires NoDoubleSpace(s)
    ensures ReplaceDoubleSpaces(s) == s
    decreases |s|
  {
    if s != [] {
      ReplaceDoubleSpacesKeeps(s[1..]);
    }
  }

  /** `s.split(sep)`: the pieces between separators, empty ones included. */
  function Split(s: string, sep: char): (pieces: seq<string>)
    ensures |pieces| >= 1
    ensures forall k | 0 <= k < |pieces| :: sep !in pieces[k]
  {
    if s == [] then [""]
    else if s[0] == sep then [""] + Split(s[1..], sep)
    else
      var rest := Split(s[1..], sep);
      [[s[0]] + rest[0]] + rest[1..]
  }

  /** `sep.join(words)` for a non-empty list of words. */
  function Join(words: seq<string>, sep: char): string
    requires |words| >= 1
  {
    if |words| == 1 then words[0] else Join(words[..|words| - 1], sep) + [sep] + words[|words| - 1]
  }

  /** Joining the pieces of a split gives the text back. */
  lemma {:induction false} JoinSplit(s: string, sep: char)
    ensures Join(Split(s, sep), sep) == s
    decreases |s|
  {
    if s != [] {
      var rest := Split(s[1..], sep);
      JoinSplit(s[1..], sep);
      JoinFirst(rest, sep, [s[0]]);
      if s[0] == sep {
        assert Split(s, sep) == [[]] + rest;
        assert Join([[]] + rest, sep) == [sep] + s[1..];
      } else {
        assert Split(s, sep) == rest[0 := [s[0]] + rest[0]];
        assert Join(rest[0 := [s[0]] + rest[0]], sep) == [s[0]] + s[1..];
      }
      assert [s[0]] + s[1..] == s;
    }
  }

  /** Joining words with a prefix on the first word puts the prefix in front, or a separator-led prefix before them all. */
  lemma {:induction false} JoinFirst(words: seq<string>, sep: char, prefix: string)
    requires |words| >= 1
    ensures Join(words[0 := prefix + words[0]], sep) == prefix + Join(words, sep)
    ensures Join([[]] + words, sep) == [sep] + Join(words, sep)
    decreases |words|
  {
    if |words| > 1 {
      var init := words[..|words| - 1];
      JoinFirst(init, sep, prefix);
      assert words[0 := prefix + words[0]][..|words| - 1] == init[0 := prefix + init[0]];
      assert ([[]] + words)[..|words|] == [[]] + init;
    }
  }

  lemma {:induction false} SplitWithout(s: string, sep: char)
    requires sep !in s
    ensures Split(s, sep) == [s]
    decreases |s|
  {
    if s != [] {
      SplitWithout(s[1..], sep);
      assert [s[0]] + s[1..] == s;
    }
  }

  lemma {:induction false} SplitAppend(a: string, b: string, sep: char)
    ensures Split(a + [sep] + b, sep) == Split(a, sep) + Split(b, sep)
    decreases |a|
  {
    if a == [] {
      assert a + [sep] + b == [sep] + b;
    } else {
      assert (a + [sep] + b)[1..] == a[1..] + [sep] + b;
      SplitAppend(a[1..], b, sep);
    }
  }

  /** Splitting undoes joining when no word holds the separator. */
  lemma {:induction false} SplitJoin(words: seq<string>, sep: char)
    requires |words| >= 1 && forall k | 0 <= k < |words| :: sep !in words[k]
    ensures Split(Join(words, sep), sep) == words
    decreases |words|
  {
    if |words| == 1 {
      SplitWithout(words[0], sep);
    } else {
      var init := words[..|words| - 1];
      SplitJoin(init, sep);
      SplitAppend(Join(init, sep), words[|words| - 1], sep);
      SplitWithout(words[|words| - 1], sep);
    }
  }

  /**
   * The tiles of one line that has a character other than a space once its
   * line breaks are removed: double spaces made single, one trailing and
   * one leading space dropped, then split on spaces.
   */
  function LineTiles(line: string): (tiles: seq<string>)
    requires RemoveChar(line, ' ') != []
    ensures |tiles| >= 1 && forall k | 0 <= k < |tiles| :: ' ' !in tiles[k]
    ensures RemoveChar(Join(tiles, ' '), ' ') == RemoveChar(line, ' ')
  {
    var doubled := ReplaceDoubleSpaces(line);
    var trimmed := if doubled[|doubled| - 1] == ' ' then doubled[..|doubled| - 1] else doubled;
    assert RemoveChar(trimmed, ' ') == RemoveChar(line, ' ') by {
      if doubled[|doubled| - 1] == ' ' {
        assert doubled == trimmed + " ";
        RemoveCharAppend(trimmed, " ", ' ');
      }
    }
    var stripped := if trimmed[0] == ' ' then trimmed[1..] else trimmed;
    assert RemoveChar(stripped, ' ') == RemoveChar(line, ' ') by {
      if trimmed[0] == ' ' {
        assert trimmed == " " + stripped;
        RemoveCharAppend(" ", stripped, ' ');
      }
    }
    JoinSplit(stripped, ' ');
    Split(stripped, ' ')
  }

  /** What `load_grid_map` makes of one line read: a row of tiles unless the line is blank once its breaks are removed. */
  function ParseLine(line: string): (rows: seq<seq<string>>)
    ensures |rows| <= 1
    ensures rows == [] <==> RemoveChar(RemoveChar(line, '\n'), ' ') == []
  {
    var cleaned := RemoveChar(line, '\n');
    if RemoveChar(cleaned, ' ') != [] then [LineTiles(cleaned)] else []
  }

  /** What `load_grid_map` makes of the lines read: one row of tiles per line that is not blank. */
  function ParseLines(lines: seq<string>): seq<seq<string>>
  {
    if lines == [] then [] else ParseLines(lines[..|lines| - 1]) + ParseLine(lines[|lines| - 1])
  }

  /** The loader makes at most one row per line read, and every row is a non-empty list of words without spaces. */
  lemma {:induction false} ParseLinesRows(lines: seq<string>)
    ensures var rows := ParseLines(lines);
      && |rows| <= |lines|
      && forall i | 0 <= i < |rows| :: |rows[i]| >= 1 && forall k | 0 <= k < |rows[i]| :: ' ' !in rows[i][k]
  {
    if lines != [] {
      var init := lines[..|lines| - 1];
      ParseLinesRows(init);
      var rows, last := ParseLines(init), ParseLine(lines[|lines| - 1]);
      forall i | 0 <= i < |rows + last|
        ensures |(rows + last)[i]| >= 1 && forall k | 0 <= k < |(rows + last)[i]| :: ' ' !in (rows + last)[i][k]
      {
        if i >= |rows| {
          assert (rows + last)[i] in last;
        }
      }
    }
  }

  /** `load_grid_map`, with the file's contents given as text. */
  method LoadGridMap(text: string) returns (gridMap: seq<seq<string>>)
    ensures gridMap == ParseLines(ReadLines(text))
  {
    var lines := ReadLines(text);
    gridMap := [];
    for k := 0 to |lines|
      invariant gridMap == ParseLines(lines[..k])
    {
      assert ParseLines(lines[..k + 1]) == ParseLines(lines[..k]) + ParseLine(lines[k]) by {
        assert lines[..k + 1][..k] == lines[..k];
      }
      // Clean new lines
      var line := RemoveChar(lines[k], '\n');
      // If line is not empty
      if RemoveChar(line, ' ') != [] {
        var tiles := LineTiles(line);
        gridMap := gridMap + [tiles];
      }
    }
    assert lines[..|lines|] == lines;
  }

  /** A tile's code is a non-empty word: no space and no line break in it. */
  lemma CodeIsWord(t: Tile)
    ensures |Code(t)| > 0 && ' ' !in Code(t) && '\n' !in Code(t)
  {
  }

  /** The codes of a row of tiles. */
  function Codes(row: seq<Tile>): (r: seq<string>)
    ensures |r| == |row| && forall j | 0 <= j < |row| :: r[j] == Code(row[j])
  {
    seq(|row|, j requires 0 <= j < |row| => Code(row[j]))
  }

  /** A non-empty row's text is its codes joined by spaces, plus a trailing space. */
  lemma {:induction false} RowTextJoins(row: seq<Tile>)
    requires |row| >= 1
    ensures RowText(row) == Join(Codes(row), ' ') + " "
    decreases |row|
  {
    var init := row[..|row| - 1];
    if |row| == 1 {
      assert init == [];
    } else {
      RowTextJoins(init);
      assert Codes(row)[..|row| - 1] == Codes(init);
    }
  }

  /** The characters of a row's text other than spaces are those of its codes. */
  lemma {:induction false} RowTextShape(row: seq<Tile>)
    ensures '\n' !in RowText(row) && NoDoubleSpace(RowText(row))
    ensures |row| >= 1 ==> |RowText(row)| >= 2 && RowText(row)[0] != ' ' && RowText(row)[|RowText(row)| - 2] != ' '
    decreases |row|
  {
    if row != [] {
      var init := row[..|row| - 1];
      RowTextShape(init);
      CodeIsWord(row[|row| - 1]);
      var tail := Code(row[|row| - 1]) + " ";
      assert RowText(row) == RowText(init) + tail;
      forall i | 0 <= i < |RowText(row)| - 1
        ensures !(RowText(row)[i] == ' ' && RowText(row)[i + 1] == ' ')
      {
        if i >= |RowText(init)| {
          assert RowText(row)[i] == tail[i - |RowText(init)|];
        } else if i + 1 == |RowText(init)| {
          assert RowText(row)[i + 1] == Code(row[|row| - 1])[0];
        } else {
          assert RowText(row)[i] == RowText(init)[i] && RowText(row)[i + 1] == RowText(init)[i + 1];
        }
      }
      if init != [] {
        assert RowText(row)[0] == RowText(init)[0];
      }
    }
  }

  /** One line of a saved room reads back as the row's codes. */
  lemma RowRoundTrip(row: seq<Tile>)
    requires |row| >= 1
    ensures var line := RemoveChar(RowText(row) + "\n", '\n');
      && line == RowText(row)
      && RemoveChar(line, ' ') != []
      && LineTiles(line) == Codes(row)
  {
    var text := RowText(row);
    assert RemoveChar(text + "\n", '\n') == text by {
      RowTextShape(row);
      RemoveAbsentChar(text, '\n');
      RemoveCharAppend(text, "\n", '\n');
    }
    assert RemoveChar(text, ' ') != [] by {
      RowTextShape(row);
      NonSpaceSurvives(text, 0);
    }
    assert LineTiles(text) == Codes(row) by {
      RowTextShape(row);
      RowTextJoins(row);
      forall k | 0 <= k < |row| ensures ' ' !in Codes(row)[k] {
        CodeIsWord(row[k]);
      }
      LineTilesOfWords(text, Codes(row));
    }
  }

  /** A line of space-free words, each followed by one space, splits back into its words. */
  lemma LineTilesOfWords(text: string, words: seq<string>)
    requires |words| >= 1 && forall k | 0 <= k < |words| :: ' ' !in words[k]
    requires text == Join(words, ' ') + " " && NoDoubleSpace(text) && text[0] != ' '
    requires RemoveChar(text, ' ') != []
    ensures LineTiles(text) == words
  {
    ReplaceDoubleSpacesKeeps(text);
    assert text[..|text| - 1] == Join(words, ' ');
    SplitJoin(words, ' ');
  }

  lemma {:induction false} RemoveCharAppend(a: string, b: string, c: char)
    ensures RemoveChar(a + b, c) == RemoveChar(a, c) + RemoveChar(b, c)
    decreases |a|
  {
    if a == [] {
      assert a + b == b;
    } else {
      assert (a + b)[0] == a[0] && (a + b)[1..] == a[1..] + b;
      RemoveCharAppend(a[1..], b, c);
      SeqAssoc(if a[0] == c then [] else [a[0]], RemoveChar(a[1..], c), RemoveChar(b, c));
    }
  }

  /** A character other than `c` keeps the removal non-empty. */
  lemma {:induction false} NonSpaceSurvives(s: string, i: nat)
    requires i < |s| && s[i] != ' '
    ensures RemoveChar(s, ' ') != []
    decreases i
  {
    if i > 0 && s[0] == ' ' {
      NonSpaceSurvives(s[1..], i - 1);
    }
  }

  /** The codes of each row, cut to `cols` cells. */
  function RowCodes(rows: seq<seq<Tile>>, cols: nat): (r: seq<seq<string>>)
    requires forall i | 0 <= i < |rows| :: |rows[i]| >= cols
    ensures |r| == |rows| && forall i | 0 <= i < |rows| :: r[i] == Codes(rows[i][..cols])
  {
    if rows == [] then [] else RowCodes(rows[..|rows| - 1], cols) + [Codes(rows[|rows| - 1][..cols])]
  }

  lemma {:induction false} RowsRoundTrip(rows: seq<seq<Tile>>, cols: nat)
    requires cols >= 1 && forall i | 0 <= i < |rows| :: |rows[i]| >= cols
    ensures ParseLines(ReadLines(RowsText(rows, cols))) == RowCodes(rows, cols)
    decreases |rows|
  {
    if rows != [] {
      var init := rows[..|rows| - 1];
      var last := rows[|rows| - 1][..cols];
      RowsRoundTrip(init, cols);
      var before := RowsText(init, cols);
      var line := RowText(last) + "\n";
      var lines := ReadLines(before) + [line];
      assert ReadLines(RowsText(rows, cols)) == lines by {
        SeqAssoc(before, RowText(last), "\n");
        assert RowsText(rows, cols) == before + line;
        RowTextShape(last);
        ReadLinesEndsInBreak(init, cols);
        ReadLinesAppend(before, line);
        ReadOneLine(RowText(last));
      }
      assert ParseLine(line) == [Codes(last)] by {
        RowRoundTrip(last);
      }
      assert lines[..|lines| - 1] == ReadLines(before);
    }
  }

  /** A room's text is empty or ends in a line break. */
  lemma ReadLinesEndsInBreak(rows: seq<seq<Tile>>, cols: nat)
    requires forall i | 0 <= i < |rows| :: |rows[i]| >= cols
    ensures var t := RowsText(rows, cols); t == [] || t[|t| - 1] == '\n'
  {
  }

  /**
   * Reading back what `grid_to_string` wrote gives the room's codes, row
   * by row, as long as its first row is not empty.
   */
  lemma GridTextRoundTrip(grid: Grid)
    requires Indexable(grid) && |grid[0]| >= 1
    ensures var rows := ParseLines(ReadLines(GridText(grid)));
      && |rows| == |grid|
      && forall i | 0 <= i < |grid| :: rows[i] == Codes(grid[i][..|grid[0]|])
  {
    RowsRoundTrip(grid, |grid[0]|);
  }
}
