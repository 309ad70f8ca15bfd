/**
 * The locale-file loader of SmartyML.php: a file is a sequence of lines
 * (each with its "\n", except possibly the last), and the translation
 * table is built from the lines that look like `key=value`.
 */
module Loader {

  /**
   * `isLanguageLine`: a row is used when it is longer than two characters,
   * does not start with "//" and holds a '='.  The length counts the line
   * terminator, so "a=" is too short as a last line without terminator
   * while "a=\n" is accepted.
   */
  predicate IsLanguageLine(row: string)
  {
    |row| > 2 && row[..2] != "//" && '=' in row
  }

  /** The index of the first `c` in `s`. */
  function FirstIndex(s: string, c: char): (i: nat)
    requires c in s
    ensures i < |s| && s[i] == c && c !in s[..i]
  {
    if s[0] == c then 0
    else
      assert s == [s[0]] + s[1..];
      var i := 1 + FirstIndex(s[1..], c);
      assert s[..i] == [s[0]] + s[1..][..i - 1];
      i
  }

  /**
   * `explode('=', $row, 2)`: the text before the first '=' and everything
   * after it, further '=' characters included.
   */
  function SplitAtFirst(row: string): (r: (string, string))
    requires '=' in row
    ensures r.0 + "=" + r.1 == row && '=' !in r.0
  {
    var i := FirstIndex(row, '=');
    assert row == row[..i] + "=" + row[i + 1..];
    (row[..i], row[i + 1..])
  }

  /** The split is the only way to write `row` as a '='-free key, '=', and a rest. */
  lemma SplitAtFirstUnique(key: string, rest: string, row: string)
    requires key + "=" + rest == row && '=' !in key
    ensures '=' in row && SplitAtFirst(row) == (key, rest)
  {
    assert row[|key|] == '=';
    var (k, v) := SplitAtFirst(row);
    assert row[..|key|] == key;
    assert |k| == |key|;
    assert row[|k| + 1..] == rest;
  }

  /** Drops one trailing "\n" from `v`, if there is one. */
  function StripLineBreak(v: string): string
  {
    if |v| > 0 && v[|v| - 1] == '\n' then v[..|v| - 1] else v
  }

  /** One entry of a translation table. */
  datatype Entry = Entry(key: string, value: string)

  /**
   * The entry of an accepted row: the key is the text before the first
   * '=', and the value the rest of the row without its line terminator.
   */
  function ParseRow(row: string): (e: Entry)
    requires IsLanguageLine(row)
    ensures '=' !in e.key
    ensures row[|row| - 1] == '\n' ==> e.key + "=" + e.value + "\n" == row
    ensures row[|row| - 1] != '\n' ==> e.key + "=" + e.value == row
  {
    var (key, rest) := SplitAtFirst(row);
    if |rest| > 0 && rest[|rest| - 1] == '\n' then
      assert rest == rest[..|rest| - 1] + "\n";
      Entry(key, StripLineBreak(rest))
    else
      assert |rest| == 0 ==> row[|row| - 1] == '=';
      Entry(key, StripLineBreak(rest))
  }

  /**
   * Writing an entry as a line, "key=value\n", and parsing that line gives
   * the entry back, when the key is one a row can carry.
   */
  lemma ParseRowOfEntry(key: string, value: string)
    requires |key| > 0 && '=' !in key && (key + "=")[..2] != "//"
    ensures IsLanguageLine(key + "=" + value + "\n")
    ensures ParseRow(key + "=" + value + "\n") == Entry(key, value)
  {
    var row := key + "=" + value + "\n";
    assert row[|key|] == '=';
    assert row[..2] == (key + "=")[..2];
    var e := ParseRow(row);
    assert key + "=" + (value + "\n") == row;
    assert e.key + "=" + (e.value + "\n") == row;
    SplitAtFirstUnique(key, value + "\n", row);
    SplitAtFirstUnique(e.key, e.value + "\n", row);
    assert e.value == (e.value + "\n")[..|e.value|];
    assert value == (value + "\n")[..|value|];
  }

  /**
   * The translation table of a file, as a fold over its lines: each
   * accepted row sets its key, overwriting what an earlier row set.
   */
  function ParseLines(lines: seq<string>): map<string, string>
  {
    if lines == [] then map[]
    else
      var table := ParseLines(lines[..|lines| - 1]);
      var row := lines[|lines| - 1];
      if IsLanguageLine(row) then table[ParseRow(row).key := ParseRow(row).value] else table
  }

  /**
   * A row that is too short, starts with "//" or holds no '=' leaves the
   * table as it was.
   */
  lemma RejectedRowIgnored(lines: seq<string>, row: string)
    requires |row| <= 2 || (row[0] == '/' && row[1] == '/') || '=' !in row
    ensures ParseLines(lines + [row]) == ParseLines(lines)
  {
    assert (lines + [row])[..|lines|] == lines;
    assert !IsLanguageLine(row) by {
      if |row| > 2 && row[0] == '/' && row[1] == '/' {
        assert row[..2] == "//";
      }
    }
  }

  /** The table of a one-row file: that row's entry, or nothing when the row is not accepted. */
  lemma ParseLinesSingle(row: string)
    ensures ParseLines([row]) == if IsLanguageLine(row) then map[ParseRow(row).key := ParseRow(row).value] else map[]
  {
    assert [row][..0] == [];
  }

  /** An accepted row sets its key to its value, whatever the key held before. */
  lemma AcceptedRowSetsKey(lines: seq<string>, row: string)
    requires IsLanguageLine(row)
    ensures ParseLines(lines + [row]) == ParseLines(lines)[ParseRow(row).key := ParseRow(row).value]
  {
    assert (lines + [row])[..|lines|] == lines;
  }

  /** Row `i` of `lines` is accepted, has key `key`, and no later accepted row has that key. */
  ghost predicate LastDefinition(lines: seq<string>, i: int, key: string)
  {
    && 0 <= i < |lines|
    && IsLanguageLine(lines[i])
    && ParseRow(lines[i]).key == key
    && forall m :: i < m < |lines| && IsLanguageLine(lines[m]) ==> ParseRow(lines[m]).key != key
  }

  /** When the last row does not define `key`, the last definitions of `key` are those of the other rows. */
  lemma LastDefinitionInit(lines: seq<string>, i: int, key: string)
    requires 0 <= i < |lines| - 1
    requires !(IsLanguageLine(lines[|lines| - 1]) && ParseRow(lines[|lines| - 1]).key == key)
    ensures LastDefinition(lines, i, key) <==> LastDefinition(lines[..|lines| - 1], i, key)
  {
    var init := lines[..|lines| - 1];
    assert init[i] == lines[i];
    if LastDefinition(init, i, key) {
      forall m | i < m < |lines| && IsLanguageLine(lines[m])
        ensures ParseRow(lines[m]).key != key
      {
        if m < |init| { assert init[m] == lines[m]; }
      }
    }
    if LastDefinition(lines, i, key) {
      forall m | i < m < |init| && IsLanguageLine(init[m])
        ensures ParseRow(init[m]).key != key
      {
        assert init[m] == lines[m];
      }
    }
  }

  /**
   * A key is in the table exactly when some accepted row defines it, and
   * then its value is the one the last such row gives: a later duplicate
   * overwrites an earlier one.
   */
  lemma {:induction false} ParseLinesLastWins(lines: seq<string>, key: string)
    ensures key in ParseLines(lines) <==> exists i :: LastDefinition(lines, i, key)
    ensures forall i :: LastDefinition(lines, i, key) ==>
      key in ParseLines(lines) && ParseLines(lines)[key] == ParseRow(lines[i]).value
    decreases |lines|
  {
    if lines != [] {
      var n := |lines| - 1;
      var init := lines[..n];
      ParseLinesLastWins(init, key);
      var row := lines[n];
      if IsLanguageLine(row) && ParseRow(row).key == key {
        assert LastDefinition(lines, n, key);
        forall i | LastDefinition(lines, i, key) ensures i == n {
        }
      } else {
        assert key in ParseLines(lines) <==> key in ParseLines(init);
        assert key in ParseLines(init) ==> ParseLines(lines)[key] == ParseLines(init)[key];
        forall i | 0 <= i < n
          ensures LastDefinition(lines, i, key) <==> LastDefinition(init, i, key)
        {
          LastDefinitionInit(lines, i, key);
        }
        assert !LastDefinition(lines, n, key);
      }
    }
  }

  /**
   * The parsing loop of `lang_load`: a fresh table filled row by row.  It
   * builds the same table as the fold.
   */
  method BuildTable(lines: seq<string>) returns (table: map<string, string>)
    ensures table == ParseLines(lines)
  {
    table := map[];
    for i := 0 to |lines|
      invariant table == ParseLines(lines[..i])
    {
      var row := lines[i];
      assert lines[..i + 1][..i] == lines[..i];
      if IsLanguageLine(row) {
        var entry := ParseRow(row);
        table := table[entry.key := entry.value];
      }
    }
    assert lines[..|lines|] == lines;
  }
}
