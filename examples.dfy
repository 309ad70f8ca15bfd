/** The worked examples of the multilingual layer, proved from the general lemmas. */
module Examples {
  import opened Rewriter
  import Loader
  import Wrappers

  /**
   * The rewriting example, for any two non-empty keys without '#' or line breaks: a
   * known placeholder becomes its translation and an unknown one vanishes,
   * so "##greeting##, ##missing##!" becomes "Hello, !".
   */
  lemma DecodeKnownAndMissing(known: string, missing: string, table: map<string, string>)
    requires |known| > 0 && '#' !in known && '\n' !in known && known in table
    requires |missing| > 0 && '#' !in missing && '\n' !in missing && missing !in table
    ensures Decode("##" + known + "##" + (", " + ("##" + missing + "##" + "!")), table) == table[known] + ", !"
  {
    var last := "##" + missing + "##" + "!";
    var middle := ", " + last;
    HashFreeKey(missing);
    DecodePlaceholder(missing, "!", table);
    DecodePlainPrefix("!", [], table);
    assert "!" + [] == "!";
    DecodePlainPrefix(", ", last, table);
    HashFreeKey(known);
    DecodePlaceholder(known, middle, table);
  }

  /**
   * Single pass: a placeholder whose translation is the placeholder itself
   * comes back as it was, instead of being expanded again.
   */
  lemma ReplacementNotRescanned(key: string, table: map<string, string>)
    requires PlaceholderKey(key) && key in table && table[key] == "##" + key + "##"
    ensures Decode("##" + key + "##", table) == "##" + key + "##"
  {
    DecodePlaceholder(key, [], table);
    assert "##" + key + "##" + [] == "##" + key + "##";
  }

  /**
   * Loading then rewriting: when the last row of a locale file that
   * defines `key` is "key=value\n", the placeholder "##key##" is rewritten
   * to `value`.
   */
  lemma LoadThenDecode(lines: seq<string>, i: int, key: string, value: string)
    requires PlaceholderKey(key) && '=' !in key && (key + "=")[..2] != "//"
    requires 0 <= i < |lines| && lines[i] == key + "=" + value + "\n"
    requires forall m :: i < m < |lines| && Loader.IsLanguageLine(lines[m]) ==> Loader.ParseRow(lines[m]).key != key
    ensures Decode("##" + key + "##", Loader.ParseLines(lines)) == value
  {
    Loader.ParseRowOfEntry(key, value);
    assert Loader.LastDefinition(lines, i, key);
    Loader.ParseLinesLastWins(lines, key);
    DecodePlaceholder(key, [], Loader.ParseLines(lines));
    assert "##" + key + "##" + [] == "##" + key + "##";
  }

  /**
   * Not every loaded key is reachable by a placeholder: the row "a#=v\n"
   * loads the key "a#", but in "##a###" the lazy pattern closes at the
   * first "##", so the placeholder reads the key "a" and leaves "#".
   */
  lemma HashEndingKeyUnreachable()
    ensures Loader.ParseLines(["a#=v\n"]) == map["a#" := "v"]
    ensures Decode("##a###", map["a#" := "v"]) == "#"
  {
    Loader.ParseRowOfEntry("a#", "v");
    assert "a#=v\n" == "a#" + "=" + "v" + "\n";
    Loader.ParseLinesSingle("a#=v\n");
    var s := "##a###";
    assert MatchAt(s) == Wrappers.Some(3);
    assert s[2..3] == "a" && s[5..] == "#";
    assert MatchAt("#").None?;
  }
}
