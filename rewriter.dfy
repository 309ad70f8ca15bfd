/**
 * The placeholder rewriter: one pass of `preg_replace_callback` with the
 * fixed pattern `/##(.+?)##/` (no `s` flag), each match being replaced by
 * the translation of its inner text, or by "" when the table has none.
 *
 * The pattern is modelled directly rather than through a general regular
 * expression engine.  A match can start only at a "##"; its inner text is
 * at least one character long, holds no "\n" (the `.` of a pattern without
 * the `s` flag does not match a line break) and, the quantifier being lazy,
 * ends at the first "##" that can close it.  Matches are tried leftmost
 * first; after a match the scan resumes behind it, and replacement text is
 * never scanned again.
 */
module Rewriter {
  import opened Wrappers

  /** A "##" starts at index `j` of `s`. */
  predicate MarkerAt(s: string, j: int)
  {
    0 <= j && j + 1 < |s| && s[j] == '#' && s[j + 1] == '#'
  }

  /**
   * For a text `s` that starts with "##", index `j` is a place where the
   * pattern can end: a "##" begins at `j`, and the inner text `s[2..j]` is
   * non-empty and holds no line break.
   */
  ghost predicate Closes(s: string, j: int)
  {
    3 <= j && MarkerAt(s, j) && '\n' !in s[2..j]
  }

  /** `s` holds no "##" at all. */
  ghost predicate MarkerFree(s: string)
  {
    forall j {:trigger s[j]} :: 0 <= j < |s| - 1 ==> !(s[j] == '#' && s[j + 1] == '#')
  }

  /**
   * Searches for the closing "##" from candidate index `k` on, the inner
   * text `s[2..k]` seen so far holding no line break.  The result is the
   * first index at which the pattern can end, or None when a line break or
   * the end of the text comes first.
   */
  function FindClose(s: string, k: nat): (r: Option<nat>)
    requires 3 <= k <= |s| && '\n' !in s[2..k]
    ensures r.Some? ==> k <= r.value && Closes(s, r.value)
    ensures forall j :: k <= j < (if r.Some? then r.value else |s|) ==> !Closes(s, j)
    decreases |s| - k
  {
    if k + 2 > |s| then None
    else if s[k] == '#' && s[k + 1] == '#' then Some(k)
    else if s[k] == '\n' then
      assert forall j :: k < j <= |s| ==> s[2..j][k - 2] == '\n';
      None
    else
      assert s[2..k + 1] == s[2..k] + [s[k]];
      FindClose(s, k + 1)
  }

  /**
   * The match of the pattern anchored at the start of `s`: the index of
   * its closing "##", which is the least index at which it can end, or
   * None when there is no match at this position.
   */
  function MatchAt(s: string): (r: Option<nat>)
    ensures r.Some? <==> MarkerAt(s, 0) && exists j :: Closes(s, j)
    ensures r.Some? ==> Closes(s, r.value) && forall j :: 0 <= j < r.value ==> !Closes(s, j)
  {
    if |s| >= 3 && MarkerAt(s, 0) && s[2] != '\n' then
      FindClose(s, 3)
    else
      assert forall j :: 3 <= j <= |s| ==> s[2..j][0] == s[2];
      None
  }

  /** What a matched placeholder is replaced with: `$translations[$key] ?? ''`. */
  function Lookup(table: map<string, string>, key: string): string
  {
    if key in table then table[key] else ""
  }

  /**
   * `lang_decode`: rewrites every placeholder of `s`, in one left-to-right
   * pass.
   */
  function Decode(s: string, table: map<string, string>): string
    decreases |s|
  {
    if s == [] then []
    else
      match MatchAt(s)
      case Some(j) => Lookup(table, s[2..j]) + Decode(s[j + 2..], table)
      case None => [s[0]] + Decode(s[1..], table)
  }

  /** A text without "##" comes back unchanged: rewriting is the identity on it. */
  lemma {:induction false} DecodeMarkerFree(s: string, table: map<string, string>)
    requires MarkerFree(s)
    ensures Decode(s, table) == s
    decreases |s|
  {
    if s != [] {
      assert !MarkerAt(s, 0) by {
        if |s| >= 2 {
          assert !(s[0] == '#' && s[1] == '#');
        }
      }
      forall j | 0 <= j < |s[1..]| - 1
        ensures !(s[1..][j] == '#' && s[1..][j + 1] == '#')
      {
        assert s[1..][j] == s[j + 1] && s[1..][j + 1] == s[j + 2];
      }
      DecodeMarkerFree(s[1..], table);
    }
  }

  /**
   * A text in which the pattern matches at no position comes back
   * unchanged, even when it holds "##" (as in "a##b", "##\n##" or "####"):
   * rewriting is the identity once no placeholder is left.
   */
  lemma {:induction false} NoMatchUnchanged(s: string, table: map<string, string>)
    requires forall i :: 0 <= i < |s| ==> MatchAt(s[i..]).None?
    ensures Decode(s, table) == s
    decreases |s|
  {
    if s != [] {
      assert s[0..] == s;
      forall i | 0 <= i < |s[1..]|
        ensures MatchAt(s[1..][i..]).None?
      {
        assert s[1..][i..] == s[i + 1..];
      }
      NoMatchUnchanged(s[1..], table);
    }
  }

  /**
   * A key that, written as "##key##", forms exactly one placeholder: it is
   * non-empty, holds no line break, and no "##" closes the pattern before
   * the intended one, neither inside the key nor formed by its last
   * character with the first '#' of the closing marker.
   */
  predicate PlaceholderKey(key: string)
  {
    && |key| > 0
    && '\n' !in key
    && (|key| >= 2 ==> key[|key| - 1] != '#')
    && forall m :: 1 <= m < |key| - 1 ==> !(key[m] == '#' && key[m + 1] == '#')
  }

  /** Text without '#' is copied through, and the rest is rewritten on its own. */
  lemma {:induction false} DecodePlainPrefix(plain: string, rest: string, table: map<string, string>)
    requires '#' !in plain
    ensures Decode(plain + rest, table) == plain + Decode(rest, table)
    decreases |plain|
  {
    if plain != [] {
      var s := plain + rest;
      assert s[0] == plain[0] && s[0] != '#';
      assert s[1..] == plain[1..] + rest;
      DecodePlainPrefix(plain[1..], rest, table);
    } else {
      assert plain + rest == rest;
    }
  }

  /**
   * A placeholder at the front is replaced by its translation, or by ""
   * when the key is absent, and the scan resumes right behind it.  The
   * translation is emitted as it is: it is not scanned for placeholders.
   */
  lemma DecodePlaceholder(key: string, rest: string, table: map<string, string>)
    requires PlaceholderKey(key)
    ensures Decode("##" + key + "##" + rest, table) == Lookup(table, key) + Decode(rest, table)
    ensures key in table ==> Decode("##" + key + "##" + rest, table) == table[key] + Decode(rest, table)
    ensures key !in table ==> Decode("##" + key + "##" + rest, table) == Decode(rest, table)
  {
    var s := "##" + key + "##" + rest;
    var n := |key| + 2;
    assert s[2..n] == key;
    assert s[n + 2..] == rest;
    assert Closes(s, n);
    forall j | 3 <= j < n
      ensures !Closes(s, j)
    {
      assert s[j] == key[j - 2];
      if j + 1 < n {
        assert s[j + 1] == key[j - 1];
      }
    }
    assert MatchAt(s) == Some(n);
  }

  /** A non-empty key without '#' or '\n' is well-formed. */
  lemma HashFreeKey(key: string)
    requires |key| > 0 && '#' !in key && '\n' !in key
    ensures PlaceholderKey(key)
  {
  }
}
