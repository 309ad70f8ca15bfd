/**
 * SmartyML.class.php, the older version of the multilingual subclass.
 * Its language state lives in static fields and its configuration in the
 * globals `$smarty_lang_enable`, `$smarty_lang_default` and
 * `$smarty_lang_dir`; here the static fields are the fields of one object
 * and the globals are parameters.  It differs from SmartyML.php in its
 * line filter, in what it does with rows without '=', in not validating
 * the default language and in how it rewrites cache and compile ids.
 */
module SmartyMlLegacy {
  import opened Wrappers
  import opened Host
  import Rewriter
  import Loader
  import SmartyMl

  /**
   * The row filter of `lang_load`: a row is dropped only when it is at
   * most three characters long and starts with "//".  Blank lines and long
   * comment lines are kept.
   */
  predicate Keep(row: string)
  {
    |row| > 3 || !(|row| >= 2 && row[..2] == "//")
  }

  /**
   * The entry of a kept row.  A row with a '=' gives the text before the
   * first '=' and the rest without one trailing "\n".  A row without '='
   * reads the missing second half of `explode` as null: its key is the
   * whole row and its value null (None).
   */
  function ParseRow(row: string): (e: (string, Option<string>))
    ensures '=' in row ==>
      && '=' !in e.0 && e.1.Some?
      && e.0 + "=" + e.1.value + (if row[|row| - 1] == '\n' then "\n" else "") == row
    ensures '=' !in row ==> e == (row, None)
  {
    if '=' in row then
      var (key, rest) := Loader.SplitAtFirst(row);
      if |rest| > 0 && rest[|rest| - 1] == '\n' then
        assert rest == rest[..|rest| - 1] + "\n";
        (key, Some(Loader.StripLineBreak(rest)))
      else
        assert |rest| == 0 ==> row[|row| - 1] == '=';
        (key, Some(Loader.StripLineBreak(rest)))
    else
      (row, None)
  }

  /** The table of a file, as a fold over its lines; a later row overwrites an earlier one of the same key. */
  function ParseLines(lines: seq<string>): map<string, Option<string>>
  {
    if lines == [] then map[]
    else
      var table := ParseLines(lines[..|lines| - 1]);
      var row := lines[|lines| - 1];
      if Keep(row) then table[ParseRow(row).0 := ParseRow(row).1] else table
  }

  /** The parsing loop of `lang_load`: it builds the same table as the fold. */
  method BuildTable(lines: seq<string>) returns (table: map<string, Option<string>>)
    ensures table == ParseLines(lines)
  {
    table := map[];
    for i := 0 to |lines|
      invariant table == ParseLines(lines[..i])
    {
      var row := lines[i];
      assert lines[..i + 1][..i] == lines[..i];
      if Keep(row) {
        var entry := ParseRow(row);
        table := table[entry.0 := entry.1];
      }
    }
    assert lines[..|lines|] == lines;
  }

  /** The entries `lang_compile` can see: those whose value is not null. */
  function Visible(table: map<string, Option<string>>): (r: map<string, string>)
    ensures forall k :: k in r <==> k in table && table[k].Some?
    ensures forall k :: k in r ==> r[k] == table[k].value
  {
    map k | k in table && table[k].Some? :: table[k].value
  }

  /** `lang_compile`: the stored translation when it is set (non-null), and "" otherwise. */
  function LangCompile(table: map<string, Option<string>>, key: string): string
  {
    if key in table && table[key].Some? then table[key].value else ""
  }

  /** `lang_decode`: one pass of the placeholder pattern, each match replaced through `lang_compile`. */
  function LangDecode(source: string, table: map<string, Option<string>>): string
  {
    Rewriter.Decode(source, Visible(table))
  }

  /** `lang_compile` is the rewriter's lookup in the visible part of the table. */
  lemma LangCompileIsLookup(table: map<string, Option<string>>, key: string)
    ensures LangCompile(table, key) == Rewriter.Lookup(Visible(table), key)
  {
  }

  /**
   * A placeholder at the front is replaced by `lang_compile` of its key,
   * and the rest is rewritten in the same pass.
   */
  lemma LangDecodePlaceholder(key: string, rest: string, table: map<string, Option<string>>)
    requires Rewriter.PlaceholderKey(key)
    ensures LangDecode("##" + key + "##" + rest, table) == LangCompile(table, key) + LangDecode(rest, table)
  {
    Rewriter.DecodePlaceholder(key, rest, Visible(table));
  }

  /** Keeping the visible part commutes with storing a non-null value. */
  lemma VisibleStore(table: map<string, Option<string>>, key: string, value: string)
    ensures Visible(table[key := Some(value)]) == Visible(table)[key := value]
  {
  }

  /** A row that the newer filter accepts is kept here and parsed to the same entry. */
  lemma RowAgreesWithNewerLoader(row: string)
    requires Loader.IsLanguageLine(row)
    ensures Keep(row)
    ensures ParseRow(row) == (Loader.ParseRow(row).key, Some(Loader.ParseRow(row).value))
  {
    var e := Loader.ParseRow(row);
    var l := ParseRow(row);
    var suffix := if row[|row| - 1] == '\n' then "\n" else "";
    assert e.key + "=" + (e.value + suffix) == row;
    assert l.0 + "=" + (l.1.value + suffix) == row;
    Loader.SplitAtFirstUnique(e.key, e.value + suffix, row);
    Loader.SplitAtFirstUnique(l.0, l.1.value + suffix, row);
    assert e.value == (e.value + suffix)[..|e.value|];
    assert l.1.value == (l.1.value + suffix)[..|l.1.value|];
  }

  /**
   * On a file of which every row passes the newer filter, the two
   * versions load the same translations.
   */
  lemma {:induction false} AgreesWithNewerLoader(lines: seq<string>)
    requires forall i :: 0 <= i < |lines| ==> Loader.IsLanguageLine(lines[i])
    ensures Visible(ParseLines(lines)) == Loader.ParseLines(lines)
    decreases |lines|
  {
    if lines != [] {
      var n := |lines| - 1;
      var row := lines[n];
      AgreesWithNewerLoader(lines[..n]);
      assert Loader.IsLanguageLine(row);
      RowAgreesWithNewerLoader(row);
      var e := Loader.ParseRow(row);
      VisibleStore(ParseLines(lines[..n]), e.key, e.value);
    }
  }

  /**
   * A kept row without '=' stores null under the whole row: whatever an
   * earlier row stored under that key, `lang_compile` no longer sees it.
   */
  lemma NullRowHidesKey(lines: seq<string>, row: string)
    requires Keep(row) && '=' !in row
    ensures ParseLines(lines + [row]) == ParseLines(lines)[row := None]
    ensures Visible(ParseLines(lines + [row])) == Visible(ParseLines(lines)) - {row}
    ensures LangCompile(ParseLines(lines + [row]), row) == ""
  {
    assert (lines + [row])[..|lines|] == lines;
  }

  /**
   * Rows the newer loader drops but this one keeps: a long comment row
   * with a '=' gives an entry whose key starts with "//", and a blank line
   * gives a null entry under the key "\n".
   */
  lemma KeepsWhatNewerDrops(lines: seq<string>, row: string)
    requires |row| > 3 && row[..2] == "//" && '=' in row
    ensures Keep(row) && !Loader.IsLanguageLine(row)
    ensures ParseLines(lines + [row])[Loader.SplitAtFirst(row).0] == Some(Loader.StripLineBreak(Loader.SplitAtFirst(row).1))
    ensures Loader.ParseLines(lines + [row]) == Loader.ParseLines(lines)
    ensures Keep("\n") && !Loader.IsLanguageLine("\n") && ParseLines(lines + ["\n"])["\n"] == None
  {
    assert (lines + [row])[..|lines|] == lines;
    assert (lines + ["\n"])[..|lines|] == lines;
  }

  /** The `is_cached` ids: rewritten from the engine's compile id only when no compile id is given. */
  function ProbeIds(language: string, cacheArg: Option<string>, compileArg: Option<string>,
                    ownCompileId: Option<string>): (ids: (Option<string>, Option<string>))
    ensures compileArg.Some? ==> ids == (cacheArg, compileArg)
    ensures compileArg.None? ==> ids.0 == ids.1 && ids.1 == Some(SmartyMl.MlCacheCompileId(language, ownCompileId))
  {
    if compileArg.None? then
      var id := SmartyMl.MlCacheCompileId(language, ownCompileId);
      (Some(id), Some(id))
    else
      (cacheArg, compileArg)
  }

  /** The `fetch` ids: both are the language-prefixed compile id; the caller's cache id is discarded. */
  function FetchIds(language: string, compileArg: Option<string>): (ids: (Option<string>, Option<string>))
  {
    var id := SmartyMl.MlCacheCompileId(language, compileArg);
    (Some(id), Some(id))
  }

  /**
   * A cache probe with an explicit compile id asks the engine about a
   * different compile id than `fetch` renders with for the same arguments.
   */
  lemma ProbeDiffersFromFetch(language: string, cacheArg: Option<string>, compileArg: Option<string>,
                              ownCompileId: Option<string>)
    requires compileArg.Some?
    ensures ProbeIds(language, cacheArg, compileArg, ownCompileId).1 != FetchIds(language, compileArg).1
  {
    assert |SmartyMl.MlCacheCompileId(language, compileArg)| > |compileArg.value|;
  }

  /**
   * A cache probe without a compile id matches what `fetch` renders
   * without one exactly when the object's own compile id is null or "":
   * `is_cached` prefixes the object's compile id, `fetch` the argument.
   */
  lemma ProbeWithoutCompileIdMatchesFetch(language: string, cacheArg: Option<string>, ownCompileId: Option<string>)
    ensures ProbeIds(language, cacheArg, None, ownCompileId) == FetchIds(language, None) <==> ownCompileId.GetOr("") == ""
  {
    var probe := SmartyMl.MlCacheCompileId(language, ownCompileId);
    assert |probe| == |language| + 1 + |ownCompileId.GetOr("")|;
  }

  /** `$smarty_lang_enable`: a list of languages or a single one. */
  datatype LangEnable = One(code: string) | Many(codes: seq<string>)

  /** The constructor's normalisation: a single language becomes a one-element list. */
  function Normalise(enable: LangEnable): (languages: seq<string>)
    ensures enable.One? ==> languages == [enable.code]
    ensures enable.Many? ==> languages == enable.codes
  {
    match enable
    case One(code) => [code]
    case Many(codes) => codes
  }

  /**
   * The constructor writes the wrapped list back to `$smarty_lang_enable`;
   * a later construction reads that list and stores the same languages.
   */
  lemma NormaliseWrittenBack(enable: LangEnable)
    ensures Normalise(Many(Normalise(enable))) == Normalise(enable)
  {
  }

  /**
   * `lang_load` without its side effect.  A missing file throws; an
   * unreadable one makes `file()` return false, over which the loop does
   * nothing, so the table becomes empty.
   */
  function LoadFile(fs: FileSystem, path: string): (r: Result<map<string, Option<string>>, Error>)
    ensures path !in fs ==> r == Failure(FileNotFound(path))
    ensures path in fs && fs[path].None? ==> r == Success(map[])
    ensures path in fs && fs[path].Some? ==> r == Success(ParseLines(fs[path].value))
  {
    if path !in fs then Failure(FileNotFound(path))
    else if fs[path].None? then Success(map[])
    else Success(ParseLines(fs[path].value))
  }

  /**
   * The static state of the class (`$languages`, `$language`,
   * `$translations`) together with the engine settings and calls of one
   * instance.
   */
  class SmartyML {
    var languages: seq<string>
    var language: string
    var translations: map<string, Option<string>>

    /** The engine's `$caching` and `$compile_id` settings, set by the caller. */
    var caching: bool
    var compileId: Option<string>

    /** The calls made so far on the engine this class extends. */
    var hostCalls: seq<HostCall>

    /**
     * The static fields as the class declares them, before any instance is
     * constructed; `$translations` starts as null, which `lang_compile`
     * treats as an empty table.
     */
    constructor ()
      ensures languages == ["en"] && language == "" && translations == map[]
      ensures !caching && compileId.None? && hostCalls == []
    {
      languages := ["en"];
      language := "";
      translations := map[];
      caching := false;
      compileId := None;
      hostCalls := [];
    }

    /** `getLanguage`: the current language, "" before any was set. */
    function GetLanguage(): string
      reads this
    {
      language
    }

    /**
     * `setLanguage`: None installs the global default without checking
     * it; any other language must be allowed, or it throws and the
     * current language stays.
     */
    method SetLanguage(lang: Option<string>, globalDefault: string) returns (r: Outcome<Error>)
      modifies this`language
      ensures lang.None? ==> r == Pass && language == globalDefault
      ensures lang.Some? && lang.value !in languages ==> r == Fail(InvalidLanguage(lang.value)) && language == old(language)
      ensures lang.Some? && lang.value in languages ==> r == Pass && language == lang.value
    {
      var code: string;
      if lang.None? {
        code := globalDefault;
      } else {
        code := lang.value;
        if code !in languages {
          return Fail(InvalidLanguage(code));
        }
      }
      language := code;
      return Pass;
    }

    /**
     * `__construct`: stores the enabled languages (a single one wrapped
     * in a list, which is also written back to the global, returned here
     * as `enableAfter`), then sets the language; the pre-filter is registered
     * only when that succeeds, but the stored languages stay either way.
     */
    method Construct(enable: LangEnable, globalDefault: string, lang: Option<string>)
      returns (r: Outcome<Error>, enableAfter: LangEnable)
      modifies this`languages, this`language, this`hostCalls
      ensures enableAfter == Many(languages) && languages == Normalise(enable)
      ensures lang.None? ==> r == Pass && language == globalDefault
      ensures lang.Some? && lang.value !in languages ==> r == Fail(InvalidLanguage(lang.value)) && language == old(language)
      ensures lang.Some? && lang.value in languages ==> r == Pass && language == lang.value
      ensures hostCalls == old(hostCalls) + (if r.Pass? then [RegisterPrefilter] else [])
    {
      languages := Normalise(enable);
      enableAfter := Many(languages);
      r := SetLanguage(lang, globalDefault);
      if r.Pass? {
        hostCalls := hostCalls + [RegisterPrefilter];
      }
    }

    /** The path of the current language's locale file under `$smarty_lang_dir`. */
    function LangFile(langDir: string): string
      reads this
    {
      langDir + language + ".txt"
    }

    /**
     * `lang_load`: replaces the table wholesale with the one of the
     * current locale file; a missing file throws and the old table stays.
     */
    method LangLoad(fs: FileSystem, langDir: string) returns (r: Outcome<Error>)
      modifies this`translations
      ensures LoadFile(fs, LangFile(langDir)).Failure? ==>
        r == Fail(LoadFile(fs, LangFile(langDir)).error) && translations == old(translations)
      ensures LoadFile(fs, LangFile(langDir)).Success? ==>
        r == Pass && translations == LoadFile(fs, LangFile(langDir)).value
    {
      var path := LangFile(langDir);
      if path !in fs {
        return Fail(FileNotFound(path));
      }
      var file := fs[path];
      if file.None? {
        translations := map[];
      } else {
        var table := BuildTable(file.value);
        translations := table;
      }
      return Pass;
    }

    /** `display`: loads the table, then hands the template to the engine with the ids unchanged. */
    method Display(template: string, cacheArg: Option<string>, compileArg: Option<string>,
                   fs: FileSystem, langDir: string) returns (r: Outcome<Error>)
      modifies this`translations, this`hostCalls
      ensures LoadFile(fs, LangFile(langDir)).Failure? ==>
        && r == Fail(LoadFile(fs, LangFile(langDir)).error)
        && translations == old(translations) && hostCalls == old(hostCalls)
      ensures LoadFile(fs, LangFile(langDir)).Success? ==>
        && r == Pass && translations == LoadFile(fs, LangFile(langDir)).value
        && hostCalls == old(hostCalls) + [HostCall.Display(template, cacheArg, compileArg)]
    {
      r := LangLoad(fs, langDir);
      if r.Fail? {
        return;
      }
      hostCalls := hostCalls + [HostCall.Display(template, cacheArg, compileArg)];
    }

    /** `fetch`: both ids become the language-prefixed compile id. */
    method Fetch(template: string, cacheArg: Option<string>, compileArg: Option<string>)
      modifies this`hostCalls
      ensures var ids := FetchIds(language, compileArg);
        hostCalls == old(hostCalls) + [HostCall.Fetch(template, ids.0, ids.1)]
    {
      var ids := FetchIds(language, compileArg);
      hostCalls := hostCalls + [HostCall.Fetch(template, ids.0, ids.1)];
    }

    /**
     * `is_cached`: false without asking the engine when caching is off;
     * otherwise the engine's answer (`engineAnswer`) for the probe ids.
     */
    method IsCached(template: string, cacheArg: Option<string>, compileArg: Option<string>, engineAnswer: bool)
      returns (cached: bool)
      modifies this`hostCalls
      ensures !caching ==> !cached && hostCalls == old(hostCalls)
      ensures caching ==>
        var ids := ProbeIds(language, cacheArg, compileArg, compileId);
        cached == engineAnswer && hostCalls == old(hostCalls) + [HostCall.IsCached(template, ids.0, ids.1)]
    {
      if !caching {
        return false;
      }
      var ids := ProbeIds(language, cacheArg, compileArg, compileId);
      hostCalls := hostCalls + [HostCall.IsCached(template, ids.0, ids.1)];
      return engineAnswer;
    }
  }
}
