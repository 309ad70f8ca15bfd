/**
 * SmartyML.php: the multilingual subclass of the template engine.  It
 * keeps the allowed languages, the default and the current language, the
 * translation table of the current language and the variables waiting to
 * be bound at the next render; it rewrites placeholders in templates and
 * in string variables, and prefixes the engine's cache and compile ids
 * with the current language.
 */
module SmartyMl {
  import opened Wrappers
  import opened Host
  import Rewriter
  import Loader

  /** `DEFAULT_LOCALES_DIR`: where locale files are looked up unless the constructor is told otherwise. */
  const DEFAULT_LOCALES_DIR: string := "../locales/"

  /**
   * The constructor's validation: the default language must be allowed,
   * and so must an explicitly given language.  On success the result is
   * the language the object starts with: the given one, or the default.
   */
  function InitialLanguage(allowed: seq<string>, default: string, language: Option<string>): (r: Result<string, Error>)
    ensures r.Success? <==> default in allowed && (language.Some? ==> language.value in allowed)
    ensures r.Success? ==> r.value in allowed && r.value == language.GetOr(default)
    ensures default !in allowed ==> r == Failure(InvalidDefaultLanguage(default))
    ensures default in allowed && language.Some? && language.value !in allowed ==>
      r == Failure(InvalidLanguage(language.value))
  {
    if default !in allowed then Failure(InvalidDefaultLanguage(default))
    else if language.Some? && language.value !in allowed then Failure(InvalidLanguage(language.value))
    else Success(language.GetOr(default))
  }

  /**
   * `mlCacheCompileId`: the language, a '-', and the id (a PHP null id
   * concatenates as "").
   */
  function MlCacheCompileId(language: string, id: Option<string>): string
  {
    language + "-" + id.GetOr("")
  }

  /** For one id, two languages never share a composite id. */
  lemma {:induction false} MlCacheCompileIdInjective(l1: string, l2: string, id: Option<string>)
    requires l1 != l2
    ensures MlCacheCompileId(l1, id) != MlCacheCompileId(l2, id)
  {
    var s1, s2 := MlCacheCompileId(l1, id), MlCacheCompileId(l2, id);
    assert s1[..|l1|] == l1 && s2[..|l2|] == l2;
  }

  /**
   * When language codes hold no '-', composite ids of different languages
   * differ whatever the ids are: the code is the text before the first '-'.
   */
  lemma {:induction false} MlCacheCompileIdSeparatesLanguages(l1: string, l2: string, id1: Option<string>, id2: Option<string>)
    requires '-' !in l1 && '-' !in l2 && l1 != l2
    ensures MlCacheCompileId(l1, id1) != MlCacheCompileId(l2, id2)
  {
    var s1, s2 := MlCacheCompileId(l1, id1), MlCacheCompileId(l2, id2);
    assert s1[|l1|] == '-' && s1[..|l1|] == l1;
    assert s2[|l2|] == '-' && s2[..|l2|] == l2;
  }

  /**
   * Without that condition two languages can share a composite id: the
   * language "pt" with the id "BR-x" and the language "pt-BR" with the id
   * "x" both give "pt-BR-x".
   */
  lemma {:induction false} MlCacheCompileIdHyphenCollision(language: string, suffix: string, id: string)
    ensures language != language + "-" + suffix
    ensures MlCacheCompileId(language, Some(suffix + "-" + id)) == MlCacheCompileId(language + "-" + suffix, Some(id))
  {
    assert |language + "-" + suffix| > |language|;
  }

  /**
   * The ids handed to the engine by `display`, `fetch` and `isCached`:
   * the caller's id, or else the engine's own, prefixed by the language.
   */
  function HostIds(language: string, cacheId: Option<string>, compileId: Option<string>,
                   ownCacheId: Option<string>, ownCompileId: Option<string>): (ids: (string, string))
  {
    (MlCacheCompileId(language, if cacheId.Some? then cacheId else ownCacheId),
     MlCacheCompileId(language, if compileId.Some? then compileId else ownCompileId))
  }

  /** A variable waiting to be bound: its value and its nocache flag. */
  datatype Pending = Pending(value: Value, nocache: bool)

  /** The names of an ordered list of pending variables, in order. */
  function Names(entries: seq<(string, Pending)>): (names: seq<string>)
    ensures |names| == |entries|
    ensures forall i :: 0 <= i < |entries| ==> names[i] == entries[i].0
  {
    if entries == [] then [] else [entries[0].0] + Names(entries[1..])
  }

  /** No name occurs twice: the list is a PHP array keyed by variable name. */
  ghost predicate DistinctNames(entries: seq<(string, Pending)>)
  {
    forall i, j :: 0 <= i < j < |entries| ==> entries[i].0 != entries[j].0
  }

  /** The entry of name `name`, replaced by `p`, all others kept. */
  function Replace(entries: seq<(string, Pending)>, name: string, p: Pending): (r: seq<(string, Pending)>)
    ensures |r| == |entries|
    ensures forall i :: 0 <= i < |entries| ==> r[i] == if entries[i].0 == name then (name, p) else entries[i]
  {
    if entries == [] then []
    else [if entries[0].0 == name then (name, p) else entries[0]] + Replace(entries[1..], name, p)
  }

  /**
   * `$array[$name] = $p` on a PHP array: an existing entry is overwritten
   * where it stands, a new one is appended.
   */
  function Put(entries: seq<(string, Pending)>, name: string, p: Pending): seq<(string, Pending)>
  {
    if name in Names(entries) then Replace(entries, name, p) else entries + [(name, p)]
  }

  /** The pending entry of a name, if any. */
  function Get(entries: seq<(string, Pending)>, name: string): Option<Pending>
  {
    if entries == [] then None
    else if entries[0].0 == name then Some(entries[0].1)
    else Get(entries[1..], name)
  }

  /** `Get` finds the entry that carries the name. */
  lemma {:induction false} GetAt(entries: seq<(string, Pending)>, i: int)
    requires DistinctNames(entries) && 0 <= i < |entries|
    ensures Get(entries, entries[i].0) == Some(entries[i].1)
  {
    if i > 0 {
      assert entries[0].0 != entries[i].0;
      assert entries[1..][i - 1] == entries[i];
      GetAt(entries[1..], i - 1);
    }
  }

  /** `Get` finds nothing for a name that no entry carries. */
  lemma {:induction false} GetAbsent(entries: seq<(string, Pending)>, name: string)
    requires name !in Names(entries)
    ensures Get(entries, name) == None
  {
    if entries != [] {
      assert Names(entries)[0] == entries[0].0;
      assert Names(entries[1..]) == Names(entries)[1..];
      GetAbsent(entries[1..], name);
    }
  }

  /** `Put` keeps names distinct. */
  lemma PutKeepsDistinct(entries: seq<(string, Pending)>, name: string, p: Pending)
    requires DistinctNames(entries)
    ensures DistinctNames(Put(entries, name, p))
  {
    if name !in Names(entries) {
      var r := Put(entries, name, p);
      forall i | 0 <= i < |entries| ensures r[i].0 != name {
        assert Names(entries)[i] == entries[i].0;
      }
    }
  }

  /** After `Put`, any other name has the entry it had before. */
  lemma PutKeepsOthers(entries: seq<(string, Pending)>, name: string, p: Pending, other: string)
    requires DistinctNames(entries) && other != name
    ensures Get(Put(entries, name, p), other) == Get(entries, other)
  {
    var r := Put(entries, name, p);
    var names := Names(entries);
    PutKeepsDistinct(entries, name, p);
    if other in names {
      var i :| 0 <= i < |names| && names[i] == other;
      GetAt(entries, i);
      GetAt(r, i);
    } else {
      GetAbsent(entries, other);
      assert other !in Names(r) by {
        forall i | 0 <= i < |r| ensures Names(r)[i] != other {
          if i < |entries| { assert names[i] == entries[i].0; }
        }
      }
      GetAbsent(r, other);
    }
  }

  /**
   * `assignML` bookkeeping: after `Put`, the name maps to the new entry,
   * every other name to what it mapped to before, names stay distinct,
   * and the list grows only by a name it did not hold.
   */
  lemma PutOverwrites(entries: seq<(string, Pending)>, name: string, p: Pending)
    requires DistinctNames(entries)
    ensures DistinctNames(Put(entries, name, p))
    ensures Get(Put(entries, name, p), name) == Some(p)
    ensures forall other :: other != name ==> Get(Put(entries, name, p), other) == Get(entries, other)
    ensures |Put(entries, name, p)| == |entries| + (if name in Names(entries) then 0 else 1)
  {
    var r := Put(entries, name, p);
    var names := Names(entries);
    PutKeepsDistinct(entries, name, p);
    forall other | other != name ensures Get(r, other) == Get(entries, other) {
      PutKeepsOthers(entries, name, p, other);
    }
    if name in names {
      var i :| 0 <= i < |names| && names[i] == name;
      GetAt(r, i);
    } else {
      GetAt(r, |entries|);
    }
  }

  /** A value as `display` binds it: a string is rewritten, any other value is kept. */
  function Translated(value: Value, table: map<string, string>): Value
  {
    match value
    case Str(text) => Str(Rewriter.Decode(text, table))
    case _ => value
  }

  /**
   * The `assign` calls with which `display` flushes the pending variables,
   * in order: the name, the translated value and the nocache flag of each.
   */
  function FlushCalls(entries: seq<(string, Pending)>, table: map<string, string>): (calls: seq<HostCall>)
    ensures |calls| == |entries|
    ensures forall i :: 0 <= i < |entries| ==>
      calls[i] == Assign(entries[i].0, Translated(entries[i].1.value, table), entries[i].1.nocache)
  {
    if entries == [] then []
    else
      var last := entries[|entries| - 1];
      FlushCalls(entries[..|entries| - 1], table) + [Assign(last.0, Translated(last.1.value, table), last.1.nocache)]
  }

  /** Only strings change when flushed: other values and every nocache flag pass through unchanged. */
  lemma FlushKeepsNonStrings(entries: seq<(string, Pending)>, table: map<string, string>, i: int)
    requires 0 <= i < |entries| && !entries[i].1.value.Str?
    ensures FlushCalls(entries, table)[i] == Assign(entries[i].0, entries[i].1.value, entries[i].1.nocache)
  {
  }

  /**
   * `lang_load` without its side effect: the table of the current locale
   * file, or the exception it throws when the file is missing or unreadable.
   */
  function LoadFile(fs: FileSystem, path: string): (r: Result<map<string, string>, Error>)
    ensures path !in fs ==> r == Failure(FileNotFound(path))
    ensures path in fs && fs[path].None? ==> r == Failure(FileUnreadable(path))
    ensures path in fs && fs[path].Some? ==> r == Success(Loader.ParseLines(fs[path].value))
  {
    if path !in fs then Failure(FileNotFound(path))
    else if fs[path].None? then Failure(FileUnreadable(path))
    else Success(Loader.ParseLines(fs[path].value))
  }

  class SmartyML {
    /** The allowed languages. */
    const languages: seq<string>
    /** The default language, one of `languages`. */
    const defaultLanguage: string
    /** The directory of the locale files. */
    const localesDir: string

    /** The current language. */
    var language: string
    /** The translation table of the last successful load. */
    var translations: map<string, string>
    /** The variables given to `assignML`, in the order of their first assignment. */
    var cachedVariables: seq<(string, Pending)>

    /** The engine's `$caching`, `$cache_id` and `$compile_id` settings, set by the caller. */
    var caching: bool
    var cacheId: Option<string>
    var compileId: Option<string>

    /** The calls made so far on the engine this class extends. */
    var hostCalls: seq<HostCall>

    /** The class invariant: both the current and the default language are allowed, and pending names are distinct. */
    ghost predicate Valid()
      reads this
    {
      && defaultLanguage in languages
      && language in languages
      && DistinctNames(cachedVariables)
    }

    /**
     * The object the constructor builds once its checks have passed;
     * `Create` is the constructor with its checks.
     */
    constructor Init(allowed: seq<string>, default: string, language: Option<string>, dir: Option<string>)
      requires InitialLanguage(allowed, default, language).Success?
      ensures Valid()
      ensures languages == allowed && defaultLanguage == default
      ensures this.language == language.GetOr(default)
      ensures localesDir == dir.GetOr(DEFAULT_LOCALES_DIR)
      ensures translations == map[] && cachedVariables == []
      ensures !caching && cacheId.None? && compileId.None?
      ensures hostCalls == [RegisterPrefilter]
    {
      languages := allowed;
      defaultLanguage := default;
      this.language := language.GetOr(default);
      localesDir := dir.GetOr(DEFAULT_LOCALES_DIR);
      translations := map[];
      cachedVariables := [];
      caching := false;
      cacheId := None;
      compileId := None;
      hostCalls := [RegisterPrefilter];
    }

    /**
     * `__construct`: throws when the default language, or a given
     * language, is not allowed; otherwise a valid object whose language
     * is the given one or the default, with the rewriter registered as
     * the engine's pre-filter.
     */
    static method Create(allowed: seq<string>, default: string, language: Option<string>, dir: Option<string>)
      returns (r: Result<SmartyML, Error>)
      ensures InitialLanguage(allowed, default, language).Failure? ==>
        r == Failure(InitialLanguage(allowed, default, language).error)
      ensures InitialLanguage(allowed, default, language).Success? ==>
        && r.Success? && fresh(r.value) && r.value.Valid()
        && r.value.languages == allowed && r.value.defaultLanguage == default
        && r.value.language == InitialLanguage(allowed, default, language).value
        && r.value.localesDir == dir.GetOr(DEFAULT_LOCALES_DIR)
        && r.value.translations == map[] && r.value.cachedVariables == []
        && r.value.hostCalls == [RegisterPrefilter]
    {
      var check := InitialLanguage(allowed, default, language);
      if check.Failure? {
        return Failure(check.error);
      }
      var obj := new SmartyML.Init(allowed, default, language, dir);
      return Success(obj);
    }

    /** `getLanguage`: the current language, which is always an allowed one. */
    function GetLanguage(): (l: string)
      reads this
      requires Valid()
      ensures l in languages
    {
      language
    }

    /**
     * `setLanguage`: None stands for the default language.  A language
     * that is not allowed throws and changes nothing; an allowed one
     * becomes current and is bound as the template variable "lang".
     */
    method SetLanguage(lang: Option<string>) returns (r: Outcome<Error>)
      requires Valid()
      modifies this`language, this`hostCalls
      ensures Valid()
      ensures var code := lang.GetOr(defaultLanguage);
        if code in languages then
          r == Pass && language == code && hostCalls == old(hostCalls) + [Assign("lang", Str(code), false)]
        else
          r == Fail(InvalidLanguage(code)) && language == old(language) && hostCalls == old(hostCalls)
    {
      var code := lang.GetOr(defaultLanguage);
      if code !in languages {
        return Fail(InvalidLanguage(code));
      }
      language := code;
      hostCalls := hostCalls + [Assign("lang", Str(code), false)];
      return Pass;
    }

    /** `assignML`: records a pending variable, overwriting an earlier one of the same name. */
    method AssignML(name: string, value: Value, nocache: bool)
      requires Valid()
      modifies this`cachedVariables
      ensures Valid()
      ensures cachedVariables == Put(old(cachedVariables), name, Pending(value, nocache))
      ensures Get(cachedVariables, name) == Some(Pending(value, nocache))
      ensures forall other :: other != name ==> Get(cachedVariables, other) == Get(old(cachedVariables), other)
    {
      PutOverwrites(cachedVariables, name, Pending(value, nocache));
      cachedVariables := Put(cachedVariables, name, Pending(value, nocache));
    }

    /** The path of the current language's locale file. */
    function LangFile(): string
      reads this
    {
      localesDir + language + ".txt"
    }

    /**
     * `lang_decode`, the pre-filter: the template source with its
     * placeholders rewritten from the current table.
     */
    function LangDecode(source: string): string
      reads this
    {
      Rewriter.Decode(source, translations)
    }

    /**
     * `lang_load`: replaces the translation table wholesale with the one
     * parsed from the current locale file; when the file is missing or
     * unreadable it throws and the old table survives.
     */
    method LangLoad(fs: FileSystem) returns (r: Outcome<Error>)
      modifies this`translations
      ensures LoadFile(fs, LangFile()).Failure? ==>
        r == Fail(LoadFile(fs, LangFile()).error) && translations == old(translations)
      ensures LoadFile(fs, LangFile()).Success? ==>
        r == Pass && translations == LoadFile(fs, LangFile()).value
    {
      var path := LangFile();
      if path !in fs {
        return Fail(FileNotFound(path));
      }
      var file := fs[path];
      if file.None? {
        return Fail(FileUnreadable(path));
      }
      var table := Loader.BuildTable(file.value);
      translations := table;
      return Pass;
    }

    /**
     * The loop of `display` over the pending variables: one `assign` per
     * variable, in order, with string values rewritten from the current table.
     */
    method FlushPending()
      modifies this`hostCalls
      ensures hostCalls == old(hostCalls) + FlushCalls(cachedVariables, translations)
    {
      for i := 0 to |cachedVariables|
        invariant hostCalls == old(hostCalls) + FlushCalls(cachedVariables[..i], translations)
      {
        var (name, pending) := cachedVariables[i];
        var value := pending.value;
        if value.Str? {
          value := Str(Rewriter.Decode(value.text, translations));
        }
        assert cachedVariables[..i + 1][..i] == cachedVariables[..i];
        hostCalls := hostCalls + [Assign(name, value, pending.nocache)];
      }
      assert cachedVariables[..|cachedVariables|] == cachedVariables;
    }

    /**
     * `display`: loads the table, binds every pending variable (strings
     * rewritten with the new table), then hands the template to the
     * engine with language-prefixed ids.  A failed load throws before
     * anything is bound.
     */
    method Display(template: string, cacheArg: Option<string>, compileArg: Option<string>, fs: FileSystem)
      returns (r: Outcome<Error>)
      requires Valid()
      modifies this`translations, this`hostCalls
      ensures Valid()
      ensures LoadFile(fs, LangFile()).Failure? ==>
        && r == Fail(LoadFile(fs, LangFile()).error)
        && translations == old(translations) && hostCalls == old(hostCalls)
      ensures LoadFile(fs, LangFile()).Success? ==>
        var ids := HostIds(language, cacheArg, compileArg, cacheId, compileId);
        && r == Pass
        && translations == LoadFile(fs, LangFile()).value
        && hostCalls == old(hostCalls) + FlushCalls(cachedVariables, translations)
                        + [HostCall.Display(template, Some(ids.0), Some(ids.1))]
    {
      r := LangLoad(fs);
      if r.Fail? {
        return;
      }
      FlushPending();
      var ids := HostIds(language, cacheArg, compileArg, cacheId, compileId);
      hostCalls := hostCalls + [HostCall.Display(template, Some(ids.0), Some(ids.1))];
    }

    /** `fetch`: hands the template to the engine with language-prefixed ids. */
    method Fetch(template: string, cacheArg: Option<string>, compileArg: Option<string>)
      modifies this`hostCalls
      ensures var ids := HostIds(language, cacheArg, compileArg, cacheId, compileId);
        hostCalls == old(hostCalls) + [HostCall.Fetch(template, Some(ids.0), Some(ids.1))]
    {
      var ids := HostIds(language, cacheArg, compileArg, cacheId, compileId);
      hostCalls := hostCalls + [HostCall.Fetch(template, Some(ids.0), Some(ids.1))];
    }

    /**
     * `isCached`: false without asking the engine when caching is off;
     * otherwise the engine's answer (`engineAnswer`) for the same
     * language-prefixed ids that `display` and `fetch` use.
     */
    method IsCached(template: string, cacheArg: Option<string>, compileArg: Option<string>, engineAnswer: bool)
      returns (cached: bool)
      modifies this`hostCalls
      ensures !caching ==> !cached && hostCalls == old(hostCalls)
      ensures caching ==>
        var ids := HostIds(language, cacheArg, compileArg, cacheId, compileId);
        cached == engineAnswer && hostCalls == old(hostCalls) + [HostCall.IsCached(template, Some(ids.0), Some(ids.1))]
    {
      if !caching {
        return false;
      }
      var ids := HostIds(language, cacheArg, compileArg, cacheId, compileId);
      hostCalls := hostCalls + [HostCall.IsCached(template, Some(ids.0), Some(ids.1))];
      return engineAnswer;
    }
  }
}
