# SmartyML in Dafny

A model of SmartyML, a multilingual subclass of the Smarty template
engine, and proofs about it. SmartyML does three things:

- It loads a per-language locale file of `key=value` rows into a
  translation table.
- It rewrites `##key##` placeholders, both in template source (as a
  Smarty pre-filter) and in string variables bound through `assignML`.
- It prefixes Smarty's cache and compile ids with the current language
  code, so that each language gets its own compiled and cached templates.

Two versions are modelled. `SmartyML.php` is the current class.
`SmartyML.class.php` is the older one: it keeps its state in static
fields and reads its configuration from globals.

## Layout

| file | module | models |
|---|---|---|
| `wrappers.dfy` | `Wrappers` | `Option` (PHP `null`), `Result` and `Outcome` (a thrown exception) |
| `host.dfy` | `Host` | what the layer sees of its surroundings. `HostCall` is one call on the Smarty parent class. `Value` is a bound template variable. `FileSystem` is the locale directory. `Error` holds the exceptions. |
| `rewriter.dfy` | `Rewriter` | `lang_decode`: one pass of `/##(.+?)##/` |
| `loader.dfy` | `Loader` | how `lang_load` in `SmartyML.php` parses a file: `isLanguageLine`, `explode('=', $row, 2)`, stripping the line break, and the table as a fold and as a loop |
| `smartyml.dfy` | `SmartyMl` | the class in `SmartyML.php` |
| `legacy.dfy` | `SmartyMlLegacy` | the class in `SmartyML.class.php` |
| `examples.dfy` | `Examples` | worked examples, proved from the general lemmas |

### Modelling choices

- **The Smarty parent class.** It is not modelled. Each object has a
  field `hostCalls: seq<HostCall>`. Every call the source makes on its
  parent, except the parent constructor, is appended to it: `registerFilter`, `assign`,
  `parent::display`, `parent::fetch`, `parent::isCached` /
  `is_cached`. The methods' contracts state exactly which calls are made,
  with which arguments and in which order. `isCached` returns the
  parent's answer, so that answer is a parameter (`engineAnswer`).
- **Files.** `file_exists` and `file()` become a `FileSystem` map. A path
  that is not a key is a missing file. A path mapped to `None` exists but
  cannot be read. Otherwise the map gives `file()`'s lines, each still
  ending in its `"\n"`, except possibly the last.
- **The pending variables.** `cached_variables` is a PHP array, which is
  ordered. It is modelled as a list of `(name, Pending)` entries with
  distinct names. Assigning a name that is already there overwrites the
  entry in place; a new name goes at the end.
- **The pattern.** `/##(.+?)##/` without the `s` flag is modelled
  directly, with no general regular-expression engine:
  - A match starts at a `##`.
  - The inner text is at least one character long and contains no `"\n"`.
  - The match ends at the first `##` that can close it (the `?` makes
    the quantifier lazy).
  - Scanning moves left to right. After a match it resumes just past the
    match, and replacement text is never scanned again.

  `MatchAt` states this as "the least index at which the pattern can
  close". `Decode` is the replacement pass.
- **The legacy class's globals and statics.** The globals
  `$smarty_lang_enable`, `$smarty_lang_default` and `$smarty_lang_dir`
  become method parameters. The static fields `$languages`, `$language`
  and `$translations` become fields of one object, next to the instance
  settings `caching` and `compile_id`.
- **What the source does differently from its own documentation:**
  - A row is skipped only when it is 2 characters or shorter, starts with
    `//`, or has no `=`. So a row that is blank apart from its `=` part,
    such as `"  =\n"` or `"  =x\n"`, is used, and its key is `"  "`.
  - The length counts the line terminator. A final row `"a="` with no
    terminator is too short and is skipped. The same text followed by
    `"\n"` is accepted.
  - Not every key a file defines can be reached by a placeholder. The
    row `"a#=v\n"` loads the key `a#`, but the lazy pattern closes
    `"##a###"` at the first `##`: it looks up `a` and leaves `"#"`
    (`HashEndingKeyUnreachable`). The row `"=v\n"` loads the empty key,
    but `"####"` is no placeholder, since the pattern needs at least one
    inner character. Only keys that form one placeholder (`PlaceholderKey`:
    non-empty, no `"\n"`, no inner `##`, no trailing `#`) are reachable.
  - Only `display` reloads the translation table. `setLanguage`, `fetch`
    and `isCached` do not, so `fetch` rewrites placeholders with whatever
    table the last `display` loaded (an empty one before any display).
  - The legacy `setLanguage(null)` installs the global default without
    checking that it is allowed.
  - In the legacy version an unreadable file does not throw: `file()`
    returns false, the loop does nothing, and the table becomes empty.
  - In the legacy version a kept row without `=` stores a null value
    under the whole row as key. Such entries are invisible to
    `lang_compile`, but they do overwrite an earlier value stored under
    the same key.
  - The legacy `is_cached` with an explicit compile id asks Smarty about
    a different compile id than `fetch` would use for the same
    arguments (`ProbeDiffersFromFetch`).
  - Without a compile id, the legacy `is_cached` prefixes the object's
    `compile_id`, while `fetch` prefixes its (null) argument. The two
    agree only when the object's compile id is null or `""`
    (`ProbeWithoutCompileIdMatchesFetch`).
  - The language prefix keeps the caches of different languages apart
    only when language codes contain no `-`
    (`MlCacheCompileIdSeparatesLanguages`). Nothing in the source
    enforces that. With a code such as `pt-BR`, language `pt` with id
    `BR-x` and language `pt-BR` with id `x` both give `pt-BR-x`
    (`MlCacheCompileIdHyphenCollision`).

## Model

| member | source | states |
|---|---|---|
| `Rewriter.Decode` | SmartyML.php:221-226 | the definition of `lang_decode`'s replacement pass; its properties are stated by `MatchAt`, `NoMatchUnchanged`, `DecodeMarkerFree`, `DecodePlainPrefix` and `DecodePlaceholder` |
| `Rewriter.FindClose` | SmartyML.php:223 | the search for the closing `##` of `.+?`: the result is the first index that closes the pattern; no smaller candidate closes it; None when a `"\n"` or the end of the text comes first |
| `Rewriter.MatchAt` | SmartyML.php:223 | a match exists at the front exactly when the text starts with `##` and some index closes the pattern; the match ends at the least such index |
| `Rewriter.DecodeMarkerFree` | SmartyML.php:223-225 | text with no `##` is returned unchanged (rewriting is idempotent on marker-free text) |
| `Rewriter.NoMatchUnchanged` | SmartyML.php:223-225 | a text in which the pattern matches at no position, including one that holds `##` such as `"a##b"`, `"##\n##"` or `"####"`, is returned unchanged |
| `Rewriter.DecodePlainPrefix` | SmartyML.php:223-225 | text without `#` is copied through, and the rest of the input is rewritten on its own |
| `Rewriter.Lookup` | SmartyML.php:224 | the definition of the callback's `$this->translations[$text[1]] ?? ''`; `DecodePlaceholder` states that a placeholder is replaced by it |
| `Rewriter.DecodePlaceholder` | SmartyML.php:223-225 | for a key that forms one placeholder (`PlaceholderKey`: non-empty, no `"\n"`, no inner `##`, no trailing `#`), `"##k##"` at the front becomes `translations[k]`, or `""` when k is absent, and the pass continues right after it; the translation is emitted as it is, not rescanned |
| `Examples.DecodeKnownAndMissing` | SmartyML.php:223-225 | the worked example: `"##greeting##, ##missing##!"` becomes `"Hello, !"` (stated for any two non-empty keys without `#` or line breaks, one in the table and one not) |
| `Examples.ReplacementNotRescanned` | SmartyML.php:223-225 | single pass: a key whose translation is its own placeholder comes back as that placeholder and is not expanded again |
| `Examples.LoadThenDecode` | SmartyML.php:221-256 | for a key k that forms one placeholder (`PlaceholderKey`), has no `=` and does not start with `//`: if the last row of the file that defines k is `"k=v\n"`, then after loading, `"##k##"` rewrites to `v` |
| `Examples.HashEndingKeyUnreachable` | SmartyML.php:217-253 | counterexample: the row `"a#=v\n"` loads `a#` ↦ `v`, yet `"##a###"` rewrites to `"#"`, because the placeholder that matches reads the key `a` |
| `Loader.IsLanguageLine` | SmartyML.php:215-218 | the definition of `isLanguageLine`; what it does to the table is stated by `RejectedRowIgnored` and `AcceptedRowSetsKey` |
| `Loader.FirstIndex` | SmartyML.php:246 | the index of the first occurrence of a character: the character is there, and not anywhere before it |
| `Loader.SplitAtFirst` | SmartyML.php:246 | `explode('=', $row, 2)`: key + `"="` + rest is the row, and the key has no `=`; any further `=` stay in the rest |
| `Loader.SplitAtFirstUnique` | SmartyML.php:246 | any way of writing the row as an `=`-free key, `=`, and a rest is the split, so the split is unique |
| `Loader.StripLineBreak` | SmartyML.php:249-251 | the definition of dropping one trailing `"\n"` from the value (also SmartyML.class.php:88-91); both `ParseRow`s state its effect by reassembling the row |
| `Loader.ParseRow` | SmartyML.php:245-253 | the entry of an accepted row: the key has no `=`; key + `"="` + value, followed by `"\n"` when the row ends with one, gives back the row, so exactly one trailing line break is dropped |
| `Loader.ParseRowOfEntry` | SmartyML.php:245-253 | round trip: the line `"k=v\n"` is accepted and parses back to key k and value v, for a non-empty key without `=` that does not start with `//` |
| `Loader.ParseLines` | SmartyML.php:242-256 | the definition of the table as a fold over the rows; its properties are stated by `ParseLinesLastWins`, and `BuildTable` is proved equal to it |
| `Loader.ParseLinesSingle` | SmartyML.php:242-256 | a one-row file gives that row's entry when the row is accepted, and the empty table otherwise |
| `Loader.RejectedRowIgnored` | SmartyML.php:215-218 | a row of 2 characters or fewer, a row starting with `//`, or a row without `=` leaves the table unchanged |
| `Loader.AcceptedRowSetsKey` | SmartyML.php:245-253 | an accepted row sets its key to its value and overwrites whatever an earlier row set |
| `Loader.ParseLinesLastWins` | SmartyML.php:242-256 | a key is in the table exactly when some accepted row defines it, and its value comes from the last such row |
| `Loader.BuildTable` | SmartyML.php:242-255 | the `foreach` loop builds the same table as the fold `ParseLines` |
| `SmartyMl.InitialLanguage` | SmartyML.php:49-63 | construction succeeds exactly when the default language is allowed and a given language is allowed. It fails with `InvalidDefaultLanguage` first, then `InvalidLanguage`. On success the language is the given one, or else the default, and it is allowed |
| `SmartyMl.SmartyML.Create` | SmartyML.php:47-68 | the constructor: it throws the validation error; otherwise it returns a fresh valid object with the allowed list, the default, the starting language and the locales directory (`../locales/` unless given), and registers the pre-filter |
| `SmartyMl.SmartyML.Init` | SmartyML.php:59-67 | the field assignments once validation has passed, which establish the invariant |
| `SmartyMl.SmartyML.GetLanguage` | SmartyML.php:143-146 | the current language is always one of the allowed ones |
| `SmartyMl.SmartyML.SetLanguage` | SmartyML.php:270-281 | None resolves to the default. A code outside the allowed list throws `InvalidLanguage` and changes nothing. An allowed code becomes current and is bound as template variable `lang`. The invariant is kept |
| `SmartyMl.MlCacheCompileId` | SmartyML.php:94-97 | the definition of `mlCacheCompileId`; its properties are stated by `MlCacheCompileIdInjective`, `MlCacheCompileIdSeparatesLanguages` and `MlCacheCompileIdHyphenCollision` |
| `SmartyMl.HostIds` | SmartyML.php:117-118 | the definition of the ids `display`, `fetch` and `isCached` pass on (the argument, else the object's own id, prefixed); the methods `Display`, `Fetch` and `IsCached` state that all three use it |
| `SmartyMl.MlCacheCompileIdInjective` | SmartyML.php:94-97 | for a fixed id, different languages give different composite ids |
| `SmartyMl.MlCacheCompileIdSeparatesLanguages` | SmartyML.php:94-97 | when language codes contain no `-`, composite ids of different languages differ for any two ids |
| `SmartyMl.MlCacheCompileIdHyphenCollision` | SmartyML.php:94-97 | when a language code may contain `-`, two different languages can share a composite id: `language` with id `suffix-id` and `language-suffix` with id `id` |
| `SmartyMl.Put` | SmartyML.php:81 | the definition of the PHP array assignment `$this->cached_variables[$tpl_var] = …` on the ordered list; `PutOverwrites` states its properties |
| `SmartyMl.PutOverwrites` | SmartyML.php:81 | after storing a pending variable: the name gives the new entry, every other name gives its old entry, names stay distinct, and the list grows only for a new name |
| `SmartyMl.SmartyML.AssignML` | SmartyML.php:79-83 | `assignML` records the value and its nocache flag under the name, overwriting an earlier entry of that name and leaving the others alone |
| `SmartyMl.Translated` | SmartyML.php:107-110 | the definition of the `is_string` branch: a string value is rewritten, any other is kept; `FlushCalls` and `FlushKeepsNonStrings` state its use |
| `SmartyMl.FlushCalls` | SmartyML.php:106-113 | one `assign` per pending variable, in order, with the variable's name, its translated value and its nocache flag |
| `SmartyMl.FlushKeepsNonStrings` | SmartyML.php:107-112 | values that are not strings are passed on unchanged, together with their nocache flag |
| `SmartyMl.LoadFile` | SmartyML.php:233-260 | the definition of what `lang_load` produces from the file system; the method `SmartyML.LangLoad` states its effect and is proved over the `BuildTable` loop |
| `SmartyMl.SmartyML.LangDecode` | SmartyML.php:221-226 | the definition of the registered pre-filter: the rewriter over the current table; its properties are those of `Rewriter.Decode` |
| `SmartyMl.SmartyML.LangFile` | SmartyML.php:235 | the definition of the locale file path `locales_dir . language . '.txt'`; the method `SmartyML.LangLoad` states what is loaded from it |
| `SmartyMl.SmartyML.LangLoad` | SmartyML.php:233-260 | the table is replaced wholesale by the parsed one; on either error it throws and the old table survives |
| `SmartyMl.SmartyML.FlushPending` | SmartyML.php:106-113 | the loop over the pending variables makes exactly the `FlushCalls` sequence of calls |
| `SmartyMl.SmartyML.Display` | SmartyML.php:100-122 | `display` loads the table. If that fails it throws before any call to Smarty. Otherwise it flushes the pending variables through the new table and calls `parent::display` with `language-(cache_id ?? this.cache_id)` and `language-(compile_id ?? this.compile_id)` |
| `SmartyMl.SmartyML.Fetch` | SmartyML.php:125-134 | `fetch` calls `parent::fetch` with the same language-prefixed ids as `display` |
| `SmartyMl.SmartyML.IsCached` | SmartyML.php:195-205 | `isCached` returns false without calling Smarty when caching is off. Otherwise it returns Smarty's answer for the same ids that `display` uses |
| `SmartyMlLegacy.Keep` | SmartyML.class.php:83 | the definition of the legacy row filter; `KeepsWhatNewerDrops` and `RowAgreesWithNewerLoader` compare it with the newer one |
| `SmartyMlLegacy.ParseRow` | SmartyML.class.php:85-93 | a row with `=` gives an `=`-free key and a non-null value; key + `"="` + value, followed by `"\n"` when the row ends with one, gives back the row. A row without `=` gives the whole row as key with a null value |
| `SmartyMlLegacy.RowAgreesWithNewerLoader` | SmartyML.class.php:83-93 | a row the newer filter accepts is kept by the legacy filter and parsed to the same key and value |
| `SmartyMlLegacy.BuildTable` | SmartyML.class.php:79-95 | the `foreach` loop builds the same table as the fold `ParseLines` |
| `SmartyMlLegacy.ParseLines` | SmartyML.class.php:79-95 | the definition of the legacy table as a fold over the kept rows; `BuildTable` is proved equal to it, and `AgreesWithNewerLoader` and `NullRowHidesKey` state its properties |
| `SmartyMlLegacy.Visible` | SmartyML.class.php:46 | the definition of the entries `isset` accepts (those with a non-null value); `LangCompileIsLookup` and `NullRowHidesKey` state what that means for lookups |
| `SmartyMlLegacy.LangCompile` | SmartyML.class.php:44-54 | the definition of `lang_compile`; `LangCompileIsLookup` states that it is the rewriter's lookup on the visible entries |
| `SmartyMlLegacy.LangDecode` | SmartyML.class.php:66-69 | the definition of the legacy `lang_decode`; its properties are stated by `LangDecodePlaceholder` |
| `SmartyMlLegacy.LangCompileIsLookup` | SmartyML.class.php:44-54 | `lang_compile` returns the stored translation when it is set and `""` otherwise, which is the rewriter's lookup on the visible entries |
| `SmartyMlLegacy.LangDecodePlaceholder` | SmartyML.class.php:66-69 | `lang_decode` replaces a leading placeholder with `lang_compile` of its key, in the same single pass |
| `SmartyMlLegacy.AgreesWithNewerLoader` | SmartyML.class.php:80-96 | on a file whose rows all pass the newer filter, both versions load the same translations |
| `SmartyMlLegacy.NullRowHidesKey` | SmartyML.class.php:85-93 | a kept row without `=` stores null under the whole row. After it, that key is no longer visible and `lang_compile` gives `""` for it, whatever an earlier row stored |
| `SmartyMlLegacy.KeepsWhatNewerDrops` | SmartyML.class.php:83 | the legacy filter keeps a long `//` row with `=` (stored under a key starting with `//`) and the blank line `"\n"` (stored as null). The newer filter drops both |
| `SmartyMlLegacy.ProbeIds` | SmartyML.class.php:189-193 | the definition of the ids `is_cached` passes on; `ProbeDiffersFromFetch`, `ProbeWithoutCompileIdMatchesFetch` and the method `SmartyML.IsCached` state their properties |
| `SmartyMlLegacy.FetchIds` | SmartyML.class.php:168-169 | the definition of the ids `fetch` passes on; the method `SmartyML.Fetch` uses it, and `ProbeDiffersFromFetch` and `ProbeWithoutCompileIdMatchesFetch` compare it with `ProbeIds` |
| `SmartyMlLegacy.ProbeDiffersFromFetch` | SmartyML.class.php:168-191 | with an explicit compile id, the compile id `is_cached` asks about is never the one `fetch` renders with |
| `SmartyMlLegacy.ProbeWithoutCompileIdMatchesFetch` | SmartyML.class.php:164-193 | without a compile id, `is_cached` probes the ids `fetch` renders with exactly when the object's own compile id is null or `""` |
| `SmartyMlLegacy.Normalise` | SmartyML.class.php:143-147 | the definition of the constructor's wrapping of `$smarty_lang_enable`; `NormaliseWrittenBack` states its properties |
| `SmartyMlLegacy.NormaliseWrittenBack` | SmartyML.class.php:143-147 | normalising the list written back to the global gives the same languages again, so a later construction stores what this one did |
| `SmartyMlLegacy.LoadFile` | SmartyML.class.php:72-102 | the definition of what the legacy `lang_load` produces from the file system; the method `SmartyML.LangLoad` states its effect and is proved over the `BuildTable` loop |
| `SmartyMlLegacy.SmartyML.constructor` | SmartyML.class.php:13-28 | the initial static state: languages `["en"]`, language `""` (the value `getLanguage` returns before any language is set), and no translations |
| `SmartyMlLegacy.SmartyML.GetLanguage` | SmartyML.class.php:25-28 | the definition of `getLanguage`: the current language, `""` before any is set (see the constructor) |
| `SmartyMlLegacy.SmartyML.SetLanguage` | SmartyML.class.php:113-132 | None installs the global default without validation. A code outside `$languages` throws and leaves the language unchanged. An allowed code becomes current |
| `SmartyMlLegacy.SmartyML.Construct` | SmartyML.class.php:135-152 | stores the enabled languages, always wrapped as a list, and writes that list back to the global (`enableAfter`), then sets the language. The pre-filter is registered only if that succeeds; the stored languages stay either way |
| `SmartyMlLegacy.SmartyML.LangFile` | SmartyML.class.php:75 | the definition of the locale file path `$smarty_lang_dir . language . '.txt'`; the method `SmartyML.LangLoad` states what is loaded from it |
| `SmartyMlLegacy.SmartyML.LangLoad` | SmartyML.class.php:72-102 | the table is replaced wholesale by the loaded one; a missing file throws and the old table survives |
| `SmartyMlLegacy.SmartyML.Display` | SmartyML.class.php:155-161 | `display` loads the table, then calls `parent::display` with the ids unchanged; a failed load throws before that call |
| `SmartyMlLegacy.SmartyML.Fetch` | SmartyML.class.php:164-173 | `fetch` sets both ids to `language-compile_id`, discarding the caller's cache id |
| `SmartyMlLegacy.SmartyML.IsCached` | SmartyML.class.php:184-196 | `is_cached` returns false without calling Smarty when caching is off. Otherwise it returns Smarty's answer for `ProbeIds` |

## Left out

- **Smarty itself.** The parent class is not modelled: its constructor
  (`parent::__construct`, `$this->Smarty()`), rendering, caching and
  filter application. Only the calls made on it are recorded. What
  `parent::fetch` returns (the rendered string) is the host's, so
  `Fetch` returns nothing. The `$parent` argument and the legacy
  `$_smarty_display` flag are not modelled.
- **The pre-filter's use.** `SmartyML.LangDecode` is the function that
  gets registered as the filter. When Smarty applies it during
  compilation is Smarty's business.
- **`initBySmartyMlConfig`.** It only forwards configuration to Smarty
  setters.
- **`getLanguages` and `getValidLanguages`.** They only return the
  `languages` field, which the model exposes directly.
- **File-system I/O.** It is replaced by the `FileSystem` map and the
  path built as `dir + language + ".txt"`. Exception messages are
  reduced to the `Error` constructors.
- **Encodings.** PHP's byte and multibyte length functions are not
  distinguished: strings are sequences of characters.
- **Loose PHP comparison.** The legacy `in_array` uses loose comparison;
  the model uses string equality. The undefined-index and
  `substr(null)` notices in the legacy loader are left out; only the
  null value they produce is kept.
- **Ids of other PHP types.** Cache and compile ids are modelled as
  optional strings. An id of another type would be converted to a
  string by the concatenation.
- **`assignML` chaining.** It returns `$this`, which the model does not.
- **Static state shared between instances.** In the legacy class,
  several instances share the same static fields. Here each object has
  its own copy. The legacy `$translations` starts as null, which is
  modelled as an empty table, since `isset` treats the two alike.
- **Concurrency.** None: the source is single-threaded.
