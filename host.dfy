/**
 * What the multilingual layer sees of its surroundings: the template engine
 * it extends (recorded as the calls made on it), the values bound as
 * template variables, the file system holding the locale files, and the
 * exceptions it throws.
 */
module Host {
  import opened Wrappers

  /**
   * A PHP value bound as a template variable.  Only strings are told apart,
   * because only they are translated; `Other` stands for any other value
   * (number, array, object), identified by an opaque tag.
   */
  datatype Value = Null | Str(text: string) | Other(tag: nat)

  /**
   * One call delegated to the template engine (the parent class).  The
   * engine's own behaviour is not part of this model: only the arguments
   * it receives are.
   */
  datatype HostCall =
    | RegisterPrefilter
    | Assign(name: string, value: Value, nocache: bool)
    | Display(template: string, cacheId: Option<string>, compileId: Option<string>)
    | Fetch(template: string, cacheId: Option<string>, compileId: Option<string>)
    | IsCached(template: string, cacheId: Option<string>, compileId: Option<string>)

  /**
   * The file system as the loaders see it: a path that is not a key does
   * not exist; a path mapped to `None` exists but cannot be read; otherwise
   * the file's lines, each with its line terminator except possibly the
   * last, as PHP's `file()` gives them.
   */
  type FileSystem = map<string, Option<seq<string>>>

  /** The exceptions the multilingual layer throws. */
  datatype Error =
    | InvalidDefaultLanguage(code: string)
    | InvalidLanguage(code: string)
    | FileNotFound(path: string)
    | FileUnreadable(path: string)
}
