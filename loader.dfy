/**
 * `ComfyUI.fetchPromptFile`: the template file and its optional sidecar path
 * map. The file system is a parameter (names to already-parsed contents); a
 * file that cannot be read gives null, never an error.
 */
module Loader {

  import opened Wrappers
  import opened Json

  /** A trailing extension as `/\.[^/.]+$/` matches it: a dot, then at least one character, none of them '.' or '/'. */
  predicate IsExtension(e: string)
  {
    |e| >= 2 && e[0] == '.' && forall i :: 1 <= i < |e| ==> e[i] != '.' && e[i] != '/'
  }

  /** Where the extension of s starts, scanning back from i over characters that are neither '.' nor '/'. */
  function ExtensionStart(s: string, i: nat): (r: Option<nat>)
    requires i <= |s|
    requires forall k :: i <= k < |s| ==> s[k] != '.' && s[k] != '/'
    ensures r.Some? ==> r.value < |s| && IsExtension(s[r.value..])
    ensures r.None? ==> forall k :: 0 <= k <= |s| ==> !IsExtension(s[k..])
  {
    if i == 0 then None
    else if s[i - 1] == '/' then
      assert forall k :: 0 <= k <= |s| ==> !IsExtension(s[k..]) by {
        forall k | 0 <= k <= |s| ensures !IsExtension(s[k..]) {
          if k < i - 1 { assert s[k..][i - 1 - k] == '/'; }
        }
      }
      None
    else if s[i - 1] == '.' then
      if i < |s| then Some(i - 1)
      else
        assert forall k :: 0 <= k <= |s| ==> !IsExtension(s[k..]) by {
          forall k | 0 <= k <= |s| ensures !IsExtension(s[k..]) {
            if k < i - 1 { assert s[k..][i - 1 - k] == '.'; }
          }
        }
        None
    else ExtensionStart(s, i - 1)
  }

  /**
   * `promptFilename.replace(/\.[^/.]+$/, "")`: s without its trailing
   * extension, or s itself when it has none.
   */
  function StripExtension(s: string): (r: string)
    ensures r == s <==> forall k :: 0 <= k <= |s| ==> !IsExtension(s[k..])
    ensures r != s ==> |r| < |s| && r == s[..|r|] && IsExtension(s[|r|..])
  {
    match ExtensionStart(s, |s|)
    case Some(k) => s[..k]
    case None => s
  }

  /** The sidecar file derived from the template's name. */
  function SidecarName(promptFilename: string): string
  {
    StripExtension(promptFilename) + ".paths.json"
  }

  /**
   * The second argument of `fetchPromptFile`: `true`, which is also its default
   * when the argument is left out (derive the sidecar's name), a file name, or
   * a falsy value such as `null` or `false` (read no path map).
   */
  datatype PathsFile = Derive | Named(name: string) | Falsy

  /** `fetchFile`: a falsy name or a file that cannot be read gives null. */
  function FetchFile<T>(files: map<string, T>, name: string): (r: Option<T>)
    ensures r.Some? <==> name != "" && name in files
    ensures r.Some? ==> r.value == files[name]
  {
    if name != "" && name in files then Some(files[name]) else None
  }

  datatype Loaded = Loaded(promptData: Json, paths: Option<map<string, string>>)

  /** The name of the path-map file `fetchPromptFile` reads ("" when there is none to read). */
  function PathsFileName(promptFilename: string, pathsFile: PathsFile): string
  {
    match pathsFile
    case Derive => SidecarName(promptFilename)
    case Named(n) => n
    case Falsy => ""
  }

  /**
   * Load the template (null when missing) and the path map (null when
   * missing), deriving the sidecar's name only when asked to.
   */
  function FetchPromptFile(promptFilename: string, pathsFile: PathsFile,
                           templates: map<string, Json>, pathMaps: map<string, map<string, string>>): (r: Loaded)
    ensures r.promptData == (if promptFilename != "" && promptFilename in templates then templates[promptFilename] else JNull)
    ensures pathsFile.Falsy? ==> r.paths.None?
    ensures pathsFile.Derive? ==> r.paths == FetchFile(pathMaps, SidecarName(promptFilename))
    ensures pathsFile.Named? ==> r.paths == FetchFile(pathMaps, pathsFile.name)
  {
    var raw := FetchFile(templates, promptFilename);
    Loaded(if raw.Some? then raw.value else JNull, FetchFile(pathMaps, PathsFileName(promptFilename, pathsFile)))
  }
}
