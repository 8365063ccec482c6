/**
 * `generate_image` of the dict-based Python script: inputs are written only
 * through declared dotted paths (no search), a missing paths mapping or an
 * undeclared input is an error, and the path mapping may come from a sidecar
 * file named after the template.  Output files are named without an index.
 */
module PyGenerate {

  import opened Wrappers
  import opened Json
  import Dotted
  import PyPath
  import Loader
  import Monitor
  import Outputs

  /** The `inputs` argument: None, a bare prompt string, or a dict of named inputs. */
  datatype PyInputs = NoInputs | PromptText(text: string) | Dict(members: seq<Member>)

  /** The `paths` argument: None, a bare prompt path, or a dict from input names to dotted paths. */
  datatype PyPaths = NoPaths | PromptPath(path: string) | PathDict(paths: map<string, string>)

  datatype GenerateError =
    | NoTemplate                                  // the template file cannot be opened
    | MissingPaths                                // "Paths must be provided when inputs are specified"
    | KeyNotInPaths(key: string)                  // "Path for input '<key>' was not found in paths"
    | LookupFailed(key: string, cause: PyPath.PyError)

  /** A bare string stands for the single input named `prompt`. */
  function InputMembers(inputs: PyInputs): (r: seq<Member>)
    ensures inputs.NoInputs? ==> r == []
    ensures inputs.PromptText? ==> r == [Member("prompt", JStr(inputs.text))]
    ensures inputs.Dict? ==> r == inputs.members
  {
    match inputs
    case NoInputs => []
    case PromptText(s) => [Member("prompt", JStr(s))]
    case Dict(ms) => ms
  }

  // ---------------------------------------------------------------------------
  // The sidecar path file

  /** The position of the last '.' of s, if any. */
  function LastDot(s: string): (r: Option<nat>)
    ensures r.None? <==> '.' !in s
    ensures r.Some? ==> r.value < |s| && s[r.value] == '.' && '.' !in s[r.value + 1..]
  {
    if s == [] then None
    else if s[|s| - 1] == '.' then Some(|s| - 1)
    else
      var r := LastDot(s[..|s| - 1]);
      LastDotExtend(s, r);
      r
  }

  /** A last dot of all but the final character, which is not a dot, is the last dot of s. */
  lemma LastDotExtend(s: string, r: Option<nat>)
    requires s != [] && s[|s| - 1] != '.'
    requires r.None? <==> '.' !in s[..|s| - 1]
    requires r.Some? ==> r.value < |s| - 1 && s[..|s| - 1][r.value] == '.' && '.' !in s[..|s| - 1][r.value + 1..]
    ensures r.None? <==> '.' !in s
    ensures r.Some? ==> r.value < |s| && s[r.value] == '.' && '.' !in s[r.value + 1..]
  {
    assert s == s[..|s| - 1] + [s[|s| - 1]];
    if r.Some? {
      assert s[r.value + 1..] == s[..|s| - 1][r.value + 1..] + [s[|s| - 1]];
    }
  }

  /** `s.rsplit('.', 1)[0]`: everything before the last '.', or s when it has none. */
  function BeforeLastDot(s: string): (r: string)
    ensures '.' !in s ==> r == s
    ensures '.' in s ==> |r| < |s| && r == s[..|r|] && s[|r|] == '.' && '.' !in s[|r| + 1..]
  {
    match LastDot(s)
    case None => s
    case Some(p) => s[..p]
  }

  /** The sidecar file the script looks for next to the template. */
  function SidecarName(promptFile: string): string
  {
    BeforeLastDot(promptFile) + ".paths.json"
  }

  /**
   * The paths mapping in use: a bare path stands for the `prompt` input; with
   * no mapping given, the sidecar's mapping if that file exists.
   */
  function ResolvePaths(paths: PyPaths, promptFile: string, sidecars: map<string, map<string, string>>): (r: Option<map<string, string>>)
    ensures paths.PathDict? ==> r == Some(paths.paths)
    ensures paths.PromptPath? ==> r == Some(map["prompt" := paths.path])
    ensures paths.NoPaths? ==> (r.Some? <==> SidecarName(promptFile) in sidecars)
    ensures paths.NoPaths? && r.Some? ==> r.value == sidecars[SidecarName(promptFile)]
  {
    match paths
    case PathDict(m) => Some(m)
    case PromptPath(p) => Some(map["prompt" := p])
    case NoPaths =>
      var name := SidecarName(promptFile);
      if name in sidecars then Some(sidecars[name]) else None
  }

  /**
   * The two clients derive the same sidecar name exactly when the name has no
   * '.', or its text after the last '.' is non-empty and has no '/'.  A dot in
   * a directory name or a trailing dot makes them differ.
   */
  lemma SidecarNamesAgree(s: string)
    ensures Loader.SidecarName(s) == SidecarName(s) <==>
              (LastDot(s).None? || (LastDot(s).value + 1 < |s| && '/' !in s[LastDot(s).value + 1..]))
  {
    SuffixCancel(Loader.StripExtension(s), BeforeLastDot(s), ".paths.json");
    match LastDot(s)
    case None =>
      StripNoDot(s);
    case Some(p) =>
      if p + 1 < |s| && '/' !in s[p + 1..] {
        StripAtLastDot(s, p);
      } else {
        StripKeepsAll(s, p);
      }
  }

  lemma StripNoDot(s: string)
    requires '.' !in s
    ensures Loader.StripExtension(s) == s
  {
    forall k | 0 <= k <= |s| ensures !Loader.IsExtension(s[k..]) {
      if k < |s| { assert s[k..][0] == s[k]; }
    }
  }

  lemma StripAtLastDot(s: string, p: nat)
    requires p < |s| && s[p] == '.' && '.' !in s[p + 1..]
    requires p + 1 < |s| && '/' !in s[p + 1..]
    ensures Loader.StripExtension(s) == s[..p]
  {
    var tail := s[p + 1..];
    assert Loader.IsExtension(s[p..]) by {
      forall i | 1 <= i < |s[p..]| ensures s[p..][i] != '.' && s[p..][i] != '/' {
        assert s[p..][i] == tail[i - 1];
      }
    }
    var js := Loader.StripExtension(s);
    var n := |js|;
    assert Loader.IsExtension(s[n..]);
    assert s[n] == s[n..][0] == '.';
    assert forall k :: p < k < |s| ==> s[k] == tail[k - p - 1];
    assert forall k :: n < k < |s| ==> s[k] == s[n..][k - n];
    assert n == p;
  }

  lemma StripKeepsAll(s: string, p: nat)
    requires p < |s| && s[p] == '.' && '.' !in s[p + 1..]
    requires !(p + 1 < |s| && '/' !in s[p + 1..])
    ensures Loader.StripExtension(s) == s
  {
    var tail := s[p + 1..];
    forall k | 0 <= k <= |s| ensures !Loader.IsExtension(s[k..]) {
      if k < p {
        assert s[k..][p - k] == '.';
      } else if k == p && p + 1 < |s| {
        var i :| 0 <= i < |tail| && tail[i] == '/';
        assert s[k..][i + 1] == '/';
      } else if p < k < |s| {
        assert s[k..][0] == tail[k - p - 1];
      }
    }
  }

  lemma SuffixCancel(a: string, b: string, t: string)
    ensures a + t == b + t <==> a == b
  {
    if a + t == b + t {
      assert |a| == |b|;
      assert a == (a + t)[..|a|];
      assert b == (b + t)[..|b|];
    }
  }

  /**
   * A dot inside a directory name, as in `v1.2/default`: the JavaScript client
   * keeps the whole name, the Python script cuts it at that dot.
   */
  lemma SidecarDirectoryDot(s: string, p: nat)
    requires p + 1 < |s| && s[p] == '.' && '.' !in s[p + 1..] && '/' in s[p + 1..]
    ensures Loader.SidecarName(s) == s + ".paths.json"
    ensures SidecarName(s) == s[..p] + ".paths.json"
  {
    StripKeepsAll(s, p);
    LastDotAt(s, p);
  }

  /** A '.' with none after it is the last one. */
  lemma LastDotAt(s: string, p: nat)
    requires p < |s| && s[p] == '.' && '.' !in s[p + 1..]
    ensures LastDot(s) == Some(p)
  {
    var q := LastDot(s).value;
    assert forall k :: p < k < |s| ==> s[k] == s[p + 1..][k - p - 1];
    assert forall k :: q < k < |s| ==> s[k] == s[q + 1..][k - q - 1];
    assert q == p;
  }

  // ---------------------------------------------------------------------------
  // Writing the inputs

  /** Every input in order through its declared path; the first failure ends the loop. */
  function ApplyAll(data: Json, paths: Option<map<string, string>>, ms: seq<Member>): Result<Json, GenerateError>
    decreases |ms|
  {
    if ms == [] then Ok(data)
    else if paths.None? then Err(MissingPaths)
    else if ms[0].key !in paths.value then Err(KeyNotInPaths(ms[0].key))
    else
      match PyPath.SetPath(data, Dotted.Split(paths.value[ms[0].key]), ms[0].value)
      case Err(e) => Err(LookupFailed(ms[0].key, e))
      case Ok(d) => ApplyAll(d, paths, ms[1..])
  }

  /** The first input of a non-empty list, written out. */
  lemma ApplyUnfold(data: Json, paths: Option<map<string, string>>, ms: seq<Member>)
    requires ms != []
    ensures paths.None? ==> ApplyAll(data, paths, ms) == Err(MissingPaths)
    ensures paths.Some? && ms[0].key !in paths.value ==> ApplyAll(data, paths, ms) == Err(KeyNotInPaths(ms[0].key))
    ensures paths.Some? && ms[0].key in paths.value ==>
              var s := PyPath.SetPath(data, Dotted.Split(paths.value[ms[0].key]), ms[0].value);
              (s.Err? ==> ApplyAll(data, paths, ms) == Err(LookupFailed(ms[0].key, s.error)))
              && (s.Ok? ==> ApplyAll(data, paths, ms) == ApplyAll(s.value, paths, ms[1..]))
  {
  }

  /** The loop over `inputs`: check the mapping, then walk the path and assign. */
  method ApplyInputs(data: Json, paths: Option<map<string, string>>, inputs: PyInputs) returns (r: Result<Json, GenerateError>)
    ensures r == ApplyAll(data, paths, InputMembers(inputs))
    ensures inputs.NoInputs? ==> r == Ok(data)
  {
    var rest := InputMembers(inputs);
    var d := data;
    while rest != []
      invariant ApplyAll(data, paths, InputMembers(inputs)) == ApplyAll(d, paths, rest)
      decreases |rest|
    {
      ApplyUnfold(d, paths, rest);
      if paths.None? {
        return Err(MissingPaths);
      }
      var key := rest[0].key;
      if key !in paths.value {
        return Err(KeyNotInPaths(key));
      }
      var s := PyPath.SetPath(d, Dotted.Split(paths.value[key]), rest[0].value);
      if s.Err? {
        return Err(LookupFailed(key, s.error));
      }
      d := s.value;
      rest := rest[1..];
    }
    return Ok(d);
  }

  /** Handling a + b is handling a, then b on the document a left. */
  lemma {:induction false} ApplySequential(data: Json, paths: Option<map<string, string>>, a: seq<Member>, b: seq<Member>)
    ensures ApplyAll(data, paths, a + b) ==
              match ApplyAll(data, paths, a)
              case Err(e) => Err(e)
              case Ok(d) => ApplyAll(d, paths, b)
    decreases |a|
  {
    if a == [] {
      assert a + b == b;
    } else {
      assert (a + b)[0] == a[0] && (a + b)[1..] == a[1..] + b;
      if paths.Some? && a[0].key in paths.value {
        var s := PyPath.SetPath(data, Dotted.Split(paths.value[a[0].key]), a[0].value);
        if s.Ok? {
          ApplySequential(s.value, paths, a[1..], b);
        }
      }
    }
  }

  /**
   * No inputs need no mapping; any input without a mapping is an error; and
   * on success every input has a declared path.
   */
  lemma {:induction false} ApplyNeedsPaths(data: Json, paths: Option<map<string, string>>, ms: seq<Member>)
    ensures ms == [] ==> ApplyAll(data, paths, ms) == Ok(data)
    ensures ms != [] && paths.None? ==> ApplyAll(data, paths, ms) == Err(MissingPaths)
    ensures ApplyAll(data, paths, ms).Ok? && ms != [] ==>
              paths.Some? && forall k :: 0 <= k < |ms| ==> ms[k].key in paths.value
    decreases |ms|
  {
    if ms != [] && paths.Some? && ms[0].key in paths.value {
      var s := PyPath.SetPath(data, Dotted.Split(paths.value[ms[0].key]), ms[0].value);
      if s.Ok? {
        ApplyNeedsPaths(s.value, paths, ms[1..]);
        if ApplyAll(data, paths, ms).Ok? {
          forall k | 0 <= k < |ms| ensures ms[k].key in paths.value {
            if k > 0 { assert ms[k] == ms[1..][k - 1]; }
          }
        }
      }
    }
  }

  /** The error for an undeclared input names the first input, in order, that has no path. */
  lemma {:induction false} UndeclaredNamed(data: Json, paths: Option<map<string, string>>, ms: seq<Member>, key: string)
    requires ApplyAll(data, paths, ms) == Err(KeyNotInPaths(key))
    ensures paths.Some?
    ensures exists i :: 0 <= i < |ms| && ms[i].key == key && key !in paths.value
                        && forall j :: 0 <= j < i ==> ms[j].key in paths.value
    decreases |ms|
  {
    if ms[0].key == key && key !in paths.value {
      assert ms[0].key == key;
    } else {
      var s := PyPath.SetPath(data, Dotted.Split(paths.value[ms[0].key]), ms[0].value);
      UndeclaredNamed(s.value, paths, ms[1..], key);
      var i :| 0 <= i < |ms[1..]| && ms[1..][i].key == key && key !in paths.value
               && forall j :: 0 <= j < i ==> ms[1..][j].key in paths.value;
      assert forall j :: 0 <= j < i + 1 ==> ms[j].key in paths.value by {
        forall j | 0 <= j < i + 1 ensures ms[j].key in paths.value {
          if j > 0 { assert ms[j] == ms[1..][j - 1]; }
        }
      }
      assert ms[i + 1].key == key;
    }
  }

  /**
   * One input: its path reads back the value written, and every path that
   * branches away from it reads as before.
   */
  lemma ApplyOne(data: Json, paths: map<string, string>, m: Member, q: seq<string>, i: nat)
    requires ApplyAll(data, Some(paths), [m]).Ok?
    ensures m.key in paths
    ensures PyPath.GetPath(ApplyAll(data, Some(paths), [m]).value, Dotted.Split(paths[m.key])) == Ok(m.value)
    ensures var p := Dotted.Split(paths[m.key]);
      i < |p| && i < |q| && p[..i] == q[..i] && p[i] != q[i] ==>
        PyPath.GetPath(ApplyAll(data, Some(paths), [m]).value, q) == PyPath.GetPath(data, q)
  {
    var p := Dotted.Split(paths[m.key]);
    assert [m][1..] == [];
    PyPath.GetAfterSet(data, p, m.value);
    if i < |p| && i < |q| && p[..i] == q[..i] && p[i] != q[i] {
      PyPath.SetPathFrame(data, p, q, i, m.value);
    }
  }

  // ---------------------------------------------------------------------------
  // The whole call, network aside

  /** The document submitted and, once the job completes, the names of the files written. */
  datatype Run = Run(document: Json, files: Option<seq<string>>)

  /**
   * `generate_image`: load the template, resolve the mapping, write the
   * inputs, wait for completion among the frames received, then name one file
   * per image.  The server's job id, frames and manifest, the image fetch, the
   * clock and the random suffix are parameters.
   */
  method GenerateImage(inputs: PyInputs, promptFile: string, paths: PyPaths,
                       templates: map<string, Json>, sidecars: map<string, map<string, string>>,
                       promptId: string, frames: seq<Monitor.Frame>, outputs: seq<Outputs.NodeOutput>,
                       fetch: Outputs.ImageRef -> Outputs.Bytes, now: Outputs.Clock, random: nat)
    returns (r: Result<Run, GenerateError>)
    ensures promptFile !in templates ==> r == Err(NoTemplate)
    ensures promptFile in templates ==>
              var applied := ApplyAll(templates[promptFile], ResolvePaths(paths, promptFile, sidecars), InputMembers(inputs));
              (r.Err? <==> applied.Err?)
              && (r.Err? ==> r.error == applied.error)
              && (r.Ok? ==> r.value.document == applied.value)
    ensures r.Ok? ==>
              (r.value.files.None? <==> forall k :: 0 <= k < |frames| ==> !Monitor.IsCompletion(frames[k], promptId))
    ensures r.Ok? && r.value.files.Some? ==>
              r.value.files.value == Outputs.NamesWithoutIndex(Outputs.Gathered(outputs, fetch), Outputs.Prefix(now, random))
  {
    if promptFile !in templates {
      return Err(NoTemplate);
    }
    var mapping := ResolvePaths(paths, promptFile, sidecars);
    var applied := ApplyInputs(templates[promptFile], mapping, inputs);
    if applied.Err? {
      return Err(applied.error);
    }
    var files := Outputs.CollectFiles(promptId, frames, outputs, fetch, Outputs.Prefix(now, random));
    return Ok(Run(applied.value, files));
  }
}
