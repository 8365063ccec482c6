/**
 * `generate_image` of the single-path Python script: the prompt text, when
 * given, is written at one dotted path (by default the text input of node 6);
 * nothing else in the template changes.  Output files are named without an
 * index.
 */
module PySimple {

  import opened Wrappers
  import opened Json
  import Dotted
  import PyPath
  import Monitor
  import Outputs
  import PyGenerate

  const DefaultPromptPath := "6.inputs.text"

  datatype SimpleError =
    | NoTemplate                   // the template file cannot be opened
    | PathRequired                 // "prompt_path must be provided if prompt_text is given"
    | LookupFailed(cause: PyPath.PyError)

  /**
   * Write the prompt text at the prompt path.  No text leaves the template as
   * it is; text with a missing or empty path is an error; otherwise the
   * outcome is that of the path walk.
   */
  function SetPromptText(data: Json, promptText: Option<string>, promptPath: Option<string>): (r: Result<Json, SimpleError>)
    ensures promptText.None? ==> r == Ok(data)
    ensures promptText.Some? && (promptPath.None? || promptPath.value == "") ==> r == Err(PathRequired)
    ensures promptText.Some? && promptPath.Some? && promptPath.value != "" ==>
              (r.Ok? <==> PyPath.SetPath(data, Dotted.Split(promptPath.value), JStr(promptText.value)).Ok?)
    ensures r.Err? && r.error.LookupFailed? ==>
              r.error.cause == PyPath.SetPath(data, Dotted.Split(promptPath.value), JStr(promptText.value)).error
  {
    match promptText
    case None => Ok(data)
    case Some(text) =>
      if promptPath.None? || promptPath.value == "" then Err(PathRequired)
      else
        match PyPath.SetPath(data, Dotted.Split(promptPath.value), JStr(text))
        case Err(e) => Err(LookupFailed(e))
        case Ok(d) => Ok(d)
  }

  /**
   * After the prompt is written, its path reads the text back and every path
   * that branches away from it reads as before.
   */
  lemma PromptWritten(data: Json, text: string, path: string, q: seq<string>, i: nat)
    requires SetPromptText(data, Some(text), Some(path)).Ok?
    ensures PyPath.GetPath(SetPromptText(data, Some(text), Some(path)).value, Dotted.Split(path)) == Ok(JStr(text))
    ensures var p := Dotted.Split(path);
      i < |p| && i < |q| && p[..i] == q[..i] && p[i] != q[i] ==>
        PyPath.GetPath(SetPromptText(data, Some(text), Some(path)).value, q) == PyPath.GetPath(data, q)
  {
    var p := Dotted.Split(path);
    PyPath.GetAfterSet(data, p, JStr(text));
    if i < |p| && i < |q| && p[..i] == q[..i] && p[i] != q[i] {
      PyPath.SetPathFrame(data, p, q, i, JStr(text));
    }
  }

  /** The default path is node "6", its "inputs", its "text". */
  lemma DefaultPathSegments()
    ensures Dotted.Split(DefaultPromptPath) == ["6", "inputs", "text"]
  {
    var parts := ["6", "inputs", "text"];
    assert Dotted.Join(parts) == DefaultPromptPath;
    Dotted.SplitJoin(parts);
  }

  /**
   * `generate_image`: load the template, write the prompt, wait for completion
   * among the frames received, then name one file per image.  The server's job
   * id, frames and manifest, the image fetch, the clock and the random suffix
   * are parameters.
   */
  method GenerateImage(promptText: Option<string>, promptFile: string, promptPath: Option<string>,
                       templates: map<string, Json>,
                       promptId: string, frames: seq<Monitor.Frame>, outputs: seq<Outputs.NodeOutput>,
                       fetch: Outputs.ImageRef -> Outputs.Bytes, now: Outputs.Clock, random: nat)
    returns (r: Result<PyGenerate.Run, SimpleError>)
    ensures promptFile !in templates ==> r == Err(NoTemplate)
    ensures promptFile in templates ==>
              var written := SetPromptText(templates[promptFile], promptText, promptPath);
              (r.Err? <==> written.Err?)
              && (r.Err? ==> r.error == written.error)
              && (r.Ok? ==> r.value.document == written.value)
    ensures r.Ok? ==>
              (r.value.files.None? <==> forall k :: 0 <= k < |frames| ==> !Monitor.IsCompletion(frames[k], promptId))
    ensures r.Ok? && r.value.files.Some? ==>
              r.value.files.value == Outputs.NamesWithoutIndex(Outputs.Gathered(outputs, fetch), Outputs.Prefix(now, random))
  {
    if promptFile !in templates {
      return Err(NoTemplate);
    }
    var written := SetPromptText(templates[promptFile], promptText, promptPath);
    if written.Err? {
      return Err(written.error);
    }
    var files := Outputs.CollectFiles(promptId, frames, outputs, fetch, Outputs.Prefix(now, random));
    return Ok(PyGenerate.Run(written.value, files));
  }
}
