/**
 * The wait for completion in `generateImage` (and in both Python scripts):
 * read socket frames until the server reports that this job has finished.
 * The socket is given as the finite sequence of frames it delivers.
 */
module Monitor {

  import opened Wrappers

  /** A parsed status event `{type, data: {node, prompt_id}}`. */
  datatype Message = Message(kind: string, node: Option<string>, promptId: string)

  /** A socket frame: binary preview data, or a text frame carrying an event. */
  datatype Frame = Binary(bytes: seq<bv8>) | Text(message: Message)

  /** "Execution finished" for job promptId: an `executing` event with a null node and this job's id. */
  predicate IsCompletion(f: Frame, promptId: string)
  {
    f.Text? && f.message.kind == "executing" && f.message.node.None? && f.message.promptId == promptId
  }

  /**
   * The index of the frame that ends the wait: the first completion event for
   * promptId; binary frames, other event types and events for other jobs are
   * passed over. None when the frames run out first (the source then waits forever).
   */
  method WaitForCompletion(frames: seq<Frame>, promptId: string) returns (r: Option<nat>)
    ensures r.Some? ==> r.value < |frames| && IsCompletion(frames[r.value], promptId)
    ensures r.Some? ==> forall k :: 0 <= k < r.value ==> !IsCompletion(frames[k], promptId)
    ensures r.None? ==> forall k :: 0 <= k < |frames| ==> !IsCompletion(frames[k], promptId)
  {
    var i := 0;
    while i < |frames|
      invariant 0 <= i <= |frames|
      invariant forall k :: 0 <= k < i ==> !IsCompletion(frames[k], promptId)
    {
      var out := frames[i];
      if out.Text? {
        var message := out.message;
        if message.kind == "executing" {
          if message.node.None? && message.promptId == promptId {
            return Some(i);
          }
        }
      }
      i := i + 1;
    }
    return None;
  }
}
