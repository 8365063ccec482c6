/**
 * The client object: a prompt template, an optional map from input names to
 * dotted paths, and the operation that fills a copy of the template with
 * inputs (or reads the current values back).  An input with a declared path
 * is written through that path; any other input goes to the first entry of
 * that name found by a depth-first search of the document.
 */
module Client {

  import opened Wrappers
  import opened Json
  import opened JsPath
  import Search
  import Dotted
  import Monitor
  import Outputs

  const DefaultServerAddress := "localhost:8000"

  /** What `completePrompt` is given: nothing, a bare prompt text, or an object of named inputs. */
  datatype Inputs = NoInputs | TextInput(text: string) | Fields(members: seq<Member>)

  /** Why filling the template fails: a search found no entry of that name, or a declared path could not be walked. */
  datatype PromptError = NotFound(key: string) | BadPath(key: string, cause: AccessError)

  /** An entry of the inputs object as it stands after the call. */
  datatype Entry = Entry(key: string, value: JsValue)

  /** The filled document and the inputs object after the call (read-back values in query mode). */
  datatype Completed = Completed(data: Json, inputs: seq<Entry>)

  /** The effect of one input: the document after it and the input's entry after it. */
  datatype Stepped = Stepped(data: Json, entry: Entry)

  /** A bare string stands for the single input named `text`. */
  function InputMembers(inputs: Inputs): (r: seq<Member>)
    ensures inputs.NoInputs? ==> r == []
    ensures inputs.TextInput? ==> r == [Member("text", JStr(inputs.text))]
    ensures inputs.Fields? ==> r == inputs.members
  {
    match inputs
    case NoInputs => []
    case TextInput(s) => [Member("text", JStr(s))]
    case Fields(ms) => ms
  }

  /** An input is declared when a paths object is present and has that name. */
  predicate Declared(paths: Option<map<string, string>>, key: string)
  {
    paths.Some? && key in paths.value
  }

  /** One input: search or walk the declared path, then read (query) or assign. */
  function Step(data: Json, paths: Option<map<string, string>>, m: Member, query: bool): (r: Result<Stepped, PromptError>)
    ensures r.Ok? ==> r.value.entry.key == m.key
    ensures r.Ok? && query ==> r.value.data == data
    ensures r.Ok? && !query ==> r.value.entry == Entry(m.key, Val(m.value))
    ensures r.Err? && !Declared(paths, m.key) ==> r.error == NotFound(m.key)
    ensures r.Err? && Declared(paths, m.key) ==> r.error.BadPath? && r.error.key == m.key
  {
    if !Declared(paths, m.key) then
      match Search.Search(data, m.key, m.value)
      case None => Err(NotFound(m.key))
      case Some(h) =>
        if query then Ok(Stepped(data, Entry(m.key, Val(h.previous))))
        else Ok(Stepped(h.tree, Entry(m.key, Val(m.value))))
    else
      var keys := Dotted.Split(paths.value[m.key]);
      if query then
        match GetPath(Val(data), keys)
        case Err(e) => Err(BadPath(m.key, e))
        case Ok(x) => Ok(Stepped(data, Entry(m.key, x)))
      else
        match SetPath(data, keys, m.value)
        case Err(e) => Err(BadPath(m.key, e))
        case Ok(d) => Ok(Stepped(d, Entry(m.key, Val(m.value))))
  }

  /** All inputs in order, each seeing the document the previous ones left; the first failure ends the call. */
  function CompleteFrom(data: Json, paths: Option<map<string, string>>, ms: seq<Member>, query: bool): Result<Completed, PromptError>
    decreases |ms|
  {
    if ms == [] then Ok(Completed(data, []))
    else
      var s :- Step(data, paths, ms[0], query);
      var rest :- CompleteFrom(s.data, paths, ms[1..], query);
      Ok(Completed(rest.data, [s.entry] + rest.inputs))
  }

  /** Entries already handled, put in front of the outcome of the remaining inputs. */
  function Prepend(done: seq<Entry>, r: Result<Completed, PromptError>): Result<Completed, PromptError>
  {
    match r
    case Err(e) => Err(e)
    case Ok(c) => Ok(Completed(c.data, done + c.inputs))
  }

  /** One input handled: its entry goes in front of what the rest give. */
  lemma CompleteStep(data: Json, paths: Option<map<string, string>>, ms: seq<Member>, query: bool, s: Stepped)
    requires ms != [] && Step(data, paths, ms[0], query) == Ok(s)
    ensures CompleteFrom(data, paths, ms, query) == Prepend([s.entry], CompleteFrom(s.data, paths, ms[1..], query))
  {
  }

  /** Both outcomes of the first input: a failure ends the fold, a success continues it. */
  lemma CompleteUnfold(data: Json, paths: Option<map<string, string>>, ms: seq<Member>, query: bool)
    requires ms != []
    ensures Step(data, paths, ms[0], query).Err? ==>
              CompleteFrom(data, paths, ms, query) == Err(Step(data, paths, ms[0], query).error)
    ensures Step(data, paths, ms[0], query).Ok? ==>
              var s := Step(data, paths, ms[0], query).value;
              CompleteFrom(data, paths, ms, query) == Prepend([s.entry], CompleteFrom(s.data, paths, ms[1..], query))
  {
  }

  lemma PrependEmpty(r: Result<Completed, PromptError>)
    ensures Prepend([], r) == r
  {
    if r.Ok? {
      assert [] + r.value.inputs == r.value.inputs;
    }
  }

  lemma PrependTwice(a: seq<Entry>, b: seq<Entry>, r: Result<Completed, PromptError>)
    ensures Prepend(a, Prepend(b, r)) == Prepend(a + b, r)
  {
    if r.Ok? {
      assert a + (b + r.value.inputs) == (a + b) + r.value.inputs;
    }
  }

  /** Continue an outcome with more inputs. */
  function Then(r: Result<Completed, PromptError>, paths: Option<map<string, string>>, more: seq<Member>, query: bool): Result<Completed, PromptError>
  {
    match r
    case Err(e) => Err(e)
    case Ok(c) => Prepend(c.inputs, CompleteFrom(c.data, paths, more, query))
  }

  class ComfyUI {
    const serverAddress: string
    const promptData: Json
    const paths: Option<map<string, string>>

    /** A missing or empty address falls back to the default one. */
    constructor (serverAddress: Option<string>, promptData: Json, paths: Option<map<string, string>>)
      ensures this.serverAddress == if serverAddress.Some? && serverAddress.value != "" then serverAddress.value else DefaultServerAddress
      ensures this.promptData == promptData && this.paths == paths
    {
      this.serverAddress := if serverAddress.Some? && serverAddress.value != "" then serverAddress.value else DefaultServerAddress;
      this.promptData := promptData;
      this.paths := paths;
    }

    /**
     * Fills a copy of the template with the inputs, one after the other; the
     * template itself is a value and is never changed.
     */
    method CompletePrompt(inputs: Inputs, queryValues: bool) returns (r: Result<Completed, PromptError>)
      ensures r == CompleteFrom(promptData, paths, InputMembers(inputs), queryValues)
      ensures inputs.NoInputs? ==> r == Ok(Completed(promptData, []))
    {
      var rest := InputMembers(inputs);
      var data := promptData;
      var done: seq<Entry> := [];
      PrependEmpty(CompleteFrom(data, paths, rest, queryValues));
      while rest != []
        invariant CompleteFrom(promptData, paths, InputMembers(inputs), queryValues)
                  == Prepend(done, CompleteFrom(data, paths, rest, queryValues))
        decreases |rest|
      {
        CompleteUnfold(data, paths, rest, queryValues);
        var s := Step(data, paths, rest[0], queryValues);
        if s.Err? {
          return Err(s.error);
        }
        PrependTwice(done, [s.value.entry], CompleteFrom(s.value.data, paths, rest[1..], queryValues));
        data := s.value.data;
        done := done + [s.value.entry];
        rest := rest[1..];
      }
      assert done + [] == done;
      return Ok(Completed(data, done));
    }

    /**
     * Waits for the completion message of promptId among the frames received,
     * then collects the manifest's images; None when no completion arrives.
     */
    method GenerateImage(promptId: string, frames: seq<Monitor.Frame>, outputs: seq<Outputs.NodeOutput>,
                         fetch: Outputs.ImageRef -> Outputs.Bytes)
      returns (r: Option<seq<Outputs.ImageResult>>)
      ensures r.None? <==> forall k :: 0 <= k < |frames| ==> !Monitor.IsCompletion(frames[k], promptId)
      ensures r.Some? ==> r.value == Outputs.Flattened(Outputs.Gathered(outputs, fetch))
    {
      var done := Monitor.WaitForCompletion(frames, promptId);
      if done.None? {
        return None;
      }
      var gathered := Outputs.GatherImages(outputs, fetch);
      var results := Outputs.FlattenOutputs(gathered);
      return Some(results);
    }

    /** Names every result from one prefix built from the clock reading and the random suffix. */
    method SaveImages(results: seq<Outputs.ImageResult>, now: Outputs.Clock, random: nat)
      returns (files: seq<Outputs.SavedFile>)
      ensures |files| == |results|
      ensures forall k :: 0 <= k < |results| ==>
                files[k] == Outputs.SavedFile(results[k].nodeId, results[k].index,
                                              Outputs.FileName(Outputs.Prefix(now, random), results[k].nodeId, results[k].index))
    {
      var prefix := Outputs.Prefix(now, random);
      files := Outputs.SaveImages(results, prefix);
    }
  }

  // ---------------------------------------------------------------------------
  // Properties of filling the template

  /** Handling a + b is handling a, then b on the document a left. */
  lemma {:induction false} CompleteSequential(data: Json, paths: Option<map<string, string>>, a: seq<Member>, b: seq<Member>, query: bool)
    ensures CompleteFrom(data, paths, a + b, query) == Then(CompleteFrom(data, paths, a, query), paths, b, query)
    decreases |a|
  {
    if a == [] {
      assert a + b == b;
      PrependEmpty(CompleteFrom(data, paths, b, query));
    } else {
      assert (a + b)[0] == a[0] && (a + b)[1..] == a[1..] + b;
      var s := Step(data, paths, a[0], query);
      if s.Ok? {
        CompleteSequential(s.value.data, paths, a[1..], b, query);
        var ra := CompleteFrom(s.value.data, paths, a[1..], query);
        if ra.Ok? {
          var rb := CompleteFrom(ra.value.data, paths, b, query);
          if rb.Ok? {
            assert [s.value.entry] + (ra.value.inputs + rb.value.inputs)
                == ([s.value.entry] + ra.value.inputs) + rb.value.inputs;
          }
        }
      }
    }
  }

  /** In query mode the document comes back unchanged, with one entry per input, in order. */
  lemma {:induction false} QueryKeepsTemplate(data: Json, paths: Option<map<string, string>>, ms: seq<Member>)
    requires CompleteFrom(data, paths, ms, true).Ok?
    ensures CompleteFrom(data, paths, ms, true).value.data == data
    ensures |CompleteFrom(data, paths, ms, true).value.inputs| == |ms|
    ensures forall k :: 0 <= k < |ms| ==> CompleteFrom(data, paths, ms, true).value.inputs[k].key == ms[k].key
    decreases |ms|
  {
    if ms != [] {
      QueryKeepsTemplate(data, paths, ms[1..]);
    }
  }

  /** In assign mode the inputs object comes back as it was given. */
  lemma {:induction false} ApplyKeepsInputs(data: Json, paths: Option<map<string, string>>, ms: seq<Member>)
    requires CompleteFrom(data, paths, ms, false).Ok?
    ensures |CompleteFrom(data, paths, ms, false).value.inputs| == |ms|
    ensures forall k :: 0 <= k < |ms| ==>
              CompleteFrom(data, paths, ms, false).value.inputs[k] == Entry(ms[k].key, Val(ms[k].value))
    decreases |ms|
  {
    if ms != [] {
      var s := Step(data, paths, ms[0], false);
      ApplyKeepsInputs(s.value.data, paths, ms[1..]);
    }
  }

  /**
   * An undeclared input fails exactly when no entry anywhere in the document
   * has its name; otherwise it assigns the first such entry in pre-order and
   * nothing else, or reads that entry's value.
   */
  lemma UndeclaredStep(data: Json, paths: Option<map<string, string>>, m: Member, query: bool)
    requires !Declared(paths, m.key)
    ensures Step(data, paths, m, query).Err? <==>
              forall k :: 0 <= k < |Search.Visits(data)| ==> Search.KeyAt(data, Search.Visits(data)[k]) != Some(m.key)
    ensures Step(data, paths, m, query).Ok? ==>
              var p := Search.FirstMatch(data, m.key);
              p.Some? && Search.ValueAt(data, p.value).Some?
              && (!query ==> Step(data, paths, m, query).value.data == Search.ReplaceAt(data, p.value, m.value))
              && (query ==> Step(data, paths, m, query).value.entry.value == Val(Search.ValueAt(data, p.value).value))
  {
    Search.SearchIsFirst(data, m.key, m.value);
    var vs := Search.Visits(data);
    Search.FirstMatchInSpec(data, vs, m.key);
    var p := Search.FirstMatch(data, m.key);
    if p.Some? {
      var k :| 0 <= k < |vs| && vs[k] == p.value && Search.KeyAt(data, vs[k]) == Some(m.key);
      Search.KeyValueDefined(data, p.value);
      assert p.Some? && Search.ValueAt(data, p.value).Some?;
      assert Search.Search(data, m.key, m.value).Some?;
      assert Step(data, paths, m, query).Ok?;
      assert Search.KeyAt(data, Search.Visits(data)[k]) == Some(m.key);
      assert !(forall k :: 0 <= k < |Search.Visits(data)| ==> Search.KeyAt(data, Search.Visits(data)[k]) != Some(m.key));
    } else {
      assert Search.Search(data, m.key, m.value).None?;
      assert Step(data, paths, m, query).Err?;
    }
  }

  /**
   * An undeclared input changes nothing outside the entry it matched: every
   * position that branches away from that entry keeps its key and value, so
   * later entries of the same name are left as they were.
   */
  lemma UndeclaredFrame(data: Json, paths: Option<map<string, string>>, m: Member, q: Search.Position, i: nat)
    requires !Declared(paths, m.key) && Step(data, paths, m, false).Ok?
    requires var p := Search.FirstMatch(data, m.key);
      p.Some? && i < |p.value| && i < |q| && p.value[..i] == q[..i] && p.value[i] != q[i]
    ensures Search.ValueAt(Step(data, paths, m, false).value.data, q) == Search.ValueAt(data, q)
    ensures Search.KeyAt(Step(data, paths, m, false).value.data, q) == Search.KeyAt(data, q)
  {
    UndeclaredStep(data, paths, m, false);
    Search.ReplaceAtFrame(data, Search.FirstMatch(data, m.key).value, q, i, m.value);
  }

  /** After an assignment succeeds, its path reads the value back and paths branching away are untouched. */
  lemma DeclaredAssign(data: Json, paths: Option<map<string, string>>, m: Member, q: seq<string>, i: nat)
    requires Declared(paths, m.key) && Step(data, paths, m, false).Ok?
    requires var p := Dotted.Split(paths.value[m.key]); i < |p| && i < |q| && p[..i] == q[..i] && p[i] != q[i]
    ensures GetPath(Val(Step(data, paths, m, false).value.data), Dotted.Split(paths.value[m.key])) == Ok(Val(m.value))
    ensures GetPath(Val(Step(data, paths, m, false).value.data), q) == GetPath(Val(data), q)
  {
    var p := Dotted.Split(paths.value[m.key]);
    GetAfterSet(data, p, m.value);
    SetPathFrame(data, p, q, i, m.value);
  }

  /** Whatever input can be assigned can be queried. */
  lemma AssignableIsQueryable(data: Json, paths: Option<map<string, string>>, m: Member)
    requires Step(data, paths, m, false).Ok?
    ensures Step(data, paths, m, true).Ok?
  {
    if Declared(paths, m.key) {
      SetPathReadable(data, Dotted.Split(paths.value[m.key]), m.value);
    }
  }

  /** Querying an input right after assigning it reads back the assigned value. */
  lemma QueryAfterAssign(data: Json, paths: Option<map<string, string>>, m: Member)
    requires Step(data, paths, m, false).Ok?
    ensures var d := Step(data, paths, m, false).value.data;
      Step(d, paths, m, true) == Ok(Stepped(d, Entry(m.key, Val(m.value))))
  {
    if Declared(paths, m.key) {
      GetAfterSet(data, Dotted.Split(paths.value[m.key]), m.value);
    } else {
      Search.SearchAgain(data, m.key, m.value, m.value);
    }
  }

  /** A node of the script's shape: `inputs` holding `text` and `seed`. */
  function ScriptNode(text: Json, seed: Json): Json
  {
    JObj([Member("6", JObj([Member("inputs", JObj([Member("text", text), Member("seed", seed)]))]))])
  }

  /**
   * The script's call: `text` has no declared path and is found by the search
   * inside node "6"; `seed` is written through its declared path.
   */
  lemma ScriptScenario(path: string, paths: Option<map<string, string>>, inputs: seq<Member>)
    requires path == "6.inputs.seed" && paths == Some(map["seed" := path])
    requires inputs == [Member("text", JStr("a cat")), Member("seed", JNum(42))]
    ensures CompleteFrom(ScriptNode(JStr(""), JNum(0)), paths, inputs, false)
            == Ok(Completed(ScriptNode(JStr("a cat"), JNum(42)),
                            [Entry("text", Val(JStr("a cat"))), Entry("seed", Val(JNum(42)))]))
  {
    var t0, t1, t2 := ScriptNode(JStr(""), JNum(0)), ScriptNode(JStr("a cat"), JNum(0)), ScriptNode(JStr("a cat"), JNum(42));
    var e1, e2 := Entry("text", Val(JStr("a cat"))), Entry("seed", Val(JNum(42)));
    ScenarioText(paths, t0, inputs[0]);
    ScenarioSeed(path, paths, t1, inputs[1]);
    CompleteStep(t0, paths, inputs, false, Stepped(t1, e1));
    CompleteStep(t1, paths, inputs[1..], false, Stepped(t2, e2));
    assert inputs[1..][1..] == [];
    assert CompleteFrom(t2, paths, inputs[1..][1..], false) == Ok(Completed(t2, []));
    assert [e2] + [] == [e2];
    assert [e1] + [e2] == [e1, e2];
  }

  lemma ScenarioText(paths: Option<map<string, string>>, data: Json, m: Member)
    requires paths.Some? && "text" !in paths.value
    requires data == ScriptNode(JStr(""), JNum(0)) && m == Member("text", JStr("a cat"))
    ensures Step(data, paths, m, false)
            == Ok(Stepped(ScriptNode(JStr("a cat"), JNum(0)), Entry("text", Val(JStr("a cat")))))
  {
    var cat := JStr("a cat");
    var inner0 := JObj([Member("text", JStr("")), Member("seed", JNum(0))]);
    var inner1 := JObj([Member("text", cat), Member("seed", JNum(0))]);
    var node0, node1 := JObj([Member("inputs", inner0)]), JObj([Member("inputs", inner1)]);
    var t0, t1 := JObj([Member("6", node0)]), JObj([Member("6", node1)]);
    assert ChildKey(inner0, 0) == "text" && Child(inner0, 0) == JStr("") && WithChild(inner0, 0, cat) == inner1;
    assert Search.SearchFrom(inner0, 0, "text", cat) == Some(Search.Hit(inner1, JStr("")));
    assert ChildKey(node0, 0) == "inputs" && Child(node0, 0) == inner0 && WithChild(node0, 0, inner1) == node1;
    assert Search.SearchFrom(node0, 0, "text", cat) == Some(Search.Hit(node1, JStr("")));
    assert ChildKey(t0, 0) == "6" && Child(t0, 0) == node0 && WithChild(t0, 0, node1) == t1;
    assert Search.SearchFrom(t0, 0, "text", cat) == Some(Search.Hit(t1, JStr("")));
  }

  lemma ScenarioSeed(path: string, paths: Option<map<string, string>>, data: Json, m: Member)
    requires path == "6.inputs.seed" && paths == Some(map["seed" := path])
    requires data == ScriptNode(JStr("a cat"), JNum(0)) && m == Member("seed", JNum(42))
    ensures Step(data, paths, m, false)
            == Ok(Stepped(ScriptNode(JStr("a cat"), JNum(42)), Entry("seed", Val(JNum(42)))))
  {
    SeedPathSplits();
    ScenarioSetPath();
    assert Declared(paths, "seed") && paths.value["seed"] == path;
  }

  lemma SeedPathSplits()
    ensures Dotted.Split("6.inputs.seed") == ["6", "inputs", "seed"]
  {
    var keys := ["6", "inputs", "seed"];
    assert Dotted.Join(keys) == "6.inputs.seed";
    Dotted.SplitJoin(keys);
  }

  lemma ScenarioSetPath()
    ensures SetPath(ScriptNode(JStr("a cat"), JNum(0)), ["6", "inputs", "seed"], JNum(42)) == Ok(ScriptNode(JStr("a cat"), JNum(42)))
  {
    var cat, seed := JStr("a cat"), JNum(42);
    var inner1 := JObj([Member("text", cat), Member("seed", JNum(0))]);
    var inner2 := JObj([Member("text", cat), Member("seed", seed)]);
    var node1, node2 := JObj([Member("inputs", inner1)]), JObj([Member("inputs", inner2)]);
    var keys := ["6", "inputs", "seed"];
    var ms := [Member("text", cat), Member("seed", JNum(0))];
    assert ms[1..] == [Member("seed", JNum(0))];
    assert FindMember(ms, "seed") == Some(1);
    assert PutMember(ms, "seed", seed) == [Member("text", cat), Member("seed", seed)];
    assert Write(inner1, "seed", seed) == Ok(inner2);
    assert keys[2..] == ["seed"] && keys[1..] == ["inputs", "seed"] && keys[1..][1..] == ["seed"];
    assert SetPath(inner1, keys[2..], seed) == Ok(inner2);
    assert Read(Val(node1), "inputs") == Ok(Val(inner1));
    assert FindMember([Member("inputs", inner1)], "inputs") == Some(0);
    assert PutMember([Member("inputs", inner1)], "inputs", inner2) == [Member("inputs", inner2)];
    assert Write(node1, "inputs", inner2) == Ok(node2);
    assert SetPath(node1, keys[1..], seed) == Ok(node2);
    assert Read(Val(ScriptNode(cat, JNum(0))), "6") == Ok(Val(node1));
    assert FindMember([Member("6", node1)], "6") == Some(0);
    assert PutMember([Member("6", node1)], "6", node2) == [Member("6", node2)];
    assert Write(ScriptNode(cat, JNum(0)), "6", node2) == Ok(ScriptNode(cat, seed));
  }
}
