/**
 * What happens to a finished job's outputs: the history manifest's images are
 * fetched node by node, flattened into (node id, index, data) results in
 * manifest order, and written to files named from one shared prefix.
 * Fetching an image is a parameter; writing the files is not modelled.
 */
module Outputs {

  import opened Wrappers
  import Decimal
  import Monitor

  type Bytes = seq<bv8>

  /** One entry of a node's `images` list in the history manifest. */
  datatype ImageRef = ImageRef(filename: string, subfolder: string, folderType: string)

  /** A node's entry in `history['outputs']`; `images` is None when the entry has no `images` key. */
  datatype NodeOutput = NodeOutput(nodeId: string, images: Option<seq<ImageRef>>)

  /** A node with the payloads fetched for it (`outputImages[nodeId]`). */
  datatype NodeImages = NodeImages(nodeId: string, images: seq<Bytes>)

  datatype ImageResult = ImageResult(nodeId: string, index: nat, data: Bytes)

  datatype SavedFile = SavedFile(nodeId: string, index: nat, filename: string)

  /** Every node of the manifest in order, with its images fetched in list order (none without an `images` key). */
  function Gathered(outputs: seq<NodeOutput>, fetch: ImageRef -> Bytes): seq<NodeImages>
  {
    seq(|outputs|, n requires 0 <= n < |outputs| =>
      NodeImages(outputs[n].nodeId,
                 if outputs[n].images.Some? then Fetched(outputs[n].images.value, fetch) else []))
  }

  function Fetched(refs: seq<ImageRef>, fetch: ImageRef -> Bytes): seq<Bytes>
  {
    seq(|refs|, i requires 0 <= i < |refs| => fetch(refs[i]))
  }

  /** The first loop of the retrieval: one `outputImages` entry per manifest node. */
  method GatherImages(outputs: seq<NodeOutput>, fetch: ImageRef -> Bytes) returns (gathered: seq<NodeImages>)
    ensures |gathered| == |outputs|
    ensures forall n :: 0 <= n < |outputs| ==> gathered[n].nodeId == outputs[n].nodeId
    ensures forall n :: 0 <= n < |outputs| && outputs[n].images.None? ==> gathered[n].images == []
    ensures forall n :: 0 <= n < |outputs| && outputs[n].images.Some? ==>
              |gathered[n].images| == |outputs[n].images.value|
              && forall i :: 0 <= i < |gathered[n].images| ==> gathered[n].images[i] == fetch(outputs[n].images.value[i])
    ensures gathered == Gathered(outputs, fetch)
  {
    gathered := [];
    var n := 0;
    while n < |outputs|
      invariant 0 <= n <= |outputs|
      invariant gathered == Gathered(outputs[..n], fetch)
    {
      var imagesOutput: seq<Bytes> := [];
      if outputs[n].images.Some? {
        var refs := outputs[n].images.value;
        var i := 0;
        while i < |refs|
          invariant 0 <= i <= |refs|
          invariant imagesOutput == Fetched(refs[..i], fetch)
        {
          imagesOutput := imagesOutput + [fetch(refs[i])];
          i := i + 1;
        }
        assert refs[..i] == refs;
      }
      gathered := gathered + [NodeImages(outputs[n].nodeId, imagesOutput)];
      n := n + 1;
    }
    assert outputs[..n] == outputs;
  }

  /** The results of one node: its images with indices 0, 1, ... in list order. */
  function NodeResults(node: NodeImages): (r: seq<ImageResult>)
    ensures |r| == |node.images|
  {
    seq(|node.images|, i requires 0 <= i < |node.images| => ImageResult(node.nodeId, i, node.images[i]))
  }

  /** All results, node after node in manifest order. */
  function Flattened(nodes: seq<NodeImages>): seq<ImageResult>
  {
    if nodes == [] then [] else Flattened(nodes[..|nodes| - 1]) + NodeResults(nodes[|nodes| - 1])
  }

  /** How many images the nodes hold together. */
  function TotalImages(nodes: seq<NodeImages>): nat
  {
    if nodes == [] then 0 else TotalImages(nodes[..|nodes| - 1]) + |nodes[|nodes| - 1].images|
  }

  /** Where node n's results start: the images of the nodes before it. */
  function Offset(nodes: seq<NodeImages>, n: nat): nat
    requires n <= |nodes|
  {
    TotalImages(nodes[..n])
  }

  /** The second loop of the retrieval: push one result per image, node by node. */
  method FlattenOutputs(nodes: seq<NodeImages>) returns (results: seq<ImageResult>)
    ensures results == Flattened(nodes)
  {
    results := [];
    var n := 0;
    while n < |nodes|
      invariant 0 <= n <= |nodes|
      invariant results == Flattened(nodes[..n])
    {
      var i := 0;
      while i < |nodes[n].images|
        invariant 0 <= i <= |nodes[n].images|
        invariant results == Flattened(nodes[..n]) + NodeResults(nodes[n])[..i]
      {
        results := results + [ImageResult(nodes[n].nodeId, i, nodes[n].images[i])];
        i := i + 1;
      }
      assert nodes[..n + 1][..n] == nodes[..n];
      n := n + 1;
    }
    assert nodes[..n] == nodes;
  }

  /** There is one result per image. */
  lemma {:induction false} FlattenedLength(nodes: seq<NodeImages>)
    ensures |Flattened(nodes)| == TotalImages(nodes)
  {
    if nodes != [] {
      FlattenedLength(nodes[..|nodes| - 1]);
    }
  }

  /** Image i of node n is result Offset(n) + i, carrying node n's id and the index i. */
  lemma {:induction false} FlattenedAt(nodes: seq<NodeImages>, n: nat, i: nat)
    requires n < |nodes| && i < |nodes[n].images|
    ensures Offset(nodes, n) + i < |Flattened(nodes)|
    ensures Flattened(nodes)[Offset(nodes, n) + i] == ImageResult(nodes[n].nodeId, i, nodes[n].images[i])
  {
    var init := nodes[..|nodes| - 1];
    FlattenedLength(init);
    if n == |nodes| - 1 {
      assert nodes[..n] == init;
    } else {
      assert init[..n] == nodes[..n];
      FlattenedAt(init, n, i);
    }
  }

  /** Every result belongs to some node of the list, with an index below that node's image count. */
  lemma {:induction false} FlattenedFrom(nodes: seq<NodeImages>, k: nat)
    requires k < |Flattened(nodes)|
    ensures exists n :: 0 <= n < |nodes| && Flattened(nodes)[k].nodeId == nodes[n].nodeId
                        && Flattened(nodes)[k].index < |nodes[n].images|
  {
    var init := nodes[..|nodes| - 1];
    if k < |Flattened(init)| {
      FlattenedFrom(init, k);
      var n :| 0 <= n < |init| && Flattened(init)[k].nodeId == init[n].nodeId
               && Flattened(init)[k].index < |init[n].images|;
      assert nodes[n] == init[n];
    } else {
      assert Flattened(nodes)[k] == NodeResults(nodes[|nodes| - 1])[k - |Flattened(init)|];
    }
  }

  predicate DistinctIds(nodes: seq<NodeImages>)
  {
    forall a, b :: 0 <= a < b < |nodes| ==> nodes[a].nodeId != nodes[b].nodeId
  }

  /** With distinct node ids, no two results share both node id and index. */
  lemma {:induction false} FlattenedDistinct(nodes: seq<NodeImages>)
    requires DistinctIds(nodes)
    ensures forall a, b :: 0 <= a < b < |Flattened(nodes)| ==>
              (Flattened(nodes)[a].nodeId, Flattened(nodes)[a].index) != (Flattened(nodes)[b].nodeId, Flattened(nodes)[b].index)
  {
    if nodes != [] {
      var init := nodes[..|nodes| - 1];
      var last := nodes[|nodes| - 1];
      var f := Flattened(nodes);
      var fi := Flattened(init);
      FlattenedDistinct(init);
      forall a, b | 0 <= a < b < |f| ensures (f[a].nodeId, f[a].index) != (f[b].nodeId, f[b].index) {
        if b >= |fi| {
          assert f[b] == NodeResults(last)[b - |fi|];
          if a >= |fi| {
            assert f[a] == NodeResults(last)[a - |fi|];
          } else {
            FlattenedFrom(init, a);
            assert f[a] == fi[a];
          }
        } else {
          assert f[a] == fi[a] && f[b] == fi[b];
        }
      }
    }
  }

  // ---------------------------------------------------------------------------
  // File names

  /** `output_<prefix>_<node_id>_<index>.png`. */
  function FileName(prefix: string, nodeId: string, index: nat): string
  {
    "output_" + prefix + "_" + nodeId + "_" + Decimal.NatStr(index) + ".png"
  }

  /** Within one prefix, the file name determines the node id and the index. */
  lemma FileNameInjective(prefix: string, n1: string, i1: nat, n2: string, i2: nat)
    requires FileName(prefix, n1, i1) == FileName(prefix, n2, i2)
    ensures n1 == n2 && i1 == i2
  {
    var head := "output_" + prefix + "_";
    var d1 := Decimal.NatStr(i1);
    var d2 := Decimal.NatStr(i2);
    var s1 := n1 + "_" + d1;
    var s2 := n2 + "_" + d2;
    assert FileName(prefix, n1, i1) == head + s1 + ".png";
    assert FileName(prefix, n2, i2) == head + s2 + ".png";
    assert s1 == (head + s1 + ".png")[|head|..|head| + |s1|];
    assert |s1| == |s2|;
    assert s2 == (head + s2 + ".png")[|head|..|head| + |s2|];
    LastUnderscore(n1, d1, n2, d2);
    Decimal.NatStrInjective(i1, i2);
  }

  /** The last '_' separates a name from a trailing digit string. */
  lemma LastUnderscore(a1: string, d1: string, a2: string, d2: string)
    requires Decimal.AllDigits(d1) && Decimal.AllDigits(d2)
    requires a1 + "_" + d1 == a2 + "_" + d2
    ensures a1 == a2 && d1 == d2
  {
    var s := a1 + "_" + d1;
    assert s == a2 + "_" + d2;
    assert forall k :: |a1| < k < |s| ==> s[k] == d1[k - |a1| - 1];
    assert forall k :: |a2| < k < |s| ==> s[k] == d2[k - |a2| - 1];
    assert s[|a1|] == '_' && s[|a2|] == '_';
    assert |a1| == |a2|;
    assert d1 == s[|a1| + 1..] == d2;
    assert a1 == s[..|a1|] == a2;
  }

  /** One saved-file record per result, in order, each named from the shared prefix. */
  method SaveImages(results: seq<ImageResult>, prefix: string) returns (files: seq<SavedFile>)
    ensures |files| == |results|
    ensures forall k :: 0 <= k < |results| ==>
              files[k] == SavedFile(results[k].nodeId, results[k].index,
                                    FileName(prefix, results[k].nodeId, results[k].index))
  {
    files := [];
    var k := 0;
    while k < |results|
      invariant 0 <= k <= |results|
      invariant |files| == k
      invariant forall m :: 0 <= m < k ==>
                  files[m] == SavedFile(results[m].nodeId, results[m].index,
                                        FileName(prefix, results[m].nodeId, results[m].index))
    {
      var image := results[k];
      var imageFilename := FileName(prefix, image.nodeId, image.index);
      files := files + [SavedFile(image.nodeId, image.index, imageFilename)];
      k := k + 1;
    }
  }

  /** Saving a job's results gives pairwise distinct file names when node ids are distinct. */
  lemma SavedNamesDistinct(nodes: seq<NodeImages>, prefix: string)
    requires DistinctIds(nodes)
    ensures forall a, b :: 0 <= a < b < |Flattened(nodes)| ==>
              FileName(prefix, Flattened(nodes)[a].nodeId, Flattened(nodes)[a].index)
              != FileName(prefix, Flattened(nodes)[b].nodeId, Flattened(nodes)[b].index)
  {
    var f := Flattened(nodes);
    FlattenedDistinct(nodes);
    forall a, b | 0 <= a < b < |f|
      ensures FileName(prefix, f[a].nodeId, f[a].index) != FileName(prefix, f[b].nodeId, f[b].index)
    {
      if FileName(prefix, f[a].nodeId, f[a].index) == FileName(prefix, f[b].nodeId, f[b].index) {
        FileNameInjective(prefix, f[a].nodeId, f[a].index, f[b].nodeId, f[b].index);
      }
    }
  }

  // ---------------------------------------------------------------------------
  // The shared prefix

  /** The wall-clock fields the prefix is made of (read from the clock by the source). */
  datatype Clock = Clock(year: nat, month: nat, day: nat, hour: nat, minute: nat, second: nat, microsecond: nat)

  /** Fields as a calendar clock gives them, and a random suffix as `randint(0, 999999)` gives it. */
  predicate ValidStamp(t: Clock, random: nat)
  {
    t.year < 10000 && 1 <= t.month <= 12 && 1 <= t.day <= 31 && t.hour < 24 && t.minute < 60
    && t.second < 60 && t.microsecond < 1000000 && random < 1000000
  }

  /** `YYYYMMDD-HHMMSS-ffffff-RRRRRR`: zero-padded fields, the random suffix last. */
  function Prefix(t: Clock, random: nat): string
  {
    Decimal.Pad(t.year, 4) + Decimal.Pad(t.month, 2) + Decimal.Pad(t.day, 2) + "-"
    + Decimal.Pad(t.hour, 2) + Decimal.Pad(t.minute, 2) + Decimal.Pad(t.second, 2) + "-"
    + Decimal.Pad(t.microsecond, 6) + "-" + Decimal.Pad(random, 6)
  }

  /** Reads the fields back from a prefix; None when s does not have the prefix's layout. */
  function ParsePrefix(s: string): Option<(Clock, nat)>
  {
    if |s| == 29 && s[8] == '-' && s[15] == '-' && s[22] == '-'
       && Decimal.AllDigits(s[0..4]) && Decimal.AllDigits(s[4..6]) && Decimal.AllDigits(s[6..8])
       && Decimal.AllDigits(s[9..11]) && Decimal.AllDigits(s[11..13]) && Decimal.AllDigits(s[13..15])
       && Decimal.AllDigits(s[16..22]) && Decimal.AllDigits(s[23..29])
    then Some((Clock(Decimal.Value(s[0..4]), Decimal.Value(s[4..6]), Decimal.Value(s[6..8]),
                     Decimal.Value(s[9..11]), Decimal.Value(s[11..13]), Decimal.Value(s[13..15]),
                     Decimal.Value(s[16..22])),
               Decimal.Value(s[23..29])))
    else None
  }

  /**
   * The prefix is always 29 characters with its dashes in fixed places, and
   * it encodes its fields without loss: distinct stamps give distinct prefixes.
   */
  lemma PrefixRoundTrip(t: Clock, random: nat)
    requires ValidStamp(t, random)
    ensures |Prefix(t, random)| == 29
    ensures ParsePrefix(Prefix(t, random)) == Some((t, random))
  {
    assert Decimal.Pow10(2) == 100 && Decimal.Pow10(4) == 10000 && Decimal.Pow10(6) == 1000000;
    Decimal.PadRoundTrip(t.year, 4);
    Decimal.PadRoundTrip(t.month, 2);
    Decimal.PadRoundTrip(t.day, 2);
    Decimal.PadRoundTrip(t.hour, 2);
    Decimal.PadRoundTrip(t.minute, 2);
    Decimal.PadRoundTrip(t.second, 2);
    Decimal.PadRoundTrip(t.microsecond, 6);
    Decimal.PadRoundTrip(random, 6);
    PrefixLayout(Decimal.Pad(t.year, 4), Decimal.Pad(t.month, 2), Decimal.Pad(t.day, 2),
                 Decimal.Pad(t.hour, 2), Decimal.Pad(t.minute, 2), Decimal.Pad(t.second, 2),
                 Decimal.Pad(t.microsecond, 6), Decimal.Pad(random, 6));
  }

  /** Where each field lands in the joined prefix. */
  lemma PrefixLayout(y: string, mo: string, d: string, h: string, mi: string, se: string, us: string, r: string)
    requires |y| == 4 && |mo| == 2 && |d| == 2 && |h| == 2 && |mi| == 2 && |se| == 2 && |us| == 6 && |r| == 6
    ensures var s := y + mo + d + "-" + h + mi + se + "-" + us + "-" + r;
      |s| == 29 && s[0..4] == y && s[4..6] == mo && s[6..8] == d && s[8] == '-'
      && s[9..11] == h && s[11..13] == mi && s[13..15] == se && s[15] == '-'
      && s[16..22] == us && s[22] == '-' && s[23..29] == r
  {
  }

  // ---------------------------------------------------------------------------
  // The Python scripts' file names

  /** `output_<prefix>_<node_id>.png`: the Python scripts leave out the index. */
  function NameWithoutIndex(prefix: string, nodeId: string): string
  {
    "output_" + prefix + "_" + nodeId + ".png"
  }

  /** The names the Python loop appends, one per image, node after node. */
  function NamesWithoutIndex(nodes: seq<NodeImages>, prefix: string): seq<string>
  {
    if nodes == [] then []
    else
      var last := nodes[|nodes| - 1];
      NamesWithoutIndex(nodes[..|nodes| - 1], prefix)
        + seq(|last.images|, _ requires true => NameWithoutIndex(prefix, last.nodeId))
  }

  /** The Python output-name loop over `output_images`. */
  method ImageNamesWithoutIndex(nodes: seq<NodeImages>, prefix: string) returns (names: seq<string>)
    ensures names == NamesWithoutIndex(nodes, prefix)
  {
    names := [];
    var n := 0;
    while n < |nodes|
      invariant 0 <= n <= |nodes|
      invariant names == NamesWithoutIndex(nodes[..n], prefix)
    {
      var nodeId := nodes[n].nodeId;
      var i := 0;
      while i < |nodes[n].images|
        invariant 0 <= i <= |nodes[n].images|
        invariant names == NamesWithoutIndex(nodes[..n], prefix)
                           + seq(i, _ requires true => NameWithoutIndex(prefix, nodeId))
      {
        names := names + [NameWithoutIndex(prefix, nodeId)];
        i := i + 1;
      }
      assert nodes[..n + 1][..n] == nodes[..n];
      n := n + 1;
    }
    assert nodes[..n] == nodes;
  }

  /** Name k belongs to result k: one name per image, in the order of the results. */
  lemma {:induction false} NamesWithoutIndexAt(nodes: seq<NodeImages>, prefix: string, k: nat)
    requires k < |Flattened(nodes)|
    ensures |NamesWithoutIndex(nodes, prefix)| == |Flattened(nodes)|
    ensures NamesWithoutIndex(nodes, prefix)[k] == NameWithoutIndex(prefix, Flattened(nodes)[k].nodeId)
  {
    var init := nodes[..|nodes| - 1];
    NamesWithoutIndexLength(init, prefix);
    if k < |Flattened(init)| {
      NamesWithoutIndexAt(init, prefix, k);
    }
  }

  lemma {:induction false} NamesWithoutIndexLength(nodes: seq<NodeImages>, prefix: string)
    ensures |NamesWithoutIndex(nodes, prefix)| == |Flattened(nodes)|
  {
    if nodes != [] {
      NamesWithoutIndexLength(nodes[..|nodes| - 1], prefix);
    }
  }

  /** A node with two images gets the same name twice: the second file overwrites the first. */
  lemma NamesWithoutIndexCollide(nodes: seq<NodeImages>, prefix: string, n: nat)
    requires n < |nodes| && |nodes[n].images| >= 2
    ensures Offset(nodes, n) + 1 < |NamesWithoutIndex(nodes, prefix)|
    ensures NamesWithoutIndex(nodes, prefix)[Offset(nodes, n)] == NamesWithoutIndex(nodes, prefix)[Offset(nodes, n) + 1]
  {
    FlattenedAt(nodes, n, 0);
    FlattenedAt(nodes, n, 1);
    NamesWithoutIndexAt(nodes, prefix, Offset(nodes, n));
    NamesWithoutIndexAt(nodes, prefix, Offset(nodes, n) + 1);
  }

  /**
   * What both Python scripts do once the job is submitted: wait for its
   * completion among the frames received, gather the manifest's images and
   * name one file per image.  None when no completion arrives.
   */
  method CollectFiles(promptId: string, frames: seq<Monitor.Frame>, outputs: seq<NodeOutput>,
                      fetch: ImageRef -> Bytes, prefix: string)
    returns (files: Option<seq<string>>)
    ensures files.None? <==> forall k :: 0 <= k < |frames| ==> !Monitor.IsCompletion(frames[k], promptId)
    ensures files.Some? ==> files.value == NamesWithoutIndex(Gathered(outputs, fetch), prefix)
  {
    var done := Monitor.WaitForCompletion(frames, promptId);
    if done.None? {
      return None;
    }
    var gathered := GatherImages(outputs, fetch);
    var names := ImageNamesWithoutIndex(gathered, prefix);
    return Some(names);
  }
}
