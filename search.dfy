/**
 * The structural search of `completePrompt` (the nested `findKey`): a
 * depth-first, pre-order walk over `Object.entries` in insertion order that
 * acts on the first entry whose key equals the input key and stops there.
 *
 * Beside it stands an independent reference: `Visits` lists the position of
 * every entry in pre-order, `FirstMatch` picks the first listed position whose
 * key matches, and `ReplaceAt`/`ValueAt` write and read one position. The
 * lemma `SearchIsFirst` says the search does exactly that.
 */
module Search {

  import opened Wrappers
  import opened Json

  /** What the search hands back: the updated document and the value the entry held before. */
  datatype Hit = Hit(tree: Json, previous: Json)

  /**
   * Search j for the first entry named key and give it the value v.
   * The document keeps its shape: the same entries under the same keys.
   */
  function Search(j: Json, key: string, v: Json): (r: Option<Hit>)
    ensures r.Some? ==> NumChildren(r.value.tree) == NumChildren(j)
    ensures r.Some? ==> forall m :: 0 <= m < NumChildren(j) ==> ChildKey(r.value.tree, m) == ChildKey(j, m)
    decreases j, NumChildren(j) + 1
  {
    SearchFrom(j, 0, key, v)
  }

  /** The loop of `findKey` over the entries of j, from entry i on; entries before i are not touched. */
  function SearchFrom(j: Json, i: nat, key: string, v: Json): (r: Option<Hit>)
    requires i <= NumChildren(j)
    ensures r.Some? ==> NumChildren(r.value.tree) == NumChildren(j)
    ensures r.Some? ==> forall m :: 0 <= m < NumChildren(j) ==> ChildKey(r.value.tree, m) == ChildKey(j, m)
    ensures r.Some? ==> forall m :: 0 <= m < i ==> Child(r.value.tree, m) == Child(j, m)
    decreases j, NumChildren(j) - i
  {
    if i == NumChildren(j) then None
    else if ChildKey(j, i) == key then Some(Hit(WithChild(j, i, v), Child(j, i)))
    else match Search(Child(j, i), key, v)
      case Some(h) => Some(Hit(WithChild(j, i, h.tree), h.previous))
      case None => SearchFrom(j, i + 1, key, v)
  }

  // ---------------------------------------------------------------------------
  // Reference: positions in pre-order

  /** A position: the entry index at each level, from the root down. */
  type Position = seq<nat>

  /** Every entry position of j, in depth-first pre-order, entries in insertion order. */
  function Visits(j: Json): seq<Position>
    decreases j, NumChildren(j) + 1
  {
    VisitsFrom(j, 0)
  }

  function VisitsFrom(j: Json, i: nat): seq<Position>
    requires i <= NumChildren(j)
    decreases j, NumChildren(j) - i
  {
    if i == NumChildren(j) then []
    else [[i]] + Under(i, Visits(Child(j, i))) + VisitsFrom(j, i + 1)
  }

  /** The positions ps, seen from the parent through entry i. */
  function Under(i: nat, ps: seq<Position>): (r: seq<Position>)
    ensures |r| == |ps| && forall k :: 0 <= k < |ps| ==> r[k] == [i] + ps[k]
  {
    seq(|ps|, k requires 0 <= k < |ps| => [i] + ps[k])
  }

  /** The key of the entry at position p, if p is a position of j. */
  function KeyAt(j: Json, p: Position): Option<string>
    decreases |p|
  {
    if p == [] || p[0] >= NumChildren(j) then None
    else if |p| == 1 then Some(ChildKey(j, p[0]))
    else KeyAt(Child(j, p[0]), p[1..])
  }

  /** The value of the entry at position p, if p is a position of j. */
  function ValueAt(j: Json, p: Position): Option<Json>
    decreases |p|
  {
    if p == [] || p[0] >= NumChildren(j) then None
    else if |p| == 1 then Some(Child(j, p[0]))
    else ValueAt(Child(j, p[0]), p[1..])
  }

  /** j with the entry at position p given the value v (j itself when p is not a position of j). */
  function ReplaceAt(j: Json, p: Position, v: Json): Json
    decreases |p|
  {
    if p == [] || p[0] >= NumChildren(j) then j
    else if |p| == 1 then WithChild(j, p[0], v)
    else WithChild(j, p[0], ReplaceAt(Child(j, p[0]), p[1..], v))
  }

  /** The first of the positions ps whose key is key. */
  function FirstMatchIn(j: Json, ps: seq<Position>, key: string): Option<Position>
  {
    if ps == [] then None
    else if KeyAt(j, ps[0]) == Some(key) then Some(ps[0])
    else FirstMatchIn(j, ps[1..], key)
  }

  /** Nothing is picked exactly when no position has the key; otherwise the earliest one that has it. */
  lemma {:induction false} FirstMatchInSpec(j: Json, ps: seq<Position>, key: string)
    ensures FirstMatchIn(j, ps, key).None? <==> forall k :: 0 <= k < |ps| ==> KeyAt(j, ps[k]) != Some(key)
    ensures FirstMatchIn(j, ps, key).Some? ==>
              exists k :: 0 <= k < |ps| && ps[k] == FirstMatchIn(j, ps, key).value && KeyAt(j, ps[k]) == Some(key)
                          && forall k' :: 0 <= k' < k ==> KeyAt(j, ps[k']) != Some(key)
  {
    if ps != [] && KeyAt(j, ps[0]) != Some(key) {
      var r := FirstMatchIn(j, ps[1..], key);
      FirstMatchInSpec(j, ps[1..], key);
      if r.Some? {
        var k :| 0 <= k < |ps| - 1 && ps[1..][k] == r.value && KeyAt(j, ps[1..][k]) == Some(key)
                 && forall k' :: 0 <= k' < k ==> KeyAt(j, ps[1..][k']) != Some(key);
        assert ps[k + 1] == r.value && KeyAt(j, ps[k + 1]) == Some(key);
        forall k' | 0 <= k' < k + 1 ensures KeyAt(j, ps[k']) != Some(key) {
          if k' > 0 { assert ps[k'] == ps[1..][k' - 1]; }
        }
      } else {
        forall k | 0 <= k < |ps| ensures KeyAt(j, ps[k]) != Some(key) {
          if k > 0 { assert ps[k] == ps[1..][k - 1]; }
        }
      }
    }
  }

  /** The position the search must act on: the first entry named key in pre-order. */
  function FirstMatch(j: Json, key: string): Option<Position>
  {
    FirstMatchIn(j, Visits(j), key)
  }

  /** What acting on position p (if any) yields. */
  function Acted(j: Json, p: Option<Position>, v: Json): Option<Hit>
  {
    match p
    case None => None
    case Some(q) =>
      match ValueAt(j, q)
      case None => None
      case Some(w) => Some(Hit(ReplaceAt(j, q, v), w))
  }

  // ---------------------------------------------------------------------------
  // The search agrees with the reference

  /**
   * The search finds nothing exactly when no entry anywhere is named key; otherwise
   * it replaces the value of the first such entry in pre-order, and only that one,
   * and reports the value that entry held.
   */
  lemma {:induction false} SearchIsFirst(j: Json, key: string, v: Json)
    ensures Search(j, key, v) == Acted(j, FirstMatch(j, key), v)
    decreases j, NumChildren(j) + 1
  {
    SearchFromIsFirst(j, 0, key, v);
  }

  lemma {:induction false} SearchFromIsFirst(j: Json, i: nat, key: string, v: Json)
    requires i <= NumChildren(j)
    ensures SearchFrom(j, i, key, v) == Acted(j, FirstMatchIn(j, VisitsFrom(j, i), key), v)
    decreases j, NumChildren(j) - i
  {
    if i < NumChildren(j) {
      if ChildKey(j, i) == key {
        FoundAt(j, i, key, v);
      } else {
        var c := Child(j, i);
        SearchIsFirst(c, key, v);
        match FirstMatchIn(c, Visits(c), key)
        case Some(p) =>
          FoundInside(j, i, key, v, p);
        case None =>
          SkipEntry(j, i, key, v);
          SearchFromIsFirst(j, i + 1, key, v);
      }
    }
  }

  /** Entry i itself has the key: the loop acts on it. */
  lemma FoundAt(j: Json, i: nat, key: string, v: Json)
    requires i < NumChildren(j) && ChildKey(j, i) == key
    ensures SearchFrom(j, i, key, v) == Acted(j, FirstMatchIn(j, VisitsFrom(j, i), key), v)
  {
    SplitVisits(j, i, key);
    assert FirstMatchIn(j, VisitsFrom(j, i), key) == Some([i]);
    assert ValueAt(j, [i]) == Some(Child(j, i));
    assert ReplaceAt(j, [i], v) == WithChild(j, i, v);
  }

  /** Nothing in entry i has the key: the loop and the reference both move on to entry i + 1. */
  lemma SkipEntry(j: Json, i: nat, key: string, v: Json)
    requires i < NumChildren(j) && ChildKey(j, i) != key
    requires FirstMatchIn(Child(j, i), Visits(Child(j, i)), key) == None
    requires Search(Child(j, i), key, v) == None
    ensures SearchFrom(j, i, key, v) == SearchFrom(j, i + 1, key, v)
    ensures FirstMatchIn(j, VisitsFrom(j, i), key) == FirstMatchIn(j, VisitsFrom(j, i + 1), key)
  {
    SplitVisits(j, i, key);
  }

  /** A match inside entry i: the loop acts there, which is acting at [i] + p from j. */
  lemma FoundInside(j: Json, i: nat, key: string, v: Json, p: Position)
    requires i < NumChildren(j) && ChildKey(j, i) != key
    requires FirstMatchIn(Child(j, i), Visits(Child(j, i)), key) == Some(p)
    requires Search(Child(j, i), key, v) == Acted(Child(j, i), Some(p), v)
    ensures SearchFrom(j, i, key, v) == Acted(j, FirstMatchIn(j, VisitsFrom(j, i), key), v)
  {
    SplitVisits(j, i, key);
    assert FirstMatchIn(j, VisitsFrom(j, i), key) == Some([i] + p);
    var c := Child(j, i);
    FirstMatchInSpec(c, Visits(c), key);
    VisitsNonEmpty(c);
    assert p != [];
    KeyValueDefined(c, p);
    var w := ValueAt(c, p).value;
    assert Search(c, key, v) == Some(Hit(ReplaceAt(c, p, v), w));
    assert SearchFrom(j, i, key, v) == Some(Hit(WithChild(j, i, ReplaceAt(c, p, v)), w));
    StepInto(j, i, p, v);
  }

  /** The first match from entry i on: entry i itself, else inside entry i, else after it. */
  lemma SplitVisits(j: Json, i: nat, key: string)
    requires i < NumChildren(j)
    ensures FirstMatchIn(j, VisitsFrom(j, i), key)
         == if ChildKey(j, i) == key then Some([i])
            else match FirstMatchIn(Child(j, i), Visits(Child(j, i)), key)
                 case Some(p) => Some([i] + p)
                 case None => FirstMatchIn(j, VisitsFrom(j, i + 1), key)
  {
    var c := Child(j, i);
    var a: seq<Position> := [[i]];
    var b := Under(i, Visits(c));
    var rest := VisitsFrom(j, i + 1);
    assert VisitsFrom(j, i) == a + b + rest;
    FirstMatchConcat(j, a + b, rest, key);
    FirstMatchConcat(j, a, b, key);
    assert KeyAt(j, [i]) == Some(ChildKey(j, i));
    VisitsNonEmpty(c);
    FirstMatchUnder(j, i, Visits(c), key);
  }

  /** A position has a key exactly when it has a value. */
  lemma {:induction false} KeyValueDefined(j: Json, p: Position)
    ensures KeyAt(j, p).Some? <==> ValueAt(j, p).Some?
    decreases |p|
  {
    if p != [] && p[0] < NumChildren(j) && |p| > 1 {
      KeyValueDefined(Child(j, p[0]), p[1..]);
    }
  }

  /** Reading and writing at [i] + p is reading and writing at p inside entry i. */
  lemma StepInto(j: Json, i: nat, p: Position, v: Json)
    requires i < NumChildren(j) && p != []
    ensures ValueAt(j, [i] + p) == ValueAt(Child(j, i), p)
    ensures ReplaceAt(j, [i] + p, v) == WithChild(j, i, ReplaceAt(Child(j, i), p, v))
    ensures KeyAt(j, [i] + p) == KeyAt(Child(j, i), p)
  {
    assert ([i] + p)[1..] == p;
  }

  lemma {:induction false} FirstMatchConcat(j: Json, a: seq<Position>, b: seq<Position>, key: string)
    ensures FirstMatchIn(j, a + b, key)
         == if FirstMatchIn(j, a, key).Some? then FirstMatchIn(j, a, key) else FirstMatchIn(j, b, key)
  {
    if a != [] {
      assert (a + b)[1..] == a[1..] + b;
      FirstMatchConcat(j, a[1..], b, key);
    } else {
      assert a + b == b;
    }
  }

  lemma {:induction false} FirstMatchUnder(j: Json, i: nat, ps: seq<Position>, key: string)
    requires i < NumChildren(j)
    requires forall k :: 0 <= k < |ps| ==> ps[k] != []
    ensures FirstMatchIn(j, Under(i, ps), key)
         == match FirstMatchIn(Child(j, i), ps, key)
            case None => None
            case Some(p) => Some([i] + p)
  {
    if ps != [] {
      StepInto(j, i, ps[0], JNull);
      assert Under(i, ps)[1..] == Under(i, ps[1..]);
      FirstMatchUnder(j, i, ps[1..], key);
    }
  }

  lemma {:induction false} VisitsNonEmpty(j: Json)
    ensures forall k :: 0 <= k < |Visits(j)| ==> Visits(j)[k] != []
  {
    VisitsFromNonEmpty(j, 0);
  }

  lemma {:induction false} VisitsFromNonEmpty(j: Json, i: nat)
    requires i <= NumChildren(j)
    ensures forall k :: 0 <= k < |VisitsFrom(j, i)| ==> VisitsFrom(j, i)[k] != []
    decreases NumChildren(j) - i
  {
    if i < NumChildren(j) {
      VisitsFromNonEmpty(j, i + 1);
    }
  }

  // ---------------------------------------------------------------------------
  // What a replacement changes

  /** The replaced entry keeps its key and now holds v. */
  lemma {:induction false} ReplaceAtHit(j: Json, p: Position, v: Json)
    requires ValueAt(j, p).Some?
    ensures ValueAt(ReplaceAt(j, p, v), p) == Some(v)
    ensures KeyAt(ReplaceAt(j, p, v), p) == KeyAt(j, p)
    decreases |p|
  {
    if |p| > 1 {
      ReplaceAtHit(Child(j, p[0]), p[1..], v);
    }
  }

  /**
   * Every entry whose position branches off p (the positions agree before
   * level i and differ at level i) keeps its key and its value: later
   * siblings, and everything under them, are untouched.
   */
  lemma {:induction false} ReplaceAtFrame(j: Json, p: Position, q: Position, i: nat, v: Json)
    requires i < |p| && i < |q| && p[..i] == q[..i] && p[i] != q[i]
    ensures ValueAt(ReplaceAt(j, p, v), q) == ValueAt(j, q)
    ensures KeyAt(ReplaceAt(j, p, v), q) == KeyAt(j, q)
    decreases |p|
  {
    if p[0] < NumChildren(j) && i > 0 {
      assert q[0] == q[..i][0] == p[..i][0] == p[0];
      assert p[1..][..i - 1] == p[..i][1..] == q[..i][1..] == q[1..][..i - 1];
      ReplaceAtFrame(Child(j, p[0]), p[1..], q[1..], i - 1, v);
    }
  }

  // ---------------------------------------------------------------------------
  // Searching again

  /** Whether the search finds an entry does not depend on the value written. */
  lemma SearchFoundIndependent(j: Json, key: string, v: Json, w: Json)
    ensures Search(j, key, v).Some? == Search(j, key, w).Some?
    ensures Search(j, key, v).Some? ==> Search(j, key, v).value.previous == Search(j, key, w).value.previous
  {
    SearchIsFirst(j, key, v);
    SearchIsFirst(j, key, w);
  }

  /**
   * Searching the updated document for the same key lands on the same entry:
   * it reports the value just written, and writing w there gives what writing
   * w in the first place would have given.
   */
  lemma {:induction false} SearchAgain(j: Json, key: string, v: Json, w: Json)
    requires Search(j, key, v).Some?
    ensures Search(j, key, w).Some?
    ensures Search(Search(j, key, v).value.tree, key, w) == Some(Hit(Search(j, key, w).value.tree, v))
    decreases j, NumChildren(j) + 1
  {
    SearchAgainFrom(j, 0, key, v, w);
  }

  lemma {:induction false} SearchAgainFrom(j: Json, i: nat, key: string, v: Json, w: Json)
    requires i <= NumChildren(j) && SearchFrom(j, i, key, v).Some?
    ensures SearchFrom(j, i, key, w).Some?
    ensures SearchFrom(SearchFrom(j, i, key, v).value.tree, i, key, w)
         == Some(Hit(SearchFrom(j, i, key, w).value.tree, v))
    decreases j, NumChildren(j) - i
  {
    var c := Child(j, i);
    if ChildKey(j, i) == key {
      AgainHere(j, i, key, v, w);
    } else if Search(c, key, v).Some? {
      SearchAgain(c, key, v, w);
      AgainInside(j, i, key, v, w);
    } else {
      SearchFoundIndependent(c, key, v, w);
      SearchAgainFrom(j, i + 1, key, v, w);
      AgainLater(j, i, key, v, w);
    }
  }

  lemma AgainHere(j: Json, i: nat, key: string, v: Json, w: Json)
    requires i < NumChildren(j) && ChildKey(j, i) == key
    ensures SearchFrom(j, i, key, w).Some?
    ensures SearchFrom(SearchFrom(j, i, key, v).value.tree, i, key, w)
         == Some(Hit(SearchFrom(j, i, key, w).value.tree, v))
  {
    var t := WithChild(j, i, v);
    assert SearchFrom(j, i, key, v).value.tree == t;
    assert ChildKey(t, i) == key;
    assert SearchFrom(t, i, key, w) == Some(Hit(WithChild(t, i, w), v));
    WithChildTwice(j, i, v, w);
  }

  lemma AgainInside(j: Json, i: nat, key: string, v: Json, w: Json)
    requires i < NumChildren(j) && ChildKey(j, i) != key
    requires Search(Child(j, i), key, v).Some? && Search(Child(j, i), key, w).Some?
    requires Search(Search(Child(j, i), key, v).value.tree, key, w)
          == Some(Hit(Search(Child(j, i), key, w).value.tree, v))
    ensures SearchFrom(j, i, key, w).Some?
    ensures SearchFrom(SearchFrom(j, i, key, v).value.tree, i, key, w)
         == Some(Hit(SearchFrom(j, i, key, w).value.tree, v))
  {
    var c := Child(j, i);
    var hc := Search(c, key, v).value;
    var hw := Search(c, key, w).value;
    var t := WithChild(j, i, hc.tree);
    assert SearchFrom(j, i, key, v).value.tree == t;
    assert SearchFrom(j, i, key, w).value.tree == WithChild(j, i, hw.tree);
    assert ChildKey(t, i) != key && Child(t, i) == hc.tree;
    assert SearchFrom(t, i, key, w) == Some(Hit(WithChild(t, i, hw.tree), v));
    WithChildTwice(j, i, hc.tree, hw.tree);
  }

  lemma AgainLater(j: Json, i: nat, key: string, v: Json, w: Json)
    requires i < NumChildren(j) && ChildKey(j, i) != key
    requires Search(Child(j, i), key, v).None? && Search(Child(j, i), key, w).None?
    requires SearchFrom(j, i + 1, key, v).Some? && SearchFrom(j, i + 1, key, w).Some?
    requires SearchFrom(SearchFrom(j, i + 1, key, v).value.tree, i + 1, key, w)
          == Some(Hit(SearchFrom(j, i + 1, key, w).value.tree, v))
    ensures SearchFrom(j, i, key, w).Some?
    ensures SearchFrom(SearchFrom(j, i, key, v).value.tree, i, key, w)
         == Some(Hit(SearchFrom(j, i, key, w).value.tree, v))
  {
    var t := SearchFrom(j, i + 1, key, v).value.tree;
    assert SearchFrom(j, i, key, v).value.tree == t;
    assert ChildKey(t, i) == ChildKey(j, i) && Child(t, i) == Child(j, i);
    assert SearchFrom(t, i, key, w) == SearchFrom(t, i + 1, key, w);
  }
}
