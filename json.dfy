/**
 * Parsed JSON documents (the job template, the inputs, the history manifest),
 * with objects as ordered lists of members so that insertion order — the order
 * `Object.entries` and a Python dict iterate in — is part of the value.
 */
module Json {

  import opened Wrappers
  import Decimal

  datatype Json =
    | JNull
    | JBool(b: bool)
    | JNum(n: int)
    | JStr(s: string)
    | JArr(items: seq<Json>)
    | JObj(members: seq<Member>)

  datatype Member = Member(key: string, value: Json)

  /** How many entries `Object.entries` reports: members of an object, elements of an array. */
  function NumChildren(j: Json): nat
  {
    match j
    case JArr(items) => |items|
    case JObj(ms) => |ms|
    case _ => 0
  }

  /** The value of entry i. */
  function Child(j: Json, i: nat): (c: Json)
    requires i < NumChildren(j)
    ensures j decreases to c
  {
    match j
    case JArr(items) => items[i]
    case JObj(ms) => ms[i].value
  }

  /** The key of entry i: the member's name, or the index as a decimal string for an array. */
  function ChildKey(j: Json, i: nat): string
    requires i < NumChildren(j)
  {
    match j
    case JArr(_) => Decimal.NatStr(i)
    case JObj(ms) => ms[i].key
  }

  /** Entry i given the value c; every key, and every other entry, stays as it was. */
  function WithChild(j: Json, i: nat, c: Json): (r: Json)
    requires i < NumChildren(j)
    ensures NumChildren(r) == NumChildren(j)
    ensures Child(r, i) == c
    ensures forall k :: 0 <= k < NumChildren(j) ==> ChildKey(r, k) == ChildKey(j, k)
    ensures forall k :: 0 <= k < NumChildren(j) && k != i ==> Child(r, k) == Child(j, k)
  {
    match j
    case JArr(items) => JArr(items[i := c])
    case JObj(ms) => JObj(ms[i := Member(ms[i].key, c)])
  }

  lemma WithChildTwice(j: Json, i: nat, a: Json, b: Json)
    requires i < NumChildren(j)
    ensures WithChild(WithChild(j, i, a), i, b) == WithChild(j, i, b)
  {
    match j
    case JArr(items) =>
      assert items[i := a][i := b] == items[i := b];
    case JObj(ms) =>
      assert ms[i := Member(ms[i].key, a)][i := Member(ms[i].key, b)] == ms[i := Member(ms[i].key, b)];
  }

  /** The position of the first member named k, as a lookup `o[k]` or `d[k]` finds it. */
  function FindMember(ms: seq<Member>, k: string): (r: Option<nat>)
    ensures r.Some? ==> r.value < |ms| && ms[r.value].key == k
                        && forall i :: 0 <= i < r.value ==> ms[i].key != k
    ensures r.None? ==> forall i :: 0 <= i < |ms| ==> ms[i].key != k
  {
    if ms == [] then None
    else if ms[0].key == k then Some(0)
    else match FindMember(ms[1..], k)
      case None => None
      case Some(i) => Some(i + 1)
  }

  /**
   * `o[k] = v` on a plain object or a Python dict: an existing member keeps
   * its position and takes the new value, a new key is appended at the end.
   */
  function PutMember(ms: seq<Member>, k: string, v: Json): (r: seq<Member>)
    ensures |r| == |ms| + (if FindMember(ms, k).Some? then 0 else 1)
    ensures FindMember(r, k).Some? && r[FindMember(r, k).value].value == v
    ensures forall k' :: k' != k ==> FindMember(r, k') == FindMember(ms, k')
    ensures forall i :: 0 <= i < |ms| ==> r[i].key == ms[i].key
    ensures forall i :: 0 <= i < |ms| && ms[i].key != k ==> r[i] == ms[i]
  {
    match FindMember(ms, k)
    case Some(i) =>
      var r := ms[i := Member(k, v)];
      FindMemberSameKeys(ms, r, k);
      assert forall k' :: k' != k ==> FindMember(r, k') == FindMember(ms, k') by {
        forall k' | k' != k ensures FindMember(r, k') == FindMember(ms, k') {
          FindMemberSameKeys(ms, r, k');
        }
      }
      r
    case None =>
      var r := ms + [Member(k, v)];
      FindMemberAppendHit(ms, Member(k, v));
      assert forall k' :: k' != k ==> FindMember(r, k') == FindMember(ms, k') by {
        forall k' | k' != k ensures FindMember(r, k') == FindMember(ms, k') {
          FindMemberAppend(ms, Member(k, v), k');
        }
      }
      r
  }

  lemma {:induction false} FindMemberSameKeys(ms: seq<Member>, ns: seq<Member>, k: string)
    requires |ms| == |ns| && forall i :: 0 <= i < |ms| ==> ms[i].key == ns[i].key
    ensures FindMember(ms, k) == FindMember(ns, k)
  {
    if ms != [] {
      FindMemberSameKeys(ms[1..], ns[1..], k);
    }
  }

  lemma {:induction false} FindMemberAppend(ms: seq<Member>, m: Member, k: string)
    requires m.key != k
    ensures FindMember(ms + [m], k) == FindMember(ms, k)
  {
    if ms != [] {
      assert (ms + [m])[1..] == ms[1..] + [m];
      FindMemberAppend(ms[1..], m, k);
    }
  }

  lemma {:induction false} FindMemberAppendHit(ms: seq<Member>, m: Member)
    requires FindMember(ms, m.key).None?
    ensures FindMember(ms + [m], m.key) == Some(|ms|)
  {
    if ms != [] {
      assert (ms + [m])[1..] == ms[1..] + [m];
      FindMemberAppendHit(ms[1..], m);
    }
  }
}
