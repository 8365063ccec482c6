/**
 * Item access on parsed JSON with Python's rules, as both Python scripts walk
 * a dotted path: `d = d[k]` for every segment but the last, then
 * `d[last] = value`.  The segments are strings, so only dicts can be indexed:
 * a list, a string, a number or None raises TypeError, and a dict without the
 * key raises KeyError.
 */
module PyPath {

  import opened Wrappers
  import opened Json

  datatype PyError =
    | KeyError(key: string)  // a dict on the path lacks the segment
    | TypeError              // the path runs into something that is not a dict

  /** `x[k]` with a string k. */
  function Get(x: Json, k: string): (r: Result<Json, PyError>)
    ensures r.Ok? <==> x.JObj? && FindMember(x.members, k).Some?
    ensures !x.JObj? ==> r == Err(TypeError)
    ensures x.JObj? && FindMember(x.members, k).None? ==> r == Err(KeyError(k))
  {
    match x
    case JObj(ms) =>
      (match FindMember(ms, k)
       case Some(i) => Ok(ms[i].value)
       case None => Err(KeyError(k)))
    case _ => Err(TypeError)
  }

  /** `x[k] = v`: a dict takes the key (added at the end when new); anything else raises TypeError. */
  function Set(x: Json, k: string, v: Json): (r: Result<Json, PyError>)
    ensures r.Ok? <==> x.JObj?
    ensures r.Ok? ==> Get(r.value, k) == Ok(v)
    ensures r.Ok? ==> forall k' :: k' != k ==> Get(r.value, k') == Get(x, k')
    ensures r.Err? ==> r.error == TypeError
  {
    match x
    case JObj(ms) => Ok(JObj(PutMember(ms, k, v)))
    case _ => Err(TypeError)
  }

  /** The value at a dotted path. */
  function GetPath(x: Json, keys: seq<string>): Result<Json, PyError>
    requires |keys| >= 1
    decreases |keys|
  {
    var d :- Get(x, keys[0]);
    if |keys| == 1 then Ok(d) else GetPath(d, keys[1..])
  }

  /** The document after `d[last] = v` at the end of the walk, the containers on the way updated. */
  function SetPath(x: Json, keys: seq<string>, v: Json): Result<Json, PyError>
    requires |keys| >= 1
    decreases |keys|
  {
    if |keys| == 1 then Set(x, keys[0], v)
    else
      var c :- Get(x, keys[0]);
      var c' :- SetPath(c, keys[1..], v);
      Set(x, keys[0], c')
  }

  /** Reading a path right after assigning it gives back the assigned value. */
  lemma {:induction false} GetAfterSet(x: Json, keys: seq<string>, v: Json)
    requires |keys| >= 1 && SetPath(x, keys, v).Ok?
    ensures GetPath(SetPath(x, keys, v).value, keys) == Ok(v)
  {
    if |keys| > 1 {
      GetAfterSet(Get(x, keys[0]).value, keys[1..], v);
    }
  }

  /**
   * Assigning fails exactly when the walk to the last container fails or
   * that container is not a dict; the final key itself need not exist.
   */
  lemma {:induction false} SetPathDefined(x: Json, keys: seq<string>, v: Json)
    requires |keys| >= 1
    ensures SetPath(x, keys, v).Ok? <==>
              (|keys| == 1 && x.JObj?)
              || (|keys| > 1 && GetPath(x, keys[..|keys| - 1]).Ok? && GetPath(x, keys[..|keys| - 1]).value.JObj?)
    decreases |keys|
  {
    if |keys| > 1 {
      var front := keys[..|keys| - 1];
      assert front[0] == keys[0];
      if Get(x, keys[0]).Ok? {
        var c := Get(x, keys[0]).value;
        SetPathDefined(c, keys[1..], v);
        if |keys| > 2 {
          assert front[1..] == keys[1..][..|keys[1..]| - 1];
        }
      }
    }
  }

  /** A path that branches away from the assigned one at segment i reads as before. */
  lemma {:induction false} SetPathFrame(x: Json, p: seq<string>, q: seq<string>, i: nat, v: Json)
    requires |p| >= 1 && i < |p| && i < |q| && p[..i] == q[..i] && p[i] != q[i]
    requires SetPath(x, p, v).Ok?
    ensures GetPath(SetPath(x, p, v).value, q) == GetPath(x, q)
    decreases |p|
  {
    var y := SetPath(x, p, v).value;
    if i == 0 {
      assert Get(y, q[0]) == Get(x, q[0]);
    } else {
      var c := Get(x, p[0]).value;
      assert q[0] == p[0] by { assert p[..i][0] == q[..i][0]; }
      assert p[1..][..i - 1] == q[1..][..i - 1] by {
        assert p[1..][..i - 1] == p[..i][1..];
        assert q[1..][..i - 1] == q[..i][1..];
      }
      SetPathFrame(c, p[1..], q[1..], i - 1, v);
      assert Get(y, q[0]) == SetPath(c, p[1..], v);
    }
  }
}
