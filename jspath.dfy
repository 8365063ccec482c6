/**
 * Property access on parsed JSON with JavaScript's rules, as the declared-path
 * walk of `completePrompt` uses it: `d = d[k]` down the path, then `d[last]`
 * read back (query mode) or assigned (apply mode). Class bodies are strict-mode
 * code, so assigning a property of a primitive throws as well.
 */
module JsPath {

  import opened Wrappers
  import opened Json
  import Decimal

  /** A JavaScript value that is either `undefined` or a JSON value. */
  datatype JsValue = Undefined | Val(v: Json)

  datatype AccessError =
    | TypeError    // a property of null or undefined was read, or a primitive was assigned to
    | ArrayGrowth  // an array was given a non-index or out-of-range property: not modelled

  /** `x[k]`. */
  function Read(x: JsValue, k: string): (r: Result<JsValue, AccessError>)
    ensures r.Err? <==> x == Undefined || x == Val(JNull)
  {
    match x
    case Undefined => Err(TypeError)
    case Val(j) =>
      match j
      case JNull => Err(TypeError)
      case JObj(ms) =>
        (match FindMember(ms, k)
         case Some(i) => Ok(Val(ms[i].value))
         case None => Ok(Undefined))
      case JArr(items) =>
        (match Decimal.ParseIndex(k)
         case Some(n) => if n < |items| then Ok(Val(items[n])) else Ok(Undefined)
         case None => Ok(Undefined))
      case _ => Ok(Undefined)
  }

  /** `x[k] = v`, giving the updated container. */
  function Write(x: Json, k: string, v: Json): (r: Result<Json, AccessError>)
    ensures r.Ok? <==> x.JObj? || (x.JArr? && Decimal.ParseIndex(k).Some? && Decimal.ParseIndex(k).value < |x.items|)
    ensures r.Ok? ==> Read(Val(r.value), k) == Ok(Val(v))
    ensures r.Ok? ==> forall k' :: k' != k ==> Read(Val(r.value), k') == Read(Val(x), k')
    ensures x.JArr? && Decimal.ParseIndex(k).None? ==> r == Err(ArrayGrowth)
  {
    match x
    case JObj(ms) => Ok(JObj(PutMember(ms, k, v)))
    case JArr(items) =>
      (match Decimal.ParseIndex(k)
       case Some(n) =>
         if n < |items| then
           var r := JArr(items[n := v]);
           assert forall k' :: k' != k ==> Read(Val(r), k') == Read(Val(x), k') by {
             forall k' | k' != k ensures Read(Val(r), k') == Read(Val(x), k') {
               if Decimal.ParseIndex(k').Some? {
                 Decimal.ParseIndexSound(k, n);
                 Decimal.ParseIndexSound(k', Decimal.ParseIndex(k').value);
               }
             }
           }
           Ok(r)
         else Err(ArrayGrowth)
       case None => Err(ArrayGrowth))
    case _ => Err(TypeError)
  }

  /** The value at a dotted path: walk `d = d[keys[i]]`, then read `d[last]`. */
  function GetPath(x: JsValue, keys: seq<string>): Result<JsValue, AccessError>
    requires |keys| >= 1
    decreases |keys|
  {
    var d :- Read(x, keys[0]);
    if |keys| == 1 then Ok(d) else GetPath(d, keys[1..])
  }

  /** The document after `d[last] = v` at the end of the walk; every container on the way is updated in place. */
  function SetPath(x: Json, keys: seq<string>, v: Json): Result<Json, AccessError>
    requires |keys| >= 1
  {
    if |keys| == 1 then Write(x, keys[0], v)
    else
      var d :- Read(Val(x), keys[0]);
      match d
      case Undefined => Err(TypeError)
      case Val(c) =>
        var c' :- SetPath(c, keys[1..], v);
        Write(x, keys[0], c')
  }

  /** `x[k] = v` succeeds: x is an object, or an array and k one of its indices. */
  predicate Writable(x: Json, k: string)
  {
    x.JObj? || (x.JArr? && Decimal.ParseIndex(k).Some? && Decimal.ParseIndex(k).value < |x.items|)
  }

  /**
   * Assigning succeeds exactly when the walk to the last container reaches a
   * value (not `undefined`, and no TypeError on the way) that can take the
   * last key; an object takes any key, new or existing.
   */
  lemma {:induction false} SetPathDefined(x: Json, keys: seq<string>, v: Json)
    requires |keys| >= 1
    ensures SetPath(x, keys, v).Ok? <==>
              (|keys| == 1 && Writable(x, keys[0]))
              || (|keys| > 1 && GetPath(Val(x), keys[..|keys| - 1]).Ok?
                  && GetPath(Val(x), keys[..|keys| - 1]).value.Val?
                  && Writable(GetPath(Val(x), keys[..|keys| - 1]).value.v, keys[|keys| - 1]))
    decreases |keys|
  {
    if |keys| > 1 {
      var front := keys[..|keys| - 1];
      assert front[0] == keys[0];
      var d := Read(Val(x), keys[0]);
      if d.Ok? && d.value.Val? {
        var c := d.value.v;
        SetPathDefined(c, keys[1..], v);
        if |keys| > 2 {
          assert front[1..] == keys[1..][..|keys[1..]| - 1];
        }
      } else if d.Ok? && |keys| > 2 {
        assert GetPath(Undefined, front[1..]).Err?;
      }
    }
  }

  /** A path that can be assigned can also be read: assigning fails in more cases than reading. */
  lemma {:induction false} SetPathReadable(x: Json, keys: seq<string>, v: Json)
    requires |keys| >= 1 && SetPath(x, keys, v).Ok?
    ensures GetPath(Val(x), keys).Ok?
  {
    if |keys| > 1 {
      var c := Read(Val(x), keys[0]).value.v;
      SetPathReadable(c, keys[1..], v);
    }
  }

  /** Reading a path right after assigning it gives back the assigned value. */
  lemma {:induction false} GetAfterSet(x: Json, keys: seq<string>, v: Json)
    requires |keys| >= 1 && SetPath(x, keys, v).Ok?
    ensures GetPath(Val(SetPath(x, keys, v).value), keys) == Ok(Val(v))
  {
    if |keys| > 1 {
      var c := Read(Val(x), keys[0]).value.v;
      GetAfterSet(c, keys[1..], v);
    }
  }

  /**
   * Assigning at path p leaves the value at every path q that branches off p
   * (the two agree up to segment i and differ there) as it was.
   */
  lemma {:induction false} SetPathFrame(x: Json, p: seq<string>, q: seq<string>, i: nat, v: Json)
    requires |p| >= 1 && i < |p| && i < |q| && p[..i] == q[..i] && p[i] != q[i]
    requires SetPath(x, p, v).Ok?
    ensures GetPath(Val(SetPath(x, p, v).value), q) == GetPath(Val(x), q)
  {
    var y := SetPath(x, p, v).value;
    if |p| == 1 {
      assert Read(Val(y), q[0]) == Read(Val(x), q[0]);
      SameHead(Val(y), Val(x), q);
    } else {
      var c := Read(Val(x), p[0]).value.v;
      var c' := SetPath(c, p[1..], v).value;
      assert y == Write(x, p[0], c').value;
      if i == 0 {
        assert Read(Val(y), q[0]) == Read(Val(x), q[0]);
        SameHead(Val(y), Val(x), q);
      } else {
        assert q[0] == q[..i][0] == p[..i][0] == p[0];
        assert Read(Val(y), q[0]) == Ok(Val(c'));
        assert p[1..][..i - 1] == p[..i][1..] == q[..i][1..] == q[1..][..i - 1];
        SetPathFrame(c, p[1..], q[1..], i - 1, v);
      }
    }
  }

  lemma SameHead(a: JsValue, b: JsValue, q: seq<string>)
    requires |q| >= 1 && Read(a, q[0]) == Read(b, q[0])
    ensures GetPath(a, q) == GetPath(b, q)
  {
  }
}
