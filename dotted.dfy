/** Dotted key paths such as "6.inputs.text", split on '.' as `str.split('.')` and `String.prototype.split('.')` do. */
module Dotted {

  /** The segments between the dots; never empty, and "" splits into [""]. */
  function Split(s: string): (r: seq<string>)
    ensures |r| >= 1
    ensures forall i :: 0 <= i < |r| ==> '.' !in r[i]
    ensures Join(r) == s
  {
    if s == [] then [""]
    else
      var rest := Split(s[1..]);
      if s[0] == '.' then [""] + rest
      else
        var r := [[s[0]] + rest[0]] + rest[1..];
        assert Join(r) == s by {
          if |rest| > 1 {
            assert r[1..] == rest[1..];
            assert Join(r) == [s[0]] + rest[0] + "." + Join(rest[1..]);
          }
          assert s == [s[0]] + s[1..];
        }
        r
  }

  /** The segments joined with '.' in between. */
  function Join(parts: seq<string>): string
    requires |parts| >= 1
  {
    if |parts| == 1 then parts[0] else parts[0] + "." + Join(parts[1..])
  }

  /** Splitting recovers any list of dot-free segments that was joined. */
  lemma {:induction false} SplitJoin(parts: seq<string>)
    requires |parts| >= 1 && forall i :: 0 <= i < |parts| ==> '.' !in parts[i]
    ensures Split(Join(parts)) == parts
  {
    if |parts| == 1 {
      NoDotSplit(parts[0]);
    } else {
      SplitJoin(parts[1..]);
      SplitAppend(parts[0], Join(parts[1..]));
    }
  }

  lemma {:induction false} NoDotSplit(s: string)
    requires '.' !in s
    ensures Split(s) == [s]
  {
    if s != [] {
      assert '.' !in s[1..];
      NoDotSplit(s[1..]);
    }
  }

  lemma {:induction false} SplitAppend(a: string, b: string)
    requires '.' !in a
    ensures Split(a + "." + b) == [a] + Split(b)
  {
    if a == [] {
      assert a + "." + b == ['.'] + b;
      assert (['.'] + b)[1..] == b;
    } else {
      var s := a + "." + b;
      assert s[1..] == a[1..] + "." + b;
      assert '.' !in a[1..];
      SplitAppend(a[1..], b);
      assert [a[0]] + a[1..] == a;
    }
  }
}
