/**
 Object keys are '/'-separated paths. This module holds the path splitting and joining that
 both the Hive key parser and the session aggregation use, and the byte-wise string order.
 */
module Text {

  /** Cut a key at every '/'. Empty segments are kept, so `n` slashes give `n + 1` segments. */
  function Split(s: string): (segs: seq<string>)
    ensures |segs| >= 1
    ensures forall i | 0 <= i < |segs| :: '/' !in segs[i]
    ensures Join(segs) == s
  {
    if s == "" then [""]
    else
      var rest := Split(s[1..]);
      if s[0] == '/' then [""] + rest
      else [[s[0]] + rest[0]] + rest[1..]
  }

  /** Put the '/' separators back. */
  function Join(segs: seq<string>): string
  {
    if |segs| == 0 then ""
    else if |segs| == 1 then segs[0]
    else segs[0] + "/" + Join(segs[1..])
  }

  /** Splitting undoes joining: a path determines its segments. */
  lemma {:induction false} SplitJoin(segs: seq<string>)
    requires |segs| >= 1
    requires forall i | 0 <= i < |segs| :: '/' !in segs[i]
    ensures Split(Join(segs)) == segs
    decreases |segs|, |segs[0]|
  {
    if segs[0] == "" {
      if |segs| > 1 {
        SplitJoin(segs[1..]);
        assert Join(segs)[1..] == Join(segs[1..]);
      }
    } else {
      var shorter := [segs[0][1..]] + segs[1..];
      assert Join(segs)[1..] == Join(shorter) by {
        assert shorter[1..] == segs[1..];
      }
      assert Join(segs)[0] == segs[0][0];
      assert segs[0][0] in segs[0];
      SplitJoin(shorter);
      assert [segs[0][0]] + shorter[0] == segs[0];
    }
  }

  predicate HasPrefix(s: string, p: string)
  {
    |p| <= |s| && s[..|p|] == p
  }

  predicate HasSuffix(s: string, p: string)
  {
    |p| <= |s| && s[|s| - |p|..] == p
  }

  /** `s` without its leading '/' characters (Python's `lstrip("/")`). */
  function StripSlashes(s: string): (r: string)
    ensures r == "" || r[0] != '/'
  {
    if s != "" && s[0] == '/' then StripSlashes(s[1..]) else s
  }

  lemma {:induction false} StripKeepsLast(s: string)
    requires StripSlashes(s) != ""
    ensures s != "" && StripSlashes(s)[|StripSlashes(s)| - 1] == s[|s| - 1]
  {
    if s[0] == '/' {
      StripKeepsLast(s[1..]);
    }
  }

  /** Strict lexicographic order on strings. */
  predicate Less(a: string, b: string)
  {
    b != "" && (a == "" || a[0] < b[0] || (a[0] == b[0] && Less(a[1..], b[1..])))
  }

  /** The order is total ... */
  lemma {:induction false} LessTotal(a: string, b: string)
    ensures a == b || Less(a, b) || Less(b, a)
  {
    if a != "" && b != "" && a[0] == b[0] {
      LessTotal(a[1..], b[1..]);
      assert a == [a[0]] + a[1..] && b == [b[0]] + b[1..];
    }
  }

  /** ... asymmetric (hence irreflexive) ... */
  lemma {:induction false} LessAsymmetric(a: string, b: string)
    requires Less(a, b)
    ensures !Less(b, a) && a != b
  {
    if a != "" && a[0] == b[0] {
      LessAsymmetric(a[1..], b[1..]);
    }
  }

  /** ... and transitive. */
  lemma {:induction false} LessTransitive(a: string, b: string, c: string)
    requires Less(a, b) && Less(b, c)
    ensures Less(a, c)
  {
    if a != "" && a[0] == b[0] && b[0] == c[0] {
      LessTransitive(a[1..], b[1..], c[1..]);
    }
  }
}
