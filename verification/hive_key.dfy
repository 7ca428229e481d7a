/**
 Hive-partitioned object keys:
   customer=<c>/customer_site=<s>/robot=<r>/source=<x>/date=<d>/<filename>.mcap
 */
module HiveKey {
  import opened Basics
  import opened Text

  datatype Dims = Dims(customer: string, site: string, robot: string, source: string,
                       date: string, filename: string)

  const CUSTOMER := "customer="
  const SITE := "customer_site="
  const ROBOT := "robot="
  const SOURCE := "source="
  const DATE := "date="
  const EXTENSION := ".mcap"

  /** The non-empty value of a `name=value` segment. */
  function Field(seg: string, name: string): Option<string>
  {
    if HasPrefix(seg, name) && |seg| > |name| then Some(seg[|name|..]) else None
  }

  /**
   The file name in the last segment. The pattern's final `$` also matches just before a
   trailing newline, so `x.mcap` followed by a newline is accepted and loses the newline.
   */
  function FileName(seg: string): Option<string>
  {
    if HasSuffix(seg, EXTENSION) && |seg| > |EXTENSION| then Some(seg)
    else if HasSuffix(seg, EXTENSION + "\n") && |seg| > |EXTENSION| + 1 then Some(seg[..|seg| - 1])
    else None
  }

  /** The trailing newline of `s`, if it has one. */
  function Newline(s: string): string
  {
    if s != "" && s[|s| - 1] == '\n' then "\n" else ""
  }

  /** `parse_hive_key`: leading slashes are ignored, then all six segments must match. */
  function Parse(key: string): Option<Dims>
  {
    ParseSegments(Split(StripSlashes(key)))
  }

  function ParseSegments(segs: seq<string>): Option<Dims>
  {
    if |segs| != 6 then None
    else
      match (Field(segs[0], CUSTOMER), Field(segs[1], SITE), Field(segs[2], ROBOT),
             Field(segs[3], SOURCE), Field(segs[4], DATE), FileName(segs[5]))
      case (Some(c), Some(s), Some(r), Some(x), Some(d), Some(f)) => Some(Dims(c, s, r, x, d, f))
      case _ => None
  }

  function Segments(d: Dims): seq<string>
  {
    [CUSTOMER + d.customer, SITE + d.site, ROBOT + d.robot, SOURCE + d.source, DATE + d.date, d.filename]
  }

  /** `rebuild_hive_key`. */
  function Rebuild(d: Dims): string
  {
    Join(Segments(d))
  }

  /** Dimensions a key can carry: non-empty, slash-free, and a file name ending in `.mcap`. */
  predicate Valid(d: Dims)
  {
    && d.customer != "" && '/' !in d.customer
    && d.site != "" && '/' !in d.site
    && d.robot != "" && '/' !in d.robot
    && d.source != "" && '/' !in d.source
    && d.date != "" && '/' !in d.date
    && '/' !in d.filename && HasSuffix(d.filename, EXTENSION) && |d.filename| > |EXTENSION|
  }

  lemma SegmentsHaveNoSlash(d: Dims)
    requires Valid(d)
    ensures forall i | 0 <= i < 6 :: '/' !in Segments(d)[i]
  {
  }

  lemma FieldInverse(name: string, value: string)
    requires value != ""
    ensures Field(name + value, name) == Some(value)
  {
  }

  /** Parsing undoes rebuilding. */
  lemma ParseRebuild(d: Dims)
    requires Valid(d)
    ensures Parse(Rebuild(d)) == Some(d)
    ensures StripSlashes(Rebuild(d)) == Rebuild(d)
  {
    assert Rebuild(d)[0] == 'c';
    SegmentsHaveNoSlash(d);
    SplitJoin(Segments(d));
    FieldInverse(CUSTOMER, d.customer);
    FieldInverse(SITE, d.site);
    FieldInverse(ROBOT, d.robot);
    FieldInverse(SOURCE, d.source);
    FieldInverse(DATE, d.date);
  }

  lemma FieldRebuilds(seg: string, name: string)
    requires Field(seg, name).Some?
    ensures name + Field(seg, name).value == seg
    ensures Field(seg, name).value != ""
    ensures '/' !in seg ==> '/' !in Field(seg, name).value
  {
  }

  lemma FileNameValid(seg: string)
    requires FileName(seg).Some?
    ensures HasSuffix(FileName(seg).value, EXTENSION) && |FileName(seg).value| > |EXTENSION|
    ensures '/' !in seg ==> '/' !in FileName(seg).value
    ensures seg == FileName(seg).value + Newline(seg)
  {
    if !(HasSuffix(seg, EXTENSION) && |seg| > |EXTENSION|) {
      var f := FileName(seg).value;
      assert seg[|seg| - 6..] == EXTENSION + "\n";
      assert f[|f| - 5..] == seg[|seg| - 6..][..5];
      assert seg[|seg| - 1] == seg[|seg| - 6..][5];
    } else {
      assert seg[|seg| - 1] == seg[|seg| - 5..][4];
    }
  }

  /** The last segment of a split key carries the key's last character. */
  lemma {:induction false} LastCharacter(segs: seq<string>)
    requires |segs| >= 1 && segs[|segs| - 1] != ""
    ensures Join(segs) != ""
    ensures Join(segs)[|Join(segs)| - 1] == segs[|segs| - 1][|segs[|segs| - 1]| - 1]
  {
    if |segs| > 1 {
      LastCharacter(segs[1..]);
    }
  }

  lemma LastSegmentEndsKey(key: string, segs: seq<string>)
    requires segs == Split(StripSlashes(key))
    requires segs[|segs| - 1] != ""
    ensures StripSlashes(key) != ""
    ensures Newline(key) == Newline(segs[|segs| - 1])
  {
    LastCharacter(segs);
    StripKeepsLast(key);
  }

  /** Segments that parse are the rebuilt segments, up to a newline behind the last one. */
  lemma ParsedSegments(segs: seq<string>)
    requires ParseSegments(segs).Some?
    requires forall i | 0 <= i < |segs| :: '/' !in segs[i]
    ensures Valid(ParseSegments(segs).value)
    ensures segs[..5] == Segments(ParseSegments(segs).value)[..5]
    ensures segs[5] != "" && segs[5] == ParseSegments(segs).value.filename + Newline(segs[5])
  {
    FieldRebuilds(segs[0], CUSTOMER);
    FieldRebuilds(segs[1], SITE);
    FieldRebuilds(segs[2], ROBOT);
    FieldRebuilds(segs[3], SOURCE);
    FieldRebuilds(segs[4], DATE);
    FileNameValid(segs[5]);
  }

  /** Paths that differ only behind the last segment differ only at the end. */
  lemma {:induction false} JoinLast(a: seq<string>, b: seq<string>, tail: string)
    requires |a| == |b| >= 1
    requires a[..|a| - 1] == b[..|b| - 1]
    requires a[|a| - 1] == b[|b| - 1] + tail
    ensures Join(a) == Join(b) + tail
  {
    if |a| > 1 {
      assert a[0] == a[..|a| - 1][0] == b[0];
      assert a[1..][..|a| - 2] == a[..|a| - 1][1..];
      assert b[1..][..|b| - 2] == b[..|b| - 1][1..];
      JoinLast(a[1..], b[1..], tail);
    }
  }

  lemma RebuildSegments(segs: seq<string>, d: Dims)
    requires ParseSegments(segs) == Some(d)
    requires forall i | 0 <= i < |segs| :: '/' !in segs[i]
    ensures Join(segs) == Rebuild(d) + Newline(segs[5])
  {
    ParsedSegments(segs);
    JoinLast(segs, Segments(d), Newline(segs[5]));
  }

  /**
   What a successful parse means: the dimensions are valid, and rebuilding gives the key back
   up to leading slashes, except that a trailing newline is lost.
   */
  lemma RebuildParse(key: string)
    requires Parse(key).Some?
    ensures Valid(Parse(key).value)
    ensures StripSlashes(key) != ""
    ensures StripSlashes(key) == Rebuild(Parse(key).value) + Newline(key)
  {
    var segs := Split(StripSlashes(key));
    var d := Parse(key).value;
    ParsedSegments(segs);
    LastSegmentEndsKey(key, segs);
    RebuildSegments(segs, d);
  }

  /**
   `resolve_key_dims` for an object store, whose sources never override the key: the parse is
   trusted only when it rebuilds to the key.
   */
  function Resolve(key: string): (r: Option<Dims>)
    ensures r.Some? ==> Rebuild(r.value) == StripSlashes(key)
  {
    match Parse(key)
    case None => None
    case Some(d) => if Rebuild(d) == StripSlashes(key) then Some(d) else None
  }

  /** `s` with `n` slashes in front. */
  function Slashed(n: nat, s: string): (r: string)
    ensures |r| == n + |s|
  {
    if n == 0 then s else "/" + Slashed(n - 1, s)
  }

  lemma {:induction false} SlashesStripped(n: nat, s: string)
    ensures StripSlashes(Slashed(n, s)) == StripSlashes(s)
  {
    if n > 0 {
      SlashesStripped(n - 1, s);
      assert Slashed(n, s)[1..] == Slashed(n - 1, s);
    }
  }

  /** A rebuilt key parses the same behind any number of leading slashes. */
  lemma SlashedKeyParses(d: Dims, n: nat)
    requires Valid(d)
    ensures Parse(Slashed(n, Rebuild(d))) == Some(d)
  {
    hide Valid, Rebuild, ParseSegments, Split, StripSlashes;
    ParseRebuild(d);
    SlashesStripped(n, Rebuild(d));
  }

  /** A rebuilt key parses the same with a newline behind it, and only the guard tells the two apart. */
  lemma NewlineKeyParses(d: Dims)
    requires Valid(d)
    ensures Parse(Rebuild(d) + "\n") == Some(d) && Resolve(Rebuild(d) + "\n").None?
  {
    var key := Rebuild(d) + "\n";
    var segs := Segments(d)[5 := d.filename + "\n"];
    SegmentsHaveNoSlash(d);
    JoinLast(segs, Segments(d), "\n");
    assert Rebuild(d)[0] == 'c';
    assert StripSlashes(key) == key;
    SplitJoin(segs);
    NewlineFileName(d.filename);
    FieldInverse(CUSTOMER, d.customer);
    FieldInverse(SITE, d.site);
    FieldInverse(ROBOT, d.robot);
    FieldInverse(SOURCE, d.source);
    FieldInverse(DATE, d.date);
  }

  lemma NewlineFileName(name: string)
    requires HasSuffix(name, EXTENSION) && |name| > |EXTENSION|
    ensures FileName(name + "\n") == Some(name)
  {
    var seg := name + "\n";
    assert seg[|seg| - 6..] == EXTENSION + "\n";
    assert seg[|seg| - 1] == '\n' && seg[|seg| - 5..][4] == '\n';
    assert seg[..|seg| - 1] == name;
  }

  /** The guard rejects exactly the parses that dropped a trailing newline. */
  lemma ResolveAcceptsIff(key: string)
    ensures Resolve(key).Some? <==> Parse(key).Some? && Newline(key) == ""
    ensures Resolve(key).Some? ==> Valid(Resolve(key).value)
  {
    if Parse(key).Some? {
      RebuildParse(key);
    }
  }

  /** Keys an object store lists for cataloging: no leading slash. */
  predicate Canonical(key: string)
  {
    StripSlashes(key) == key
  }

  /** Two canonical keys with the same identity are the same key. */
  lemma IdentityIsInjective(a: string, b: string)
    requires Canonical(a) && Canonical(b)
    requires Resolve(a).Some? && Resolve(a) == Resolve(b)
    ensures a == b
  {
  }
}
