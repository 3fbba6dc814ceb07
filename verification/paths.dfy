/**
 * Dotted paths. A literal's path is the names of the open entities followed
 * by the literal's own name, joined by the separator `.`
 * (MetamorphTest.java builds the registered path as "testEntity" + '.' + "testLiteral").
 */
module Paths {

  const Separator: char := '.'

  /** True when `p` is a prefix of `s`. */
  predicate IsPrefix(p: string, s: string) {
    |p| <= |s| && s[..|p|] == p
  }

  /** True when `p` is a suffix of `s`. */
  predicate IsSuffix(p: string, s: string) {
    |p| <= |s| && s[|s| - |p|..] == p
  }

  /** A segment that can be recovered from a joined path: it holds no separator. */
  predicate PlainSegment(s: string) {
    Separator !in s
  }

  /** The segments joined by the separator. */
  function Join(segs: seq<string>): string
  {
    if |segs| == 0 then ""
    else if |segs| == 1 then segs[0]
    else segs[0] + [Separator] + Join(segs[1..])
  }

  /** The path of a literal named `name` while the entities `stack` are open (outermost first). */
  function Path(stack: seq<string>, name: string): string
  {
    Join(stack + [name])
  }

  /** A join starts with its first segment and ends with its last. */
  lemma {:induction false} JoinAffixes(segs: seq<string>)
    requires |segs| > 0
    ensures IsPrefix(segs[0], Join(segs))
    ensures IsSuffix(segs[|segs| - 1], Join(segs))
  {
    if |segs| > 1 {
      JoinAffixes(segs[1..]);
      var rest := Join(segs[1..]);
      var r := segs[0] + [Separator] + rest;
      assert r[..|segs[0]|] == segs[0];
      assert r[|r| - |rest|..] == rest;
      var last := segs[|segs| - 1];
      assert last == segs[1..][|segs[1..]| - 1];
      assert rest[|rest| - |last|..] == last;
      assert r[|r| - |last|..] == rest[|rest| - |last|..];
    }
  }

  /**
   * A literal's path ends with the literal's name, is that name when no entity is
   * open, and otherwise starts with the outermost open entity.
   */
  lemma PathAffixes(stack: seq<string>, name: string)
    ensures IsSuffix(name, Path(stack, name))
    ensures |stack| == 0 ==> Path(stack, name) == name
    ensures |stack| > 0 ==> IsPrefix(stack[0], Path(stack, name))
  {
    var segs := stack + [name];
    JoinAffixes(segs);
    assert segs[|segs| - 1] == name;
    if |stack| > 0 {
      assert segs[0] == stack[0];
    } else {
      assert segs == [name];
    }
  }

  /** The position of the first occurrence of `c` in `s`. */
  function IndexOf(s: string, c: char): (i: nat)
    requires c in s
    ensures i < |s| && s[i] == c
    ensures c !in s[..i]
  {
    if s[0] == c then 0 else 1 + IndexOf(s[1..], c)
  }

  /** The segments of a dotted path: the inverse of `Join` on plain segments. */
  function Split(s: string): (r: seq<string>)
    ensures |r| > 0
    ensures forall i :: 0 <= i < |r| ==> PlainSegment(r[i])
    decreases |s|
  {
    if Separator !in s then [s]
    else
      var i := IndexOf(s, Separator);
      [s[..i]] + Split(s[i + 1..])
  }

  /** The first occurrence is the only position before which `c` is absent. */
  lemma {:induction false} IndexOfUnique(s: string, c: char, k: nat)
    requires k < |s| && s[k] == c && c !in s[..k]
    ensures IndexOf(s, c) == k
  {
    if k > 0 {
      assert s[0] == s[..k][0];
      assert s[1..][..k - 1] == s[..k][1..];
      IndexOfUnique(s[1..], c, k - 1);
    }
  }

  /** Splitting a join of plain segments gives the segments back. */
  lemma {:induction false} SplitJoin(segs: seq<string>)
    requires |segs| > 0
    requires forall i :: 0 <= i < |segs| ==> PlainSegment(segs[i])
    ensures Split(Join(segs)) == segs
  {
    if |segs| > 1 {
      var head, rest := segs[0], Join(segs[1..]);
      var s := head + [Separator] + rest;
      assert Join(segs) == s;
      var k := |head|;
      assert s[..k] == head;
      assert s[k] == Separator;
      IndexOfUnique(s, Separator, k);
      assert s[k + 1..] == rest;
      SplitJoin(segs[1..]);
      assert Split(s) == [head] + segs[1..];
    }
  }

  /** Joining the segments of any string rebuilds it. */
  lemma {:induction false} JoinSplit(s: string)
    ensures Join(Split(s)) == s
    decreases |s|
  {
    if Separator in s {
      var i := IndexOf(s, Separator);
      var head, rest := s[..i], s[i + 1..];
      var tail := Split(rest);
      assert Split(s) == [head] + tail;
      JoinSplit(rest);
      JoinCons(head, tail);
      assert s == head + [Separator] + rest;
    }
  }

  /** Joining a segment in front of a non-empty sequence adds it and one separator. */
  lemma JoinCons(head: string, tail: seq<string>)
    requires |tail| > 0
    ensures Join([head] + tail) == head + [Separator] + Join(tail)
  {
    assert ([head] + tail)[1..] == tail;
  }

  /** Appending one segment to a non-empty join adds one separator and the segment. */
  lemma {:induction false} JoinSnoc(segs: seq<string>, last: string)
    requires |segs| > 0
    ensures Join(segs + [last]) == Join(segs) + [Separator] + last
  {
    if |segs| > 1 {
      assert (segs + [last])[1..] == segs[1..] + [last];
      JoinSnoc(segs[1..], last);
    } else {
      assert segs + [last] == [segs[0], last];
    }
  }

  /**
   * Flattening: a literal inside entities `outer + inner` has the same path as a
   * literal inside `outer` alone whose name is the dotted rest of the path.
   */
  lemma {:induction false} PathFlatten(outer: seq<string>, inner: seq<string>, name: string)
    ensures Path(outer + inner, name) == Path(outer, Join(inner + [name]))
  {
    if |outer| > 0 {
      assert (outer + inner + [name])[1..] == outer[1..] + inner + [name];
      assert (outer + [Join(inner + [name])])[1..] == outer[1..] + [Join(inner + [name])];
      PathFlatten(outer[1..], inner, name);
      if |outer| == 1 {
        assert outer[1..] + inner == inner;
      }
    } else {
      assert outer + inner == inner;
    }
  }

  /** A literal inside one entity has the path of a top-level literal named `entity.name`. */
  lemma PathOfInnermostEntity(stack: seq<string>, entity: string, name: string)
    ensures Path(stack + [entity], name) == Path(stack, entity + [Separator] + name)
  {
    PathFlatten(stack, [entity], name);
    assert [entity] + [name] == [entity, name];
  }

  /**
   * While entities are open, the path starts with all their names in open order,
   * followed by the separator; with plain names the path splits back into them.
   */
  lemma PathSegments(stack: seq<string>, name: string)
    ensures |stack| > 0 ==> IsPrefix(Join(stack) + [Separator], Path(stack, name))
    ensures ((forall i :: 0 <= i < |stack| ==> PlainSegment(stack[i])) && PlainSegment(name)) ==>
              Split(Path(stack, name)) == stack + [name]
  {
    if |stack| > 0 {
      JoinSnoc(stack, name);
      var p := Join(stack) + [Separator];
      assert Path(stack, name) == p + name;
      assert (p + name)[..|p|] == p;
    }
    if (forall i :: 0 <= i < |stack| ==> PlainSegment(stack[i])) && PlainSegment(name) {
      var segs := stack + [name];
      assert forall i :: 0 <= i < |segs| ==> PlainSegment(segs[i]) by {
        forall i | 0 <= i < |segs| ensures PlainSegment(segs[i]) {
          if i < |stack| { assert segs[i] == stack[i]; }
        }
      }
      SplitJoin(segs);
    }
  }
}
