/**
 * The textual form of an openEHR OBJECT_VERSION_ID,
 * `objectId::creatingSystemId::versionTreeId`, as the controllers build
 * it by concatenation or String.format("%s::%s::%d", ...) (the latter
 * under a default format locale with ASCII digits), and the facts
 * about Java's string operations that let it be taken apart again.
 */
module VersionUid {
  import opened JavaText
  import opened Uuids

  const Sep: string := "::"

  /** new ObjectVersionId(objectId, node, tree).toString(), and `a + "::" + b + "::" + c`. */
  function FormatUid(objectId: string, node: string, tree: string): string {
    objectId + Sep + node + Sep + tree
  }

  /** The same with an integer ordinal, written by Integer.toString, or "%d" under a locale with ASCII digits. */
  function FormatVersionUid(objectId: string, node: string, ordinal: int): string {
    FormatUid(objectId, node, IntToString(ordinal))
  }

  /** No ':' in `s` at all. */
  predicate ColonFree(s: string) { forall i :: 0 <= i < |s| ==> s[i] != ':' }

  /**
   * `p` can stand before a "::" separator and be split off again: the
   * separator appended to it is the first "::" of `p + "::"`.
   */
  predicate IsSegment(p: string) { IndexOf(p + Sep, Sep) == |p| }

  /** A segment is exactly a string without "::" that does not end in ':'. */
  lemma SegmentCharacterisation(p: string)
    ensures IsSegment(p) <==> !Contains(p, Sep) && (|p| == 0 || p[|p| - 1] != ':')
  {
    var w := p + Sep;
    assert OccursAt(w, Sep, |p|);
    if IsSegment(p) {
      if Contains(p, Sep) {
        var k := IndexOf(p, Sep);
        assert w[k..k + 2] == p[k..k + 2];
        assert OccursAt(w, Sep, k);
      }
      if |p| > 0 && p[|p| - 1] == ':' {
        assert w[|p| - 1..|p| + 1] == Sep;
        assert OccursAt(w, Sep, |p| - 1);
      }
    } else {
      var k := IndexOf(w, Sep);
      assert 0 <= k < |p|;
      if k < |p| - 1 {
        assert p[k..k + 2] == w[k..k + 2];
        assert OccursAt(p, Sep, k);
      } else {
        assert p[|p| - 1] == w[k];
      }
    }
  }

  lemma ColonFreeHasNoSep(s: string)
    requires ColonFree(s)
    ensures IndexOf(s, Sep) == -1
  {
    var k := IndexOf(s, Sep);
    if k >= 0 {
      assert s[k..k + 2][0] == s[k];
    }
  }

  lemma ColonFreeIsSegment(s: string)
    requires ColonFree(s)
    ensures IsSegment(s)
  {
    ColonFreeHasNoSep(s);
    SegmentCharacterisation(s);
  }

  lemma UuidIsSegment(u: Uuid)
    ensures ColonFree(u) && IsSegment(u)
  {
    UuidHasNoColon(u);
    ColonFreeIsSegment(u);
  }

  lemma IntToStringColonFree(n: int)
    ensures ColonFree(IntToString(n))
  {
  }

  /** The first "::" of `p + "::" + rest` is the one after `p`, when `p` is a segment. */
  lemma IndexOfAfterSegment(p: string, rest: string)
    requires IsSegment(p)
    ensures IndexOf(p + Sep + rest, Sep) == |p|
  {
    IndexOfExtend(p + Sep, rest, Sep);
  }

  lemma NoSepIntoColonFree(p: string, d: string, i: int)
    requires ColonFree(d) && i > |p|
    ensures !OccursAt(p + Sep + d, Sep, i)
  {
    var s := p + Sep + d;
    if i + 2 <= |s| {
      assert s[i + 1] == d[i + 1 - |p| - 2];
      assert s[i..i + 2][1] == s[i + 1];
    }
  }

  /** The last "::" of `p + "::" + d` is the one after `p`, when `d` holds no ':'. */
  lemma LastIndexOfBeforeColonFree(p: string, d: string)
    requires ColonFree(d)
    ensures LastIndexOf(p + Sep + d, Sep) == |p|
  {
    var s := p + Sep + d;
    assert s[|p|..|p| + 2] == Sep;
    assert OccursAt(s, Sep, |p|);
    forall i | i > |p| ensures !OccursAt(s, Sep, i) {
      NoSepIntoColonFree(p, d, i);
    }
  }

  /**
   * Splitting a formatted uid by "::" gives back its three parts, when
   * the object id and the node name are segments.
   */
  lemma SplitFormatUid(objectId: string, node: string, tree: string)
    requires IsSegment(objectId) && IsSegment(node)
    requires ColonFree(tree) && |tree| > 0
    ensures Split(FormatUid(objectId, node, tree), Sep) == [objectId, node, tree]
  {
    var s := FormatUid(objectId, node, tree);
    assert s == objectId + Sep + (node + Sep + tree);
    SplitPiecesCons(objectId, Sep, node + Sep + tree);
    SplitPiecesCons(node, Sep, tree);
    ColonFreeHasNoSep(tree);
    IndexOfAfterSegment(objectId, node + Sep + tree);
    assert SplitPieces(s, Sep) == [objectId, node, tree];
  }

  /** A uid with a fourth segment appended splits into all four parts. */
  lemma SplitExtendedUid(objectId: string, node: string, tree: string, extra: string)
    requires IsSegment(objectId) && IsSegment(node) && IsSegment(tree)
    requires ColonFree(extra) && |extra| > 0
    ensures Split(FormatUid(objectId, node, tree) + Sep + extra, Sep) == [objectId, node, tree, extra]
  {
    var r1 := node + Sep + (tree + Sep + extra);
    assert FormatUid(objectId, node, tree) + Sep + extra == objectId + Sep + r1;
    ThreePieces(node, tree, extra);
    SplitAfterSegment(objectId, r1, [node, tree, extra]);
  }

  lemma ThreePieces(node: string, tree: string, extra: string)
    requires IsSegment(node) && IsSegment(tree) && ColonFree(extra)
    ensures SplitPieces(node + Sep + (tree + Sep + extra), Sep) == [node, tree, extra]
  {
    ColonFreeHasNoSep(extra);
    assert SplitPieces(extra, Sep) == [extra];
    SplitPiecesCons(tree, Sep, extra);
    SplitPiecesCons(node, Sep, tree + Sep + extra);
  }

  /**
   * Splitting `p + "::" + rest`, for a segment `p`, gives `p` followed by
   * the pieces of `rest`, when the last of those is not empty.
   */
  lemma SplitAfterSegment(p: string, rest: string, tail: seq<string>)
    requires IsSegment(p)
    requires SplitPieces(rest, Sep) == tail && tail[|tail| - 1] != ""
    ensures Split(p + Sep + rest, Sep) == [p] + tail
  {
    SplitPiecesCons(p, Sep, rest);
    IndexOfAfterSegment(p, rest);
    var ps := [p] + tail;
    assert ps[|ps| - 1] != "";
  }

  /** Two uids of the same object and node are equal only when their ordinals are. */
  lemma FormatVersionUidInjective(objectId: string, node: string, a: int, b: int)
    requires FormatVersionUid(objectId, node, a) == FormatVersionUid(objectId, node, b)
    ensures a == b
  {
    var prefix := objectId + Sep + node + Sep;
    assert FormatVersionUid(objectId, node, a) == prefix + IntToString(a);
    assert FormatVersionUid(objectId, node, b) == prefix + IntToString(b);
    assert IntToString(a) == (prefix + IntToString(a))[|prefix|..];
    assert IntToString(b) == (prefix + IntToString(b))[|prefix|..];
    IntToStringInjective(a, b);
  }
}
