/**
 * Which language key the "you are now in combat" message uses: a dedicated
 * key when the tag type or reason is UNKNOWN, otherwise
 * `tagged.<reason>.<type>` in lower case.
 */
module TagMessages {
  import opened Entities
  import opened Text

  const UnknownTagKey: string := "tagged.unknown"
  const TaggedPrefix: string := "tagged."

  /**
   * The key `sendTagMessage` sends for a fresh tag: always under `tagged.`,
   * the dedicated key for an UNKNOWN type or reason, and otherwise the
   * lower-cased reason and type names after the prefix.
   */
  function TagMessageKey(tagType: TagType, tagReason: TagReason): (key: string)
    ensures StartsWith(key, TaggedPrefix)
    ensures tagType.IsUnknown() || tagReason.IsUnknown() ==> key == UnknownTagKey
    ensures !tagType.IsUnknown() && !tagReason.IsUnknown() ==>
      key[|TaggedPrefix|..] == ToLowerAscii(tagReason.name) + "." + ToLowerAscii(tagType.name)
  {
    if tagType.IsUnknown() || tagReason.IsUnknown() then UnknownTagKey
    else TaggedPrefix + ToLowerAscii(tagReason.name) + "." + ToLowerAscii(tagType.name)
  }

  /**
   * The dedicated key is chosen exactly when the type or the reason is
   * UNKNOWN: no known pair of names can produce it, because the known-pair
   * key always carries a second dot.
   */
  lemma UnknownKeyExactly(tagType: TagType, tagReason: TagReason)
    ensures TagMessageKey(tagType, tagReason) == UnknownTagKey
        <==> tagType.IsUnknown() || tagReason.IsUnknown()
  {
    if !(tagType.IsUnknown() || tagReason.IsUnknown()) {
      var reason := ToLowerAscii(tagReason.name);
      var key := TagMessageKey(tagType, tagReason);
      assert key[|TaggedPrefix| + |reason|] == '.';
      if |key| == |UnknownTagKey| {
        assert '.' !in UnknownTagKey[|TaggedPrefix|..];
        assert UnknownTagKey[|TaggedPrefix|..][|reason|] == UnknownTagKey[|TaggedPrefix| + |reason|];
      }
    }
  }

  /** Enum constant names are Java identifiers: they contain no dot. */
  predicate DotFree(s: string) {
    '.' !in s
  }

  lemma DotFreeLower(s: string)
    requires DotFree(s)
    ensures DotFree(ToLowerAscii(s))
  {
    forall i | 0 <= i < |s|
      ensures ToLowerAscii(s)[i] != '.'
    {
      assert s[i] != '.';
    }
  }

  /**
   * A known key names its reason and type unambiguously: two known
   * (type, reason) pairs share a key only when their names agree up to case.
   */
  lemma {:induction false} KnownKeyDeterminesNames(t1: TagType, r1: TagReason, t2: TagType, r2: TagReason)
    requires !t1.IsUnknown() && !r1.IsUnknown() && !t2.IsUnknown() && !r2.IsUnknown()
    requires DotFree(r1.name) && DotFree(r2.name)
    requires TagMessageKey(t1, r1) == TagMessageKey(t2, r2)
    ensures ToLowerAscii(r1.name) == ToLowerAscii(r2.name)
    ensures ToLowerAscii(t1.name) == ToLowerAscii(t2.name)
  {
    var a, b := ToLowerAscii(r1.name), ToLowerAscii(r2.name);
    DotFreeLower(r1.name);
    DotFreeLower(r2.name);
    var tailA := a + "." + ToLowerAscii(t1.name);
    var tailB := b + "." + ToLowerAscii(t2.name);
    assert TagMessageKey(t1, r1) == TaggedPrefix + tailA;
    assert TagMessageKey(t2, r2) == TaggedPrefix + tailB;
    assert (TaggedPrefix + tailA)[|TaggedPrefix|..] == tailA;
    assert (TaggedPrefix + tailB)[|TaggedPrefix|..] == tailB;
    assert tailA == tailB;
    assert |a| == |b| by {
      assert forall i :: 0 <= i < |a| ==> tailA[i] == a[i] && a[i] != '.';
      assert forall i :: 0 <= i < |b| ==> tailB[i] == b[i] && b[i] != '.';
      assert tailA[|a|] == '.' && tailB[|b|] == '.';
    }
    assert a == tailA[..|a|] && b == tailB[..|b|];
    assert ToLowerAscii(t1.name) == tailA[|a| + 1..];
    assert ToLowerAscii(t2.name) == tailB[|b| + 1..];
  }
}
