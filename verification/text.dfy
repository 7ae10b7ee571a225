/**
 * The two string rewrites of the mail pipeline: the global replacement of the
 * `{{name}}` placeholder (`html.replace(/\{\{name\}\}/g, name)`) and the
 * plain-text fallback that deletes every match of `/<[^>]+>/g`.
 */
module Text {

  /** The personalisation placeholder the pull-mode handlers substitute. */
  const NamePlaceholder: string := "{{name}}"

  predicate StartsWith(s: string, p: string) {
    |p| <= |s| && s[..|p|] == p
  }

  /** `p` occurs somewhere in `s`. */
  predicate Occurs(s: string, p: string) {
    exists i :: 0 <= i <= |s| && StartsWith(s[i..], p)
  }

  // ---------------------------------------------------------------------
  // Global replacement
  // ---------------------------------------------------------------------

  /**
   * Replaces every occurrence of `p` in `s` by `rep`, scanning left to right
   * and resuming after each match, as a global regular-expression replace does
   * for a literal pattern.
   */
  function ReplaceAll(s: string, p: string, rep: string): string
    requires |p| > 0
    decreases |s|
  {
    if |s| == 0 then s
    else if StartsWith(s, p) then rep + ReplaceAll(s[|p|..], p, rep)
    else [s[0]] + ReplaceAll(s[1..], p, rep)
  }

  /** `parts` glued together with `sep` between consecutive parts. */
  function Join(parts: seq<string>, sep: string): string
    requires |parts| > 0
  {
    if |parts| == 1 then parts[0] else parts[0] + sep + Join(parts[1..], sep)
  }

  /** No proper suffix of `p` is also a prefix of it, so two occurrences can never overlap. */
  predicate Borderless(p: string) {
    forall k :: 0 < k < |p| ==> p[k..] != p[..|p| - k]
  }

  lemma NamePlaceholderIsBorderless()
    ensures Borderless(NamePlaceholder)
  {
    var p := NamePlaceholder;
    forall k | 0 < k < |p|
      ensures p[k..] != p[..|p| - k]
    {
      if k == 1 {
        assert p[k..][1] != p[..|p| - k][1];
      } else {
        assert p[k] != '{';
        assert p[k..][0] != p[..|p| - k][0];
      }
    }
  }

  lemma OccursShift(s: string, p: string)
    requires |s| > 0 && Occurs(s[1..], p)
    ensures Occurs(s, p)
  {
    var i :| 0 <= i <= |s[1..]| && StartsWith(s[1..][i..], p);
    assert s[1..][i..] == s[i + 1..];
  }

  /**
   * If a short piece followed by `p` started with `p`, then `p` would have a
   * suffix equal to its own prefix.
   */
  lemma ShortPartMatchIsBorder(part: string, t: string, p: string)
    requires 0 < |part| < |p|
    requires StartsWith(t, p)
    requires StartsWith(part + t, p)
    ensures p[|part|..] == p[..|p| - |part|]
  {
    var m := |part|;
    var w := (part + t)[..|p|];
    assert w == part + t[..|p| - m];
    assert t[..|p| - m] == p[..|p| - m];
    assert w[m..] == p[..|p| - m];
  }

  /** A piece at least as long as `p` that, extended, starts with `p` already contains `p`. */
  lemma LongPartMatchOccurs(part: string, t: string, p: string)
    requires |part| >= |p|
    requires StartsWith(part + t, p)
    ensures Occurs(part, p)
  {
    assert (part + t)[..|p|] == part[..|p|];
    assert part[0..] == part;
    assert StartsWith(part[0..], p);
  }

  /** A non-empty piece without `p`, followed by empty text or by `p`, does not start with `p`. */
  lemma PartDoesNotStartMatch(part: string, t: string, p: string)
    requires |p| > 0 && Borderless(p)
    requires |part| > 0 && !Occurs(part, p)
    requires t == [] || StartsWith(t, p)
    ensures !StartsWith(part + t, p)
  {
    var s := part + t;
    if StartsWith(s, p) {
      if |part| >= |p| {
        LongPartMatchOccurs(part, t, p);
        assert false;
      } else {
        ShortPartMatchIsBorder(part, t, p);
        assert false;
      }
    }
  }

  /** Text without an occurrence of `p` is left unchanged by the replacement. */
  lemma {:induction false} ReplaceWithoutMatch(s: string, p: string, rep: string)
    requires |p| > 0 && !Occurs(s, p)
    ensures ReplaceAll(s, p, rep) == s
    decreases |s|
  {
    if |s| > 0 {
      assert s[0..] == s;
      if Occurs(s[1..], p) {
        OccursShift(s, p);
      }
      ReplaceWithoutMatch(s[1..], p, rep);
      assert s == [s[0]] + s[1..];
    }
  }

  /**
   * A piece without an occurrence of a borderless `p`, followed by text that is
   * empty or starts with `p`, passes through the replacement untouched.
   */
  lemma {:induction false} ReplaceSkipsPart(part: string, t: string, p: string, rep: string)
    requires |p| > 0 && Borderless(p)
    requires !Occurs(part, p)
    requires t == [] || StartsWith(t, p)
    ensures ReplaceAll(part + t, p, rep) == part + ReplaceAll(t, p, rep)
    decreases |part|
  {
    if |part| == 0 {
      assert part + t == t;
    } else {
      var s := part + t;
      PartDoesNotStartMatch(part, t, p);
      assert ReplaceAll(s, p, rep) == [s[0]] + ReplaceAll(s[1..], p, rep);
      if Occurs(part[1..], p) {
        OccursShift(part, p);
      }
      ReplaceSkipsPart(part[1..], t, p, rep);
      assert s[1..] == part[1..] + t;
      assert [s[0]] + part[1..] == part;
    }
  }

  /**
   * Splitting the text at the placeholder and joining it again with `rep`
   * is exactly what the replacement does: each occurrence becomes `rep` and
   * every other character is kept in place.
   */
  lemma {:induction false} ReplaceAllIsSplitJoin(parts: seq<string>, rep: string)
    requires |parts| > 0
    requires forall i :: 0 <= i < |parts| ==> !Occurs(parts[i], NamePlaceholder)
    ensures ReplaceAll(Join(parts, NamePlaceholder), NamePlaceholder, rep) == Join(parts, rep)
    decreases |parts|
  {
    var p := NamePlaceholder;
    NamePlaceholderIsBorderless();
    if |parts| == 1 {
      ReplaceWithoutMatch(parts[0], p, rep);
    } else {
      var rest := Join(parts[1..], p);
      var t := p + rest;
      assert t[..|p|] == p;
      ReplaceSkipsPart(parts[0], t, p, rep);
      assert Join(parts, p) == parts[0] + t;
      assert t[|p|..] == rest;
      assert ReplaceAll(t, p, rep) == rep + ReplaceAll(rest, p, rep);
      ReplaceAllIsSplitJoin(parts[1..], rep);
      assert Join(parts, rep) == parts[0] + rep + Join(parts[1..], rep);
    }
  }

  /** Substituting the placeholder by itself changes nothing. */
  lemma {:induction false} ReplaceBySelf(s: string, p: string)
    requires |p| > 0
    ensures ReplaceAll(s, p, p) == s
    decreases |s|
  {
    if |s| == 0 {
    } else if StartsWith(s, p) {
      ReplaceBySelf(s[|p|..], p);
      assert s == s[..|p|] + s[|p|..];
    } else {
      ReplaceBySelf(s[1..], p);
      assert s == [s[0]] + s[1..];
    }
  }

  // ---------------------------------------------------------------------
  // Tag stripping
  // ---------------------------------------------------------------------

  /**
   * `/<[^>]+>/` matches at `i`: a `<`, at least one character that is not `>`,
   * then a `>` somewhere later.
   */
  predicate TagAt(s: string, i: int)
    requires 0 <= i < |s|
  {
    s[i] == '<' && i + 1 < |s| && s[i + 1] != '>' && '>' in s[i + 2..]
  }

  /** No position of `s` starts a tag. */
  predicate TagFree(s: string) {
    forall i :: 0 <= i < |s| ==> !TagAt(s, i)
  }

  /** The index of the first `c` in `s`. */
  function FirstIndex(s: string, c: char): (k: nat)
    requires c in s
    ensures k < |s| && s[k] == c && c !in s[..k]
  {
    if s[0] == c then 0
    else
      assert c in s[1..] by { assert s == [s[0]] + s[1..]; }
      var k := 1 + FirstIndex(s[1..], c);
      assert s[..k] == [s[0]] + s[1..][..k - 1];
      k
  }

  /**
   * `html.replace(/<[^>]+>/g, '')`: a left-to-right scan that deletes each tag
   * from its `<` through the first `>` after it and keeps every other character.
   */
  function StripTags(s: string): (r: string)
    ensures |r| <= |s|
    ensures multiset(r) <= multiset(s)
    decreases |s|
  {
    if |s| == 0 then s
    else if TagAt(s, 0) then
      var close := FirstIndex(s[2..], '>') + 3;
      assert s == s[..close] + s[close..];
      StripTags(s[close..])
    else
      assert s == [s[0]] + s[1..];
      [s[0]] + StripTags(s[1..])
  }

  lemma TagAtShift(s: string, i: int)
    requires 0 <= i < |s| - 1
    ensures TagAt(s, i + 1) <==> TagAt(s[1..], i)
  {
    if i + 2 < |s| {
      assert s[1..][i + 2..] == s[i + 3..];
    }
  }

  /** Text without any tag is left exactly as it is. */
  lemma {:induction false} StripTagsKeepsTagFree(s: string)
    requires TagFree(s)
    ensures StripTags(s) == s
    decreases |s|
  {
    if |s| > 0 {
      assert !TagAt(s, 0);
      forall i | 0 <= i < |s[1..]|
        ensures !TagAt(s[1..], i)
      {
        TagAtShift(s, i);
      }
      StripTagsKeepsTagFree(s[1..]);
      assert s == [s[0]] + s[1..];
    }
  }

  /** The character kept at the front of the scan does not start a tag. */
  lemma KeptHeadIsNotTag(s: string)
    requires |s| > 0 && !TagAt(s, 0)
    ensures !TagAt([s[0]] + StripTags(s[1..]), 0)
  {
    var tail := StripTags(s[1..]);
    var r := [s[0]] + tail;
    if s[0] == '<' && |r| > 1 {
      assert |s| > 1;
      if s[1] == '>' {
        assert !TagAt(s[1..], 0);
        assert s[1..][1..] == s[2..];
        assert tail == [s[1]] + StripTags(s[2..]);
        assert r[1] == '>';
      } else {
        assert '>' !in s[2..];
        assert s[1..] == [s[1]] + s[2..];
        assert '>' !in multiset(s[1..]);
        assert '>' !in multiset(tail);
        assert r[2..] == tail[1..];
        assert forall c :: c in tail[1..] ==> c in tail;
      }
    }
  }

  /** The fallback text never contains another match of the tag pattern. */
  lemma {:induction false} StripTagsIsTagFree(s: string)
    ensures TagFree(StripTags(s))
    decreases |s|
  {
    if |s| == 0 {
    } else if TagAt(s, 0) {
      var close := FirstIndex(s[2..], '>') + 3;
      StripTagsIsTagFree(s[close..]);
    } else {
      var tail := StripTags(s[1..]);
      var r := [s[0]] + tail;
      assert StripTags(s) == r;
      StripTagsIsTagFree(s[1..]);
      KeptHeadIsNotTag(s);
      assert r[1..] == tail;
      forall i | 0 < i < |r|
        ensures !TagAt(r, i)
      {
        TagAtShift(r, i - 1);
      }
    }
  }

  /** Stripping twice is the same as stripping once. */
  lemma StripTagsIdempotent(s: string)
    ensures StripTags(StripTags(s)) == StripTags(s)
  {
    StripTagsIsTagFree(s);
    StripTagsKeepsTagFree(StripTags(s));
  }

  /** Text without a `<` has no tag, so stripping leaves it unchanged. */
  lemma StripTagsWithoutOpeningBracket(s: string)
    requires '<' !in s
    ensures StripTags(s) == s
  {
    assert TagFree(s) by {
      forall i | 0 <= i < |s| ensures !TagAt(s, i) {
        assert s[i] in s;
      }
    }
    StripTagsKeepsTagFree(s);
  }
}
