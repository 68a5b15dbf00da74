/** String facts used by the prompt builders and the canned questions, and
    Python's `sep.join(parts)`. */
module Text {

  predicate StartsWith(s: string, prefix: string)
  {
    |prefix| <= |s| && s[..|prefix|] == prefix
  }

  predicate EndsWith(s: string, suffix: string)
  {
    |suffix| <= |s| && s[|s| - |suffix|..] == suffix
  }

  /** `t` occurs in `s` starting at position `k`. */
  predicate OccursAt(s: string, t: string, k: int)
  {
    0 <= k && k + |t| <= |s| && s[k..k + |t|] == t
  }

  ghost predicate Contains(s: string, t: string)
  {
    exists k :: OccursAt(s, t, k)
  }

  /** An occurrence in `b` is an occurrence in `a + b`, shifted by `|a|`. */
  lemma OccursAfter(a: string, b: string, t: string, k: int)
    requires OccursAt(b, t, k)
    ensures OccursAt(a + b, t, |a| + k)
  {
    assert (a + b)[|a| + k..|a| + k + |t|] == b[k..k + |t|];
  }

  /** An occurrence in `a` is still one in `a + b`. */
  lemma OccursBefore(a: string, b: string, t: string, k: int)
    requires OccursAt(a, t, k)
    ensures OccursAt(a + b, t, k)
  {
    assert (a + b)[k..k + |t|] == a[k..k + |t|];
  }

  /** `t` sits between `a` and `c` in `a + t + c`. */
  lemma OccursBetween(a: string, t: string, c: string)
    ensures OccursAt(a + t + c, t, |a|)
  {
    assert (a + t + c)[|a|..|a| + |t|] == t;
  }

  /** `a + b + c` starts with `a`, ends with `c` and holds `b` in between. */
  lemma Framed(a: string, b: string, c: string)
    ensures StartsWith(a + b + c, a) && EndsWith(a + b + c, c)
    ensures (a + b + c)[|a|..|a| + |b|] == b
  {
    assert (a + b + c)[..|a|] == a;
    assert (a + b + c)[|a| + |b|..] == c;
  }

  /** Python's `sep.join(parts)`: the parts in order, with `sep` between
      neighbours and nowhere else. */
  function Join(parts: seq<string>, sep: string): (r: string)
    ensures parts == [] ==> r == ""
    ensures |parts| == 1 ==> r == parts[0]
    decreases |parts|
  {
    if |parts| == 0 then ""
    else if |parts| == 1 then parts[0]
    else parts[0] + sep + Join(parts[1..], sep)
  }

  /** Where the `i`-th part starts in `Join(parts, sep)`: the lengths of the
      parts before it, each followed by one separator. */
  function Offset(parts: seq<string>, sep: string, i: nat): nat
    requires i <= |parts|
    decreases i
  {
    if i == 0 then 0 else |parts[0]| + |sep| + Offset(parts[1..], sep, i - 1)
  }

  /** Each part starts `|parts[i-1]| + |sep|` after the one before it, so the
      parts appear in order and do not overlap. */
  lemma {:induction false} OffsetStep(parts: seq<string>, sep: string, i: nat)
    requires i < |parts|
    ensures Offset(parts, sep, i + 1) == Offset(parts, sep, i) + |parts[i]| + |sep|
    decreases i
  {
    if i > 0 {
      OffsetStep(parts[1..], sep, i - 1);
    }
  }

  /** The first part opens the joined string, and the separator follows it
      when there is a second part. */
  lemma JoinFirst(parts: seq<string>, sep: string)
    requires |parts| > 0
    ensures OccursAt(Join(parts, sep), parts[0], 0)
    ensures |parts| > 1 ==> OccursAt(Join(parts, sep), sep, |parts[0]|)
  {
    if |parts| > 1 {
      var rest := Join(parts[1..], sep);
      Framed(parts[0], sep, rest);
      assert Join(parts, sep)[0..|parts[0]|] == Join(parts, sep)[..|parts[0]|];
    }
  }

  /** The `i`-th part occurs in the joined string at its offset, and every part
      except the last is followed by the separator. */
  lemma {:induction false} JoinAt(parts: seq<string>, sep: string, i: nat)
    requires i < |parts|
    ensures OccursAt(Join(parts, sep), parts[i], Offset(parts, sep, i))
    ensures i + 1 < |parts| ==> OccursAt(Join(parts, sep), sep, Offset(parts, sep, i) + |parts[i]|)
    decreases i
  {
    if i == 0 {
      JoinFirst(parts, sep);
    } else {
      var rest := Join(parts[1..], sep);
      var k := Offset(parts[1..], sep, i - 1);
      assert Join(parts, sep) == (parts[0] + sep) + rest;
      JoinAt(parts[1..], sep, i - 1);
      OccursAfter(parts[0] + sep, rest, parts[i], k);
      if i + 1 < |parts| {
        OccursAfter(parts[0] + sep, rest, sep, k + |parts[i]|);
      }
    }
  }

  /** The length of a join: every part plus one separator between each pair. */
  lemma {:induction false} JoinLength(parts: seq<string>, sep: string)
    requires |parts| > 0
    ensures |Join(parts, sep)| + |sep| == Offset(parts, sep, |parts|)
    decreases |parts|
  {
    if |parts| > 1 {
      JoinLength(parts[1..], sep);
    }
  }
}
