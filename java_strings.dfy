/**
 * The three `java.lang.String` operations the core relies on:
 * `endsWith`, `replace(CharSequence, CharSequence)` and `String.join`.
 */
module JavaStrings {

  /**
   * `s.endsWith(suffix)`, compared from the last character backwards; every
   * string ends with the empty suffix.
   */
  predicate EndsWith(s: string, suffix: string)
    ensures EndsWith(s, suffix) ==> |suffix| <= |s|
    decreases |suffix|
  {
    |suffix| == 0 ||
    (|s| > 0 && s[|s| - 1] == suffix[|suffix| - 1] && EndsWith(s[..|s| - 1], suffix[..|suffix| - 1]))
  }

  /** `endsWith` agrees with Java's definition: the last `|suffix|` characters are the suffix. */
  lemma {:induction false} EndsWithIsTailSlice(s: string, suffix: string)
    ensures EndsWith(s, suffix) <==> |suffix| <= |s| && s[|s| - |suffix|..] == suffix
    decreases |suffix|
  {
    if |suffix| > 0 && |s| > 0 {
      var s', t' := s[..|s| - 1], suffix[..|suffix| - 1];
      EndsWithIsTailSlice(s', t');
      if |suffix| <= |s| {
        assert s[|s| - |suffix|..] == s'[|s'| - |t'|..] + [s[|s| - 1]];
        assert suffix == t' + [suffix[|suffix| - 1]];
      }
    }
  }

  /** True when `target` starts at index `i` of `s`. */
  predicate OccursAt(s: string, target: string, i: nat)
  {
    i + |target| <= |s| && s[i..i + |target|] == target
  }

  /**
   * `s.replace(target, replacement)`: scans left to right and replaces every
   * non-overlapping occurrence of `target`. The source only calls it with a
   * non-empty literal target.
   */
  function ReplaceAll(s: string, target: string, replacement: string): (r: string)
    requires |target| > 0
    ensures |replacement| == |target| ==> |r| == |s|
    decreases |s|
  {
    if |s| < |target| then s
    else if s[..|target|] == target then replacement + ReplaceAll(s[|target|..], target, replacement)
    else [s[0]] + ReplaceAll(s[1..], target, replacement)
  }

  /** `String.join(separator, parts)`. */
  function Join(separator: string, parts: seq<string>): (r: string)
    ensures |parts| > 0 ==> |parts[0]| <= |r| && r[..|parts[0]|] == parts[0]
    ensures |parts| > 1 ==> |parts[0]| + |separator| <= |r| && r[|parts[0]|..|parts[0]| + |separator|] == separator
  {
    if |parts| == 0 then ""
    else if |parts| == 1 then parts[0]
    else parts[0] + separator + Join(separator, parts[1..])
  }

  /** Two suffixes that end in different characters never both match. */
  lemma EndsWithLastChar(s: string, suffix: string)
    requires |suffix| > 0 && EndsWith(s, suffix)
    ensures |s| > 0 && s[|s| - 1] == suffix[|suffix| - 1]
  {
  }

  /** A string without an occurrence of the target is returned unchanged. */
  lemma {:induction false} ReplaceAllNoOccurrence(s: string, target: string, replacement: string)
    requires |target| > 0
    requires forall i: nat :: !OccursAt(s, target, i)
    ensures ReplaceAll(s, target, replacement) == s
  {
    if |s| >= |target| {
      assert !OccursAt(s, target, 0);
      assert s[..|target|] != target;
      forall i: nat
        ensures !OccursAt(s[1..], target, i)
      {
        assert !OccursAt(s, target, i + 1);
        if i + |target| <= |s[1..]| {
          assert s[1..][i..i + |target|] == s[i + 1..i + 1 + |target|];
        }
      }
      ReplaceAllNoOccurrence(s[1..], target, replacement);
      assert [s[0]] + s[1..] == s;
    }
  }

  /** Replacing the target by itself changes nothing. */
  lemma {:induction false} ReplaceAllIdentity(s: string, target: string)
    requires |target| > 0
    ensures ReplaceAll(s, target, target) == s
  {
    if |s| >= |target| {
      if s[..|target|] == target {
        ReplaceAllIdentity(s[|target|..], target);
        assert target + s[|target|..] == s;
      } else {
        ReplaceAllIdentity(s[1..], target);
        assert [s[0]] + s[1..] == s;
      }
    }
  }

  /**
   * The first occurrence is replaced and the scan resumes right after it:
   * when `prefix` holds no occurrence that starts inside it, the text before
   * the target is kept and the target becomes the replacement.
   */
  lemma {:induction false} ReplaceAllFirstOccurrence(prefix: string, target: string, rest: string, replacement: string)
    requires |target| > 0
    requires forall i: nat :: i < |prefix| ==> !OccursAt(prefix + target + rest, target, i)
    ensures ReplaceAll(prefix + target + rest, target, replacement)
         == prefix + replacement + ReplaceAll(rest, target, replacement)
  {
    var s := prefix + target + rest;
    if |prefix| == 0 {
      assert s == target + rest;
      assert s[..|target|] == target;
      assert s[|target|..] == rest;
    } else {
      assert !OccursAt(s, target, 0);
      assert s[..|target|] != target;
      var tail := prefix[1..] + target + rest;
      assert s[1..] == tail;
      forall i: nat | i < |prefix[1..]|
        ensures !OccursAt(tail, target, i)
      {
        assert !OccursAt(s, target, i + 1);
        if i + |target| <= |tail| {
          assert tail[i..i + |target|] == s[i + 1..i + 1 + |target|];
        }
      }
      ReplaceAllFirstOccurrence(prefix[1..], target, rest, replacement);
      assert [s[0]] + (prefix[1..] + replacement + ReplaceAll(rest, target, replacement))
          == prefix + replacement + ReplaceAll(rest, target, replacement);
    }
  }

  /** Joining one more part appends the separator and the part. */
  lemma {:induction false} JoinAppend(separator: string, parts: seq<string>, last: string)
    requires |parts| > 0
    ensures Join(separator, parts + [last]) == Join(separator, parts) + separator + last
  {
    if |parts| == 1 {
      assert parts + [last] == [parts[0], last];
    } else {
      assert (parts + [last])[1..] == parts[1..] + [last];
      JoinAppend(separator, parts[1..], last);
    }
  }
}
