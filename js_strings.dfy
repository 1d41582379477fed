/** The string built-ins the adapter uses on state ids: `split(".")`,
    `join(".")`, and `replace` with a string pattern, which replaces only
    the first occurrence. */
module JsStrings {
  import opened JsRuntime

  /** `s.split(".")`: empty segments are kept, and "" gives [""]. */
  function Split(s: string): (parts: seq<string>)
    ensures |parts| >= 1
    ensures forall i :: 0 <= i < |parts| ==> '.' !in parts[i]
  {
    if s == [] then [""]
    else if s[0] == '.' then [""] + Split(s[1..])
    else
      var rest := Split(s[1..]);
      [[s[0]] + rest[0]] + rest[1..]
  }

  /** `parts.join(".")`. */
  function Join(parts: seq<string>): string
  {
    if |parts| == 0 then ""
    else if |parts| == 1 then parts[0]
    else parts[0] + "." + Join(parts[1..])
  }

  /** Splitting at a dot splits both sides independently. */
  lemma {:induction false} SplitAppend(a: string, b: string)
    ensures Split(a + "." + b) == Split(a) + Split(b)
    decreases |a|
  {
    var s := a + "." + b;
    if a == [] {
      assert s[1..] == b;
      assert Split(s) == [""] + Split(b);
    } else {
      assert s[0] == a[0];
      assert s[1..] == a[1..] + "." + b;
      SplitAppend(a[1..], b);
      var r := Split(a[1..]);
      var whole := r + Split(b);
      assert Split(s[1..]) == whole;
      if a[0] == '.' {
        assert Split(s) == [""] + whole;
        assert Split(a) == [""] + r;
      } else {
        assert whole[0] == r[0];
        assert whole[1..] == r[1..] + Split(b);
        assert Split(s) == [[a[0]] + r[0]] + (r[1..] + Split(b));
        assert Split(a) == [[a[0]] + r[0]] + r[1..];
      }
    }
  }

  /** A string without dots is a single segment. */
  lemma {:induction false} SplitNoDot(k: string)
    requires '.' !in k
    ensures Split(k) == [k]
    decreases |k|
  {
    if k != [] {
      assert '.' !in k[1..] by {
        forall i | 0 <= i < |k[1..]| ensures k[1..][i] != '.' {
          assert k[1..][i] == k[i + 1];
        }
      }
      SplitNoDot(k[1..]);
      assert [k[0]] + k[1..] == k;
    }
  }

  /** Joining the segments gives the original string back. */
  lemma {:induction false} JoinSplit(s: string)
    ensures Join(Split(s)) == s
    decreases |s|
  {
    if s != [] {
      JoinSplit(s[1..]);
      var r := Split(s[1..]);
      if s[0] == '.' {
        assert Split(s) == [""] + r;
        assert ([""] + r)[1..] == r;
        assert Join(Split(s)) == "" + "." + Join(r);
      } else {
        var parts := [[s[0]] + r[0]] + r[1..];
        assert Split(s) == parts;
        if |r| == 1 {
          assert Join(parts) == [s[0]] + r[0];
        } else {
          assert parts[1..] == r[1..];
          assert Join(parts) == ([s[0]] + r[0]) + "." + Join(r[1..]);
          assert Join(r) == r[0] + "." + Join(r[1..]);
        }
        assert [s[0]] + s[1..] == s;
      }
    }
  }

  /** A dot-free first segment splits off on its own. */
  lemma SplitDotted(a: string, rest: string)
    requires '.' !in a
    ensures Split(a + "." + rest) == [a] + Split(rest)
  {
    SplitAppend(a, rest);
    SplitNoDot(a);
  }

  /** Splitting a join of dot-free segments gives the segments back. */
  lemma {:induction false} SplitJoin(parts: seq<string>)
    requires |parts| >= 1
    requires forall i :: 0 <= i < |parts| ==> '.' !in parts[i]
    ensures Split(Join(parts)) == parts
    decreases |parts|
  {
    if |parts| == 1 {
      SplitNoDot(parts[0]);
    } else {
      SplitJoin(parts[1..]);
      SplitAppend(parts[0], Join(parts[1..]));
      SplitNoDot(parts[0]);
      assert [parts[0]] + parts[1..] == parts;
    }
  }

  /** Joining one more segment appends a dot and that segment. */
  lemma {:induction false} JoinSnoc(parts: seq<string>, x: string)
    requires |parts| >= 1
    ensures Join(parts + [x]) == Join(parts) + "." + x
    decreases |parts|
  {
    if |parts| == 1 {
      assert (parts + [x])[1..] == [x];
    } else {
      assert (parts + [x])[1..] == parts[1..] + [x];
      JoinSnoc(parts[1..], x);
    }
  }

  /** The join of a shorter prefix of segments, followed by a dot, is a
      prefix of the join of a longer one. */
  lemma {:induction false} JoinPrefix(parts: seq<string>, i: nat, j: nat)
    requires 1 <= i < j <= |parts|
    ensures Join(parts[..i]) + "." <= Join(parts[..j])
    decreases j
  {
    assert parts[..j] == parts[..j - 1] + [parts[j - 1]];
    JoinSnoc(parts[..j - 1], parts[j - 1]);
    if i < j - 1 {
      JoinPrefix(parts, i, j - 1);
    }
  }

  /** `pat` occurs in `s` at index `i`. */
  predicate OccursAt(s: string, pat: string, i: nat)
  {
    i + |pat| <= |s| && s[i..i + |pat|] == pat
  }

  /** `i` is the index of the first occurrence of `pat` in `s`. */
  predicate FirstOccurrence(s: string, pat: string, i: nat)
  {
    OccursAt(s, pat, i) && forall j :: 0 <= j < i ==> !OccursAt(s, pat, j)
  }

  /** `s.indexOf(pat)`, with `None` for -1. */
  function IndexOf(s: string, pat: string): (r: Option<nat>)
    ensures r.Some? ==> FirstOccurrence(s, pat, r.value)
    ensures r.None? ==> forall j :: 0 <= j <= |s| ==> !OccursAt(s, pat, j)
  {
    IndexFrom(s, pat, 0)
  }

  /** `s.indexOf(pat, from)`, with `None` for -1. */
  function IndexFrom(s: string, pat: string, from: nat): (r: Option<nat>)
    ensures r.Some? ==> from <= r.value && OccursAt(s, pat, r.value)
    ensures forall j :: from <= j <= |s| && (r.None? || j < r.value) ==> !OccursAt(s, pat, j)
    decreases |s| + 1 - from
  {
    if from + |pat| > |s| then None
    else if s[from..from + |pat|] == pat then Some(from)
    else IndexFrom(s, pat, from + 1)
  }

  /** `s.replace(pat, rep)` with a string pattern and a replacement that
      holds no `$` patterns: only the first occurrence is replaced. */
  function ReplaceFirst(s: string, pat: string, rep: string): (r: string)
    ensures (forall j :: 0 <= j <= |s| ==> !OccursAt(s, pat, j)) ==> r == s
    ensures forall i: nat :: FirstOccurrence(s, pat, i) ==> r == s[..i] + rep + s[i + |pat|..]
    ensures |rep| <= |pat| ==> |r| <= |s|
  {
    match IndexOf(s, pat)
    case None => s
    case Some(i) => s[..i] + rep + s[i + |pat|..]
  }

  /** Replacing a leading `pre` by nothing strips it. */
  lemma ReplaceLeadingPrefix(pre: string, rest: string)
    ensures ReplaceFirst(pre + rest, pre, "") == rest
  {
    var s := pre + rest;
    assert s[..|pre|] == pre;
    assert FirstOccurrence(s, pre, 0);
    assert s[|pre|..] == rest;
  }
}
