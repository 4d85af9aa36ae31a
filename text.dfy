/**
 * The string primitives the scaffolder is built from: the engine string's
 * case-sensitive `Replace`, path concatenation with `/`, and `ToUpper`.
 */
module Text {

  /** `pat` occurs in `s` starting at index `i`. */
  predicate OccursAt(s: string, pat: string, i: nat)
  {
    i + |pat| <= |s| && s[i..i + |pat|] == pat
  }

  /**
   * Case-sensitive replacement of every occurrence of `from` by `to`,
   * scanning left to right and resuming after each replaced occurrence
   * (so occurrences never overlap). An empty `from` leaves the text alone.
   */
  function Replace(s: string, from: string, to: string): (r: string)
    ensures from == [] ==> r == s
    decreases |s|
  {
    if from == [] || |s| < |from| then s
    else if s[..|from|] == from then to + Replace(s[|from|..], from, to)
    else [s[0]] + Replace(s[1..], from, to)
  }

  /** Occurrences past a prefix are the occurrences in the rest, shifted. */
  lemma OccursAfterPrefix(p: string, t: string, pat: string, i: nat)
    requires i >= |p|
    ensures OccursAt(p + t, pat, i) <==> OccursAt(t, pat, i - |p|)
  {
    if i + |pat| <= |p + t| {
      assert (p + t)[i..i + |pat|] == t[i - |p|..i - |p| + |pat|];
    }
  }

  /** Text with no occurrence of the placeholder comes out unchanged. */
  lemma {:induction false} ReplaceAbsent(s: string, from: string, to: string)
    requires forall i: nat :: !OccursAt(s, from, i)
    ensures Replace(s, from, to) == s
    decreases |s|
  {
    assert !OccursAt(s, from, 0);
    if |s| >= |from| {
      assert s == [s[0]] + s[1..];
      forall i: nat ensures !OccursAt(s[1..], from, i) {
        OccursAfterPrefix([s[0]], s[1..], from, i + 1);
        assert !OccursAt(s, from, i + 1);
      }
      ReplaceAbsent(s[1..], from, to);
    }
  }

  /**
   * The leftmost occurrence is the one replaced: text before it is copied,
   * and the scan resumes right after it.
   */
  lemma {:induction false} ReplaceLeftmost(a: string, b: string, from: string, to: string)
    requires from != []
    requires forall i: nat :: i < |a| ==> !OccursAt(a + from + b, from, i)
    ensures Replace(a + from + b, from, to) == a + to + Replace(b, from, to)
    decreases |a|
  {
    if a == [] {
      ReplaceAtStart(b, from, to);
      assert a + from + b == from + b;
      assert a + to + Replace(b, from, to) == to + Replace(b, from, to);
    } else {
      NoOccurrenceInRest(a, b, from);
      ReplaceLeftmost(a[1..], b, from, to);
      assert !OccursAt(a + from + b, from, 0);
      ReplaceLeftmostStep(a, b, from, to);
    }
  }

  /** One step of the scan before the occurrence: the first character is copied. */
  lemma ReplaceLeftmostStep(a: string, b: string, from: string, to: string)
    requires from != [] && a != []
    requires !OccursAt(a + from + b, from, 0)
    requires Replace(a[1..] + from + b, from, to) == a[1..] + to + Replace(b, from, to)
    ensures Replace(a + from + b, from, to) == a + to + Replace(b, from, to)
  {
    ReplaceCopiesFirst(a, b, from, to);
    var r := Replace(b, from, to);
    assert [a[0]] + (a[1..] + to + r) == a + to + r by {
      assert a == [a[0]] + a[1..];
    }
  }

  /** An occurrence at the start is replaced and the scan resumes after it. */
  lemma ReplaceAtStart(b: string, from: string, to: string)
    requires from != []
    ensures Replace(from + b, from, to) == to + Replace(b, from, to)
  {
    var s := from + b;
    assert s[..|from|] == from;
    assert s[|from|..] == b;
  }

  /** When no occurrence starts at the first character, it is copied and the scan moves on by one. */
  lemma ReplaceCopiesFirst(a: string, b: string, from: string, to: string)
    requires from != [] && a != []
    requires !OccursAt(a + from + b, from, 0)
    ensures Replace(a + from + b, from, to) == [a[0]] + Replace(a[1..] + from + b, from, to)
  {
    var s := a + from + b;
    assert s[..|from|] != from;
    assert s[1..] == a[1..] + from + b;
  }

  /** Dropping the first character keeps the text before the occurrence free of it. */
  lemma NoOccurrenceInRest(a: string, b: string, from: string)
    requires a != []
    requires forall i: nat :: i < |a| ==> !OccursAt(a + from + b, from, i)
    ensures forall i: nat :: i < |a[1..]| ==> !OccursAt(a[1..] + from + b, from, i)
  {
    var s' := a[1..] + from + b;
    assert a + from + b == [a[0]] + s';
    forall i: nat | i < |a[1..]| ensures !OccursAt(s', from, i) {
      OccursAfterPrefix([a[0]], s', from, i + 1);
    }
  }

  /** Replacing a placeholder by itself is the identity. */
  lemma {:induction false} ReplaceSelf(s: string, from: string)
    ensures Replace(s, from, from) == s
    decreases |s|
  {
    if from != [] && |s| >= |from| {
      if s[..|from|] == from {
        ReplaceSelf(s[|from|..], from);
        assert s == from + s[|from|..];
      } else {
        ReplaceSelf(s[1..], from);
        assert s == [s[0]] + s[1..];
      }
    }
  }

  /** No character of `to` appears in `from`. */
  predicate Disjoint(from: string, to: string)
  {
    forall j :: 0 <= j < |to| ==> to[j] !in from
  }

  /** `p` holds no character of `to`. */
  predicate Avoids(p: string, to: string)
  {
    forall j :: 0 <= j < |p| ==> p[j] !in to
  }

  /**
   * Until the first replacement the output copies the input: a prefix of
   * the output free of `to`'s characters is a prefix of the input.
   */
  lemma {:induction false} ReplacePrefixCopied(x: string, from: string, to: string, p: string)
    requires to != [] && Avoids(p, to)
    ensures |p| <= |Replace(x, from, to)| && Replace(x, from, to)[..|p|] == p ==> |p| <= |x| && x[..|p|] == p
    decreases |x|
  {
    var r := Replace(x, from, to);
    if from == [] || |x| < |from| {
    } else if x[..|from|] == from {
      assert r == to + Replace(x[|from|..], from, to);
      assert p != [] ==> p[0] !in to;
    } else if p != [] {
      var rest := Replace(x[1..], from, to);
      assert r == [x[0]] + rest;
      assert Avoids(p[1..], to) by {
        forall j | 0 <= j < |p[1..]| ensures p[1..][j] !in to {
          assert p[1..][j] == p[j + 1];
        }
      }
      ReplacePrefixCopied(x[1..], from, to, p[1..]);
      if |p| <= |r| && r[..|p|] == p {
        assert x[0] == r[0] == p[0];
        assert rest[..|p| - 1] == r[1..|p|] == p[1..];
        assert x[..|p|] == [x[0]] + x[1..][..|p| - 1];
      }
    }
  }

  /**
   * When the value shares no character with the placeholder and is not
   * empty, no occurrence of the placeholder is left over after replacement.
   */
  lemma {:induction false} ReplaceLeavesNone(s: string, from: string, to: string)
    requires from != [] && to != [] && Disjoint(from, to)
    ensures forall i: nat :: !OccursAt(Replace(s, from, to), from, i)
    decreases |s|
  {
    var r := Replace(s, from, to);
    if |s| < |from| {
      forall i: nat ensures !OccursAt(r, from, i) { }
    } else if s[..|from|] == from {
      var rest := Replace(s[|from|..], from, to);
      ReplaceLeavesNone(s[|from|..], from, to);
      assert r == to + rest;
      forall i: nat ensures !OccursAt(r, from, i) {
        if i < |to| {
          assert r[i] == to[i] && to[i] !in from;
          assert i + |from| <= |r| ==> r[i..i + |from|][0] == r[i];
        } else {
          OccursAfterPrefix(to, rest, from, i);
        }
      }
    } else {
      var rest := Replace(s[1..], from, to);
      ReplaceLeavesNone(s[1..], from, to);
      assert r == [s[0]] + rest;
      forall i: nat ensures !OccursAt(r, from, i) {
        if i == 0 {
          var p := from[1..];
          assert Avoids(p, to) by {
            forall j | 0 <= j < |p| ensures p[j] !in to {
              assert p[j] == from[j + 1];
              assert p[j] in from;
              assert forall t | 0 <= t < |to| :: to[t] != p[j];
            }
          }
          ReplacePrefixCopied(s[1..], from, to, p);
          assert from == [from[0]] + p;
          assert |from| <= |r| ==> r[..|from|] == [s[0]] + rest[..|p|];
          assert s[..|from|] == [s[0]] + s[1..][..|p|];
        } else {
          OccursAfterPrefix([s[0]], rest, from, i);
        }
      }
    }
  }

  /**
   * With an empty value a placeholder can re-form out of the text around
   * a replaced occurrence, so the non-empty condition above is needed.
   */
  lemma EmptyValueReformsPlaceholder()
    ensures Replace("%A%AB%B%", "%AB%", "") == "%AB%"
  {
    var s := "%A%AB%B%";
    assert s == "%A" + "%AB%" + "B%";
    assert !OccursAt(s, "%AB%", 0) by { assert s[0..4][2] == '%' != "%AB%"[2]; }
    assert !OccursAt(s, "%AB%", 1) by { assert s[1..5][0] == 'A' != "%AB%"[0]; }
    ReplaceLeftmost("%A", "B%", "%AB%", "");
    assert Replace("B%", "%AB%", "") == "B%";
  }

  /** A path separator as the engine accepts it. */
  predicate IsSeparator(c: char)
  {
    c == '/' || c == '\\'
  }

  /**
   * The engine string's `/` operator: appends `rhs` to `lhs`, putting a `/`
   * in between unless `lhs` is empty, already ends with a separator, or
   * `rhs` starts with `/`. Appending the empty string only adds the
   * trailing `/`.
   */
  function PathJoin(lhs: string, rhs: string): string
  {
    if rhs == [] then
      (if |lhs| > 0 && !IsSeparator(lhs[|lhs| - 1]) then lhs + "/" else lhs)
    else if |lhs| > 0 && !IsSeparator(lhs[|lhs| - 1]) && rhs[0] != '/' then lhs + "/" + rhs
    else lhs + rhs
  }

  /**
   * Exactly one `/` separates the parts when neither side brings its own;
   * none is added to an empty left side or after a trailing separator.
   */
  lemma PathJoinSeparates(lhs: string, rhs: string)
    ensures lhs != [] && !IsSeparator(lhs[|lhs| - 1]) && (rhs == [] || rhs[0] != '/') ==> PathJoin(lhs, rhs) == lhs + "/" + rhs
    ensures lhs == [] ==> PathJoin(lhs, rhs) == rhs
    ensures lhs != [] && IsSeparator(lhs[|lhs| - 1]) ==> PathJoin(lhs, rhs) == lhs + rhs
  {
    if rhs == [] {
      assert lhs + "/" + rhs == lhs + "/";
      assert lhs + rhs == lhs;
    }
  }

  /** Upper-cases one ASCII letter; other characters are kept. */
  function UpperChar(c: char): (u: char)
    ensures 'a' <= c <= 'z' ==> 'A' <= u <= 'Z' && u as int - 'A' as int == c as int - 'a' as int
    ensures !('a' <= c <= 'z') ==> u == c
  {
    if 'a' <= c <= 'z' then (c as int - 32) as char else c
  }

  function ToUpper(s: string): (r: string)
    ensures |r| == |s|
    ensures forall i :: 0 <= i < |s| ==> r[i] == UpperChar(s[i])
  {
    seq(|s|, i requires 0 <= i < |s| => UpperChar(s[i]))
  }
}
