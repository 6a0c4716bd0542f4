/**
  The JavaScript string built-ins that the site's components rely on, modelled on `string`
  (a sequence of Unicode scalar values): the whitespace class shared by regex `\s` and
  `String.prototype.trim`, ASCII case mapping, `trim`, `includes`, `split` on a one-character
  separator, `Array.prototype.join` and the `replace(/\s+/g, …)` rewrite.
*/
module Text {

  /** A value that may be absent (`undefined`/`null` in the source). */
  datatype Option<T> = None | Some(value: T)

  /** ECMAScript WhiteSpace and LineTerminator code points: exactly what regex `\s` matches
      and what `trim` removes. */
  predicate IsSpace(c: char) {
    || c == '\t' || c == '\n' || c == '\U{B}' || c == '\U{C}' || c == '\r' || c == ' '
    || c == '\U{A0}' || c == '\U{1680}' || ('\U{2000}' <= c <= '\U{200A}')
    || c == '\U{2028}' || c == '\U{2029}' || c == '\U{202F}' || c == '\U{205F}'
    || c == '\U{3000}' || c == '\U{FEFF}'
  }

  ghost predicate AllSpace(s: string) {
    forall i :: 0 <= i < |s| ==> IsSpace(s[i])
  }

  ghost predicate NoSpace(s: string) {
    forall i :: 0 <= i < |s| ==> !IsSpace(s[i])
  }

  // ---------------------------------------------------------------------------------------
  // Case mapping (ASCII letters only)

  /** A capital becomes the small letter at the same place in the alphabet; every other
      character is left as it is. */
  function LowerChar(c: char): (d: char)
    ensures IsSpace(d) <==> IsSpace(c)
    ensures d != c <==> 'A' <= c <= 'Z'
    ensures 'A' <= c <= 'Z' ==> 'a' <= d <= 'z' && d as int - 'a' as int == c as int - 'A' as int
    ensures !('A' <= d <= 'Z')
  {
    if 'A' <= c <= 'Z' then (c as int + 32) as char else c
  }

  /** A small letter becomes the capital at the same place in the alphabet; every other
      character is left as it is. */
  function UpperChar(c: char): (d: char)
    ensures IsSpace(d) <==> IsSpace(c)
    ensures d != c <==> 'a' <= c <= 'z'
    ensures 'a' <= c <= 'z' ==> 'A' <= d <= 'Z' && d as int - 'A' as int == c as int - 'a' as int
    ensures !('a' <= d <= 'z')
  {
    if 'a' <= c <= 'z' then (c as int - 32) as char else c
  }

  /** `toLowerCase`, restricted to ASCII letters. */
  function Lower(s: string): (r: string)
    ensures |r| == |s|
    ensures forall i :: 0 <= i < |s| ==> r[i] == LowerChar(s[i])
  {
    seq(|s|, i requires 0 <= i < |s| => LowerChar(s[i]))
  }

  /** `toUpperCase`, restricted to ASCII letters. */
  function Upper(s: string): (r: string)
    ensures |r| == |s|
    ensures forall i :: 0 <= i < |s| ==> r[i] == UpperChar(s[i])
  {
    seq(|s|, i requires 0 <= i < |s| => UpperChar(s[i]))
  }

  lemma {:induction false} LowerIdempotent(s: string)
    ensures Lower(Lower(s)) == Lower(s)
  {
  }

  /** Lower-casing forgets any earlier upper-casing. */
  lemma {:induction false} LowerOfUpper(s: string)
    ensures Lower(Upper(s)) == Lower(s)
  {
  }

  lemma {:induction false} LowerKeepsNoSpace(s: string)
    requires NoSpace(s)
    ensures NoSpace(Lower(s))
  {
    forall i | 0 <= i < |s| ensures !IsSpace(Lower(s)[i]) {
      assert Lower(s)[i] == LowerChar(s[i]);
    }
  }

  lemma {:induction false} LowerConcat(a: string, b: string)
    ensures Lower(a + b) == Lower(a) + Lower(b)
  {
  }

  lemma {:induction false} LowerSlice(s: string, i: nat, j: nat)
    requires i <= j <= |s|
    ensures Lower(s[i..j]) == Lower(s)[i..j]
  {
  }

  // ---------------------------------------------------------------------------------------
  // trim

  /** The leading-whitespace half of `trim`: what is left is a suffix of `s` that does not
      start with whitespace, and everything cut off was whitespace. */
  function TrimStart(s: string): (r: string)
    ensures |r| <= |s| && r == s[|s| - |r|..]
    ensures r == [] || !IsSpace(r[0])
    ensures forall i :: 0 <= i < |s| - |r| ==> IsSpace(s[i])
    decreases |s|
  {
    if |s| > 0 && IsSpace(s[0]) then TrimStart(s[1..]) else s
  }

  /** The trailing-whitespace half of `trim`. */
  function TrimEnd(s: string): (r: string)
    ensures |r| <= |s| && r == s[..|r|]
    ensures r == [] || !IsSpace(r[|r| - 1])
    ensures forall i :: |r| <= i < |s| ==> IsSpace(s[i])
    decreases |s|
  {
    if |s| > 0 && IsSpace(s[|s| - 1]) then TrimEnd(s[..|s| - 1]) else s
  }

  /** `String.prototype.trim`: no longer than its input, and neither starting nor ending
      with whitespace. */
  function Trim(s: string): (r: string)
    ensures |r| <= |s|
    ensures r == [] || (!IsSpace(r[0]) && !IsSpace(r[|r| - 1]))
  {
    TrimEnd(TrimStart(s))
  }

  /** `s[i..j]` is what is left of `s` once the whitespace before `i` and from `j` on is cut
      off, and the piece neither starts nor ends with whitespace. */
  ghost predicate TrimmedAt(s: string, i: int, j: int) {
    && 0 <= i <= j <= |s|
    && (forall k :: 0 <= k < i ==> IsSpace(s[k]))
    && (forall k :: j <= k < |s| ==> IsSpace(s[k]))
    && (i < j ==> !IsSpace(s[i]) && !IsSpace(s[j - 1]))
  }

  /** `trim` returns the piece of its input between the leading and the trailing whitespace. */
  lemma {:induction false} TrimShape(s: string)
    ensures exists i, j :: TrimmedAt(s, i, j) && Trim(s) == s[i..j]
  {
    var u := TrimStart(s);
    var t := TrimEnd(u);
    var i := |s| - |u|;
    PrefixOfSuffix(s, i, u, t);
    forall k | i + |t| <= k < |s| ensures IsSpace(s[k]) {
      assert s[k] == u[k - i];
    }
    if t != [] {
      assert t[0] == u[0];
    }
    assert TrimmedAt(s, i, i + |t|);
  }

  /** A string without whitespace is its own `trim`. */
  lemma {:induction false} TrimNoSpace(s: string)
    requires NoSpace(s)
    ensures Trim(s) == s
  {
    assert TrimStart(s) == s;
  }

  lemma {:induction false} PrefixOfSuffix(s: string, i: nat, u: string, t: string)
    requires i <= |s| && u == s[i..] && |t| <= |u| && t == u[..|t|]
    ensures s[i..i + |t|] == t && s[i + |t|..] == u[|t|..]
  {
  }

  lemma {:induction false} TrimStartAllSpace(s: string)
    requires AllSpace(s)
    ensures TrimStart(s) == []
  {
  }

  lemma {:induction false} TrimEndAllSpace(s: string)
    requires AllSpace(s)
    ensures TrimEnd(s) == []
  {
  }

  /** `trim` of a string is empty exactly when the string is all whitespace. */
  lemma {:induction false} TrimEmptyIff(s: string)
    ensures Trim(s) == [] <==> AllSpace(s)
  {
    if AllSpace(s) {
      TrimStartAllSpace(s);
    }
    if Trim(s) == [] {
      assert TrimStart(s) == [];
    }
  }

  lemma {:induction false} TrimStartAppend(x: string, y: string)
    ensures TrimStart(x + y) == if AllSpace(x) then TrimStart(y) else TrimStart(x) + y
    decreases |x|
  {
    if x == [] {
      assert x + y == y;
    } else if IsSpace(x[0]) {
      assert (x + y)[1..] == x[1..] + y;
      TrimStartAppend(x[1..], y);
      assert AllSpace(x) <==> AllSpace(x[1..]) by {
        if AllSpace(x[1..]) {
          forall i | 0 <= i < |x| ensures IsSpace(x[i]) {
            if i > 0 { assert x[1..][i - 1] == x[i]; }
          }
        }
      }
    }
  }

  lemma {:induction false} TrimEndAppendSpace(x: string, w: string)
    requires AllSpace(w)
    ensures TrimEnd(x + w) == TrimEnd(x)
    decreases |w|
  {
    if w == [] {
      assert x + w == x;
    } else {
      assert (x + w)[..|x + w| - 1] == x + w[..|w| - 1];
      TrimEndAppendSpace(x, w[..|w| - 1]);
    }
  }

  /** Surrounding whitespace never changes the result of `trim`. */
  lemma {:induction false} TrimIgnoresPadding(w1: string, s: string, w2: string)
    requires AllSpace(w1) && AllSpace(w2)
    ensures Trim(w1 + s + w2) == Trim(s)
  {
    assert w1 + s + w2 == w1 + (s + w2);
    TrimStartAppend(w1, s + w2);
    TrimStartAppend(s, w2);
    if AllSpace(s) {
      TrimStartAllSpace(w2);
      TrimStartAllSpace(s);
    } else {
      TrimEndAppendSpace(TrimStart(s), w2);
    }
  }

  /** `trim` is idempotent. */
  lemma {:induction false} TrimIdempotent(s: string)
    ensures Trim(Trim(s)) == Trim(s)
  {
    var t := Trim(s);
    var u := TrimStart(s);
    if t != [] {
      assert t[0] == u[0];
    }
  }

  lemma {:induction false} TrimStartLower(s: string)
    ensures TrimStart(Lower(s)) == Lower(TrimStart(s))
    decreases |s|
  {
    if |s| > 0 && IsSpace(s[0]) {
      assert Lower(s)[1..] == Lower(s[1..]);
      TrimStartLower(s[1..]);
    }
  }

  lemma {:induction false} TrimEndLower(s: string)
    ensures TrimEnd(Lower(s)) == Lower(TrimEnd(s))
    decreases |s|
  {
    if |s| > 0 && IsSpace(s[|s| - 1]) {
      assert Lower(s)[..|s| - 1] == Lower(s[..|s| - 1]);
      TrimEndLower(s[..|s| - 1]);
    }
  }

  /** Lower-casing and trimming commute, because case mapping never creates or removes
      whitespace. */
  lemma {:induction false} TrimLowerCommute(s: string)
    ensures Trim(Lower(s)) == Lower(Trim(s))
  {
    TrimStartLower(s);
    TrimEndLower(TrimStart(s));
  }

  // ---------------------------------------------------------------------------------------
  // indexOf

  /** `s.indexOf(c)`, with "not found" reported as `|s|` instead of -1. */
  function IndexOf(s: string, c: char): (k: nat)
    ensures k <= |s| && (k < |s| ==> s[k] == c) && c !in s[..k]
  {
    if s == [] then 0
    else if s[0] == c then 0
    else
      var k := IndexOf(s[1..], c);
      assert s[..k + 1] == [s[0]] + s[1..][..k];
      k + 1
  }

  /** The first occurrence is unique: it is the only position holding `c` with no `c` before it. */
  lemma {:induction false} IndexOfIsFirst(s: string, c: char, k: nat)
    requires k < |s| && s[k] == c && c !in s[..k]
    ensures IndexOf(s, c) == k
  {
  }

  /** The `length` of a string in JavaScript: UTF-16 code units, so a character outside the
      Basic Multilingual Plane counts twice. */
  function Utf16Length(s: string): (n: nat)
    ensures |s| <= n <= 2 * |s|
  {
    if s == [] then 0 else (if s[0] as int > 0xFFFF then 2 else 1) + Utf16Length(s[1..])
  }

  /** Only characters outside the Basic Multilingual Plane make the two lengths differ. */
  lemma {:induction false} Utf16LengthOfBmp(s: string)
    requires forall i :: 0 <= i < |s| ==> s[i] as int <= 0xFFFF
    ensures Utf16Length(s) == |s|
    decreases |s|
  {
    if s != [] {
      Utf16LengthOfBmp(s[1..]);
    }
  }

  // ---------------------------------------------------------------------------------------
  // includes

  /** `String.prototype.includes`: some suffix of `hay` starts with `needle`. */
  function Includes(hay: string, needle: string): bool
    decreases |hay|
  {
    needle <= hay || (|hay| > 0 && Includes(hay[1..], needle))
  }

  /** The reference meaning of "is a substring of": an occurrence at some offset. */
  ghost predicate OccursAt(hay: string, needle: string, i: int) {
    0 <= i && i + |needle| <= |hay| && hay[i..i + |needle|] == needle
  }

  /** `needle` occurs somewhere in `hay`, stated by position. */
  ghost predicate Appears(hay: string, needle: string) {
    exists i :: OccursAt(hay, needle, i)
  }

  lemma {:induction false} IncludesIff(hay: string, needle: string)
    ensures Includes(hay, needle) <==> exists i :: OccursAt(hay, needle, i)
    decreases |hay|
  {
    if needle <= hay {
      assert OccursAt(hay, needle, 0);
    } else if |hay| > 0 {
      IncludesIff(hay[1..], needle);
      if Includes(hay[1..], needle) {
        var i :| OccursAt(hay[1..], needle, i);
        assert hay[i + 1..i + 1 + |needle|] == hay[1..][i..i + |needle|];
        assert OccursAt(hay, needle, i + 1);
      }
      if i :| OccursAt(hay, needle, i) {
        if i > 0 {
          assert hay[1..][i - 1..i - 1 + |needle|] == hay[i..i + |needle|];
          assert OccursAt(hay[1..], needle, i - 1);
        }
      }
    }
  }

  lemma {:induction false} IncludesEmpty(hay: string)
    ensures Includes(hay, "")
  {
  }

  /** Being a substring is transitive. */
  lemma {:induction false} IncludesTransitive(a: string, b: string, c: string)
    requires Includes(b, a) && Includes(c, b)
    ensures Includes(c, a)
  {
    IncludesIff(b, a);
    IncludesIff(c, b);
    IncludesIff(c, a);
    var i :| OccursAt(b, a, i);
    var j :| OccursAt(c, b, j);
    forall k | 0 <= k < |a| ensures c[j + i + k] == a[k] {
      assert b[i..i + |a|][k] == a[k];
      assert c[j..j + |b|][i + k] == b[i + k];
    }
    assert c[j + i..j + i + |a|] == a;
    assert OccursAt(c, a, j + i);
  }

  lemma {:induction false} IncludesLower(hay: string, needle: string)
    requires Includes(hay, needle)
    ensures Includes(Lower(hay), Lower(needle))
  {
    IncludesIff(hay, needle);
    IncludesIff(Lower(hay), Lower(needle));
    var i :| OccursAt(hay, needle, i);
    assert Lower(hay)[i..i + |needle|] == Lower(hay[i..i + |needle|]);
    assert OccursAt(Lower(hay), Lower(needle), i);
  }

  // ---------------------------------------------------------------------------------------
  // split and join

  /** `s.split(c)` for a one-character separator `c`: the pieces between the occurrences
      of `c`, empty pieces included. */
  function Split(s: string, c: char): (r: seq<string>)
    ensures |r| >= 1
    ensures forall i :: 0 <= i < |r| ==> c !in r[i]
  {
    if s == [] then [[]]
    else
      var rest := Split(s[1..], c);
      if s[0] == c then [[]] + rest
      else [[s[0]] + rest[0]] + rest[1..]
  }

  /** `xs.join(sep)`. */
  function Join(xs: seq<string>, sep: string): string {
    if |xs| == 0 then ""
    else if |xs| == 1 then xs[0]
    else xs[0] + sep + Join(xs[1..], sep)
  }

  /** Joining the pieces of a split with the separator gives the string back. */
  lemma {:induction false} JoinSplit(s: string, c: char)
    ensures Join(Split(s, c), [c]) == s
  {
    if s != [] {
      var rest := Split(s[1..], c);
      JoinSplit(s[1..], c);
      if s[0] == c {
        assert Split(s, c)[1..] == rest;
      } else {
        var r := Split(s, c);
        assert r[1..] == rest[1..];
        if |rest| > 1 {
          assert rest[1..] == rest[1..];
          assert Join(rest, [c]) == rest[0] + [c] + Join(rest[1..], [c]);
        }
      }
    }
  }

  lemma {:induction false} SplitNoSeparator(a: string, c: char)
    requires c !in a
    ensures Split(a, c) == [a]
  {
    if a != [] {
      SplitNoSeparator(a[1..], c);
      assert [a[0]] + a[1..] == a;
    }
  }

  lemma {:induction false} SplitAtSeparator(a: string, b: string, c: char)
    requires c !in a
    ensures Split(a + [c] + b, c) == [a] + Split(b, c)
  {
    if a == [] {
      assert (a + [c] + b)[1..] == b;
    } else {
      assert (a + [c] + b)[1..] == a[1..] + [c] + b;
      SplitAtSeparator(a[1..], b, c);
      assert [a[0]] + a[1..] == a;
    }
  }

  /** Splitting a join gives the pieces back when no piece contains the separator. */
  lemma {:induction false} SplitJoin(xs: seq<string>, c: char)
    requires |xs| >= 1
    requires forall i :: 0 <= i < |xs| ==> c !in xs[i]
    ensures Split(Join(xs, [c]), c) == xs
  {
    if |xs| == 1 {
      SplitNoSeparator(xs[0], c);
    } else {
      SplitJoin(xs[1..], c);
      SplitAtSeparator(xs[0], Join(xs[1..], [c]), c);
      assert [xs[0]] + xs[1..] == xs;
    }
  }

  /** Joining one more piece appends the separator and the piece. */
  lemma {:induction false} JoinSnoc(xs: seq<string>, y: string, sep: string)
    requires |xs| >= 1
    ensures Join(xs + [y], sep) == Join(xs, sep) + sep + y
  {
    if |xs| == 1 {
      assert (xs + [y])[1..] == [y];
    } else {
      assert (xs + [y])[1..] == xs[1..] + [y];
      JoinSnoc(xs[1..], y, sep);
    }
  }

  function SumLengths(xs: seq<string>): nat {
    if xs == [] then 0 else |xs[0]| + SumLengths(xs[1..])
  }

  /** A join is as long as its pieces plus one separator between each neighbouring pair. */
  lemma {:induction false} JoinLength(xs: seq<string>, sep: string)
    requires |xs| >= 1
    ensures |Join(xs, sep)| == SumLengths(xs) + (|xs| - 1) * |sep|
  {
    if |xs| > 1 {
      JoinLength(xs[1..], sep);
    }
  }

  // ---------------------------------------------------------------------------------------
  // replace(/\s+/g, rep)

  /** `s.replace(/\s+/g, [rep])`: every maximal run of whitespace becomes one `rep`. */
  function ReplaceSpaceRuns(s: string, rep: char): (r: string)
    decreases |s|
  {
    if s == [] then []
    else if IsSpace(s[0]) then
      var rest := TrimStart(s);
      assert rest != s;
      [rep] + ReplaceSpaceRuns(rest, rep)
    else [s[0]] + ReplaceSpaceRuns(s[1..], rep)
  }

  /** With a non-whitespace replacement, no whitespace survives. */
  lemma {:induction false} ReplaceSpaceRunsNoSpace(s: string, rep: char)
    requires !IsSpace(rep)
    ensures NoSpace(ReplaceSpaceRuns(s, rep))
    decreases |s|
  {
    if s != [] {
      if IsSpace(s[0]) {
        ReplaceSpaceRunsNoSpace(TrimStart(s), rep);
      } else {
        ReplaceSpaceRunsNoSpace(s[1..], rep);
      }
    }
  }

  /** A leading whitespace run becomes one `rep`. */
  lemma {:induction false} ReplaceLeadingRun(w: string, b: string, rep: char)
    requires w != [] && AllSpace(w)
    requires b == [] || !IsSpace(b[0])
    ensures ReplaceSpaceRuns(w + b, rep) == [rep] + ReplaceSpaceRuns(b, rep)
  {
    assert (w + b)[0] == w[0];
    TrimStartAppend(w, b);
  }

  /** A string that starts with whitespace and ends without it keeps its last character once
      its leading run is cut off. */
  lemma {:induction false} ReplaceSpaceHead(a: string, y: string, rep: char)
    requires a != [] && IsSpace(a[0]) && !IsSpace(a[|a| - 1])
    ensures TrimStart(a) != [] && TrimStart(a)[|TrimStart(a)| - 1] == a[|a| - 1]
    ensures ReplaceSpaceRuns(a + y, rep) == [rep] + ReplaceSpaceRuns(TrimStart(a) + y, rep)
  {
    assert !AllSpace(a);
    TrimStartAppend(a, y);
    assert (a + y)[0] == a[0];
  }

  lemma {:induction false} ReplaceLetterHead(a: string, y: string, rep: char)
    requires a != [] && !IsSpace(a[0])
    ensures ReplaceSpaceRuns(a + y, rep) == [a[0]] + ReplaceSpaceRuns(a[1..] + y, rep)
  {
    assert (a + y)[0] == a[0] && (a + y)[1..] == a[1..] + y;
  }

  lemma {:induction false} Regroup(whole: string, left: string, c: char, x: string, d: char, y: string, m: string)
    requires whole == [c] + m && left == [c] + x
    requires m == x + [d] + y
    ensures whole == left + [d] + y
  {
  }

  lemma {:induction false} ReplaceRunAfterSpace(a: string, w: string, b: string, rep: char)
    requires a != [] && IsSpace(a[0]) && !IsSpace(a[|a| - 1])
    requires ReplaceSpaceRuns(TrimStart(a) + (w + b), rep)
      == ReplaceSpaceRuns(TrimStart(a), rep) + [rep] + ReplaceSpaceRuns(b, rep)
    ensures ReplaceSpaceRuns(a + (w + b), rep) == ReplaceSpaceRuns(a, rep) + [rep] + ReplaceSpaceRuns(b, rep)
  {
    var t := TrimStart(a);
    ReplaceSpaceHead(a, w + b, rep);
    Regroup(ReplaceSpaceRuns(a + (w + b), rep), ReplaceSpaceRuns(a, rep), rep,
      ReplaceSpaceRuns(t, rep), rep, ReplaceSpaceRuns(b, rep), ReplaceSpaceRuns(t + (w + b), rep));
  }

  lemma {:induction false} ReplaceRunAfterLetter(a: string, w: string, b: string, rep: char)
    requires a != [] && !IsSpace(a[0])
    requires ReplaceSpaceRuns(a[1..] + (w + b), rep)
      == ReplaceSpaceRuns(a[1..], rep) + [rep] + ReplaceSpaceRuns(b, rep)
    ensures ReplaceSpaceRuns(a + (w + b), rep) == ReplaceSpaceRuns(a, rep) + [rep] + ReplaceSpaceRuns(b, rep)
  {
    ReplaceLetterHead(a, w + b, rep);
    Regroup(ReplaceSpaceRuns(a + (w + b), rep), ReplaceSpaceRuns(a, rep), a[0],
      ReplaceSpaceRuns(a[1..], rep), rep, ReplaceSpaceRuns(b, rep), ReplaceSpaceRuns(a[1..] + (w + b), rep));
  }

  /** A whitespace run between two pieces becomes exactly one `rep`, whatever its length:
      the replacement is made piecewise. */
  lemma {:induction false} ReplaceSpaceRunsAt(a: string, w: string, b: string, rep: char)
    requires w != [] && AllSpace(w)
    requires a == [] || !IsSpace(a[|a| - 1])
    requires b == [] || !IsSpace(b[0])
    ensures ReplaceSpaceRuns(a + (w + b), rep) == ReplaceSpaceRuns(a, rep) + [rep] + ReplaceSpaceRuns(b, rep)
    decreases |a|
  {
    if a == [] {
      assert a + (w + b) == w + b;
      ReplaceLeadingRun(w, b, rep);
    } else if IsSpace(a[0]) {
      ReplaceSpaceHead(a, [], rep);
      ReplaceSpaceRunsAt(TrimStart(a), w, b, rep);
      ReplaceRunAfterSpace(a, w, b, rep);
    } else {
      assert a[1..] == [] || a[1..][|a[1..]| - 1] == a[|a| - 1];
      ReplaceSpaceRunsAt(a[1..], w, b, rep);
      ReplaceRunAfterLetter(a, w, b, rep);
    }
  }

  /** A string without whitespace is left as it is. */
  lemma {:induction false} ReplaceSpaceRunsIdentity(s: string, rep: char)
    requires NoSpace(s)
    ensures ReplaceSpaceRuns(s, rep) == s
    decreases |s|
  {
    if s != [] {
      ReplaceSpaceRunsIdentity(s[1..], rep);
      assert [s[0]] + s[1..] == s;
    }
  }
}
