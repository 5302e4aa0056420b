/** The JavaScript string operations the classifier relies on, with the
    semantics of the language's built-ins (`indexOf`, `includes`, `replace`
    with a string pattern, `split` on one character, `substring`,
    `slice(-n)`, `startsWith`, `endsWith`, `padStart`).
    Strings are sequences of code points. */
module JsString {

  datatype Option<+T> = None | Some(value: T)

  /** `p` occurs in `s` starting at index `i`. */
  predicate OccursAt(s: string, p: string, i: nat) {
    i + |p| <= |s| && s[i..i + |p|] == p
  }

  /** `i` is the first index at which `p` occurs in `s`. */
  predicate FirstOccurrence(s: string, p: string, i: nat) {
    OccursAt(s, p, i) && forall j: nat :: j < i ==> !OccursAt(s, p, j)
  }

  /** `s.indexOf(p, from)`: the first occurrence of `p` at or after `from`. */
  function IndexFrom(s: string, p: string, from: nat): (r: Option<nat>)
    ensures r.Some? ==> from <= r.value && OccursAt(s, p, r.value)
    ensures r.Some? ==> forall j: nat :: from <= j < r.value ==> !OccursAt(s, p, j)
    ensures r.None? ==> forall j: nat :: from <= j ==> !OccursAt(s, p, j)
    decreases |s| - from
  {
    if from + |p| > |s| then None
    else if s[from..from + |p|] == p then Some(from)
    else IndexFrom(s, p, from + 1)
  }

  /** `s.indexOf(p)`, with `None` for -1. */
  function IndexOf(s: string, p: string): (r: Option<nat>)
    ensures r.Some? ==> FirstOccurrence(s, p, r.value)
    ensures r.None? ==> forall j: nat :: !OccursAt(s, p, j)
  {
    IndexFrom(s, p, 0)
  }

  /** `s.includes(p)`. */
  function Includes(s: string, p: string): (b: bool)
    ensures b <==> exists i: nat :: OccursAt(s, p, i)
  {
    var r := IndexOf(s, p);
    if r.Some? then assert OccursAt(s, p, r.value); true else false
  }

  /** `s.replace(p, rep)` with a string pattern: only the FIRST occurrence
      is replaced; without an occurrence the string is unchanged.
      (None of the replacement strings used contains a `$` pattern.) */
  function ReplaceFirst(s: string, p: string, rep: string): (r: string)
    ensures !Includes(s, p) ==> r == s
    ensures forall i: nat :: FirstOccurrence(s, p, i) ==> r == s[..i] + rep + s[i + |p|..]
  {
    match IndexOf(s, p)
    case None => s
    case Some(i) =>
      assert forall k: nat :: FirstOccurrence(s, p, k) ==> k == i by {
        forall k: nat | FirstOccurrence(s, p, k) ensures k == i {
          assert OccursAt(s, p, k) && OccursAt(s, p, i);
        }
      }
      s[..i] + rep + s[i + |p|..]
  }

  /** Replacing a leading pattern swaps it for the replacement. */
  lemma {:induction false} ReplacePrefix(p: string, t: string, rep: string)
    ensures ReplaceFirst(p + t, p, rep) == rep + t
  {
    IndexOfPrefix(p, t);
    assert (p + t)[..0] == [] && (p + t)[|p|..] == t;
  }

  /** When the pattern's head is absent before it, the occurrence right
      after `a` is the one replaced. */
  lemma {:induction false} ReplaceAfter(a: string, p: string, t: string, rep: string)
    requires |p| > 0 && p[0] !in a
    ensures ReplaceFirst(a + p + t, p, rep) == a + rep + t
  {
    IndexOfAfter(a, p, t);
    var s := a + p + t;
    assert s[..|a|] == a && s[|a| + |p|..] == t;
  }

  /** A string that lacks the pattern's head is left as it is. */
  lemma {:induction false} ReplaceAbsent(s: string, p: string, rep: string)
    requires |p| > 0 && p[0] !in s
    ensures ReplaceFirst(s, p, rep) == s
  {
    NotIncludesWithoutHead(s, p);
  }

  /** The pieces joined back with the separator: the inverse of `Split`. */
  function Join(ps: seq<string>, c: char): string
    requires |ps| >= 1
  {
    if |ps| == 1 then ps[0] else ps[0] + [c] + Join(ps[1..], c)
  }

  /** `s.split(c)` for a one-character separator: the maximal pieces of `s`
      between occurrences of `c`. */
  function Split(s: string, c: char): (r: seq<string>)
    ensures |r| >= 1
    ensures Join(r, c) == s
    ensures forall k :: 0 <= k < |r| ==> c !in r[k]
    ensures c in s ==> |r| >= 2
    ensures c !in s ==> r == [s]
  {
    if |s| == 0 then [""]
    else if s[0] == c then
      var rest := Split(s[1..], c);
      assert s == [c] + s[1..];
      [""] + rest
    else
      var rest := Split(s[1..], c);
      var r := [[s[0]] + rest[0]] + rest[1..];
      JoinConsHead(s[0], rest, c);
      assert s == [s[0]] + s[1..];
      r
  }

  lemma {:induction false} JoinConsHead(x: char, ps: seq<string>, c: char)
    requires |ps| >= 1
    ensures Join([[x] + ps[0]] + ps[1..], c) == [x] + Join(ps, c)
  {
    var qs := [[x] + ps[0]] + ps[1..];
    assert qs[1..] == ps[1..];
  }

  /** The piece before the first separator is split off whole. */
  lemma {:induction false} SplitAtFirst(a: string, c: char, t: string)
    requires c !in a
    ensures Split(a + [c] + t, c) == [a] + Split(t, c)
  {
    if |a| == 0 {
      assert a + [c] + t == [c] + t;
      assert ([c] + t)[1..] == t;
    } else {
      assert (a + [c] + t)[1..] == a[1..] + [c] + t;
      assert c !in a[1..];
      SplitAtFirst(a[1..], c, t);
      assert [a[0]] + a[1..] == a;
    }
  }

  /** The first two pieces of `a + [c] + b + t`, where `t` is empty or starts
      a new piece. */
  lemma {:induction false} SplitTwo(a: string, c: char, b: string, t: string)
    requires c !in a && c !in b && (t == [] || t[0] == c)
    ensures var r := Split(a + [c] + b + t, c); |r| >= 2 && r[0] == a && r[1] == b
  {
    assert a + [c] + b + t == a + [c] + (b + t);
    SplitAtFirst(a, c, b + t);
    SplitHead(b, c, t);
  }

  /** The first piece of `a + t`, where `t` is empty or starts a new piece. */
  lemma {:induction false} SplitHead(a: string, c: char, t: string)
    requires c !in a && (t == [] || t[0] == c)
    ensures Split(a + t, c)[0] == a
  {
    if t == [] {
      assert a + t == a;
    } else {
      assert a + t == a + [c] + t[1..];
      SplitAtFirst(a, c, t[1..]);
    }
  }

  /** Round trip: splitting the joined pieces gives the pieces back, when no
      piece contains the separator. */
  lemma {:induction false} SplitJoin(ps: seq<string>, c: char)
    requires |ps| >= 1
    requires forall k :: 0 <= k < |ps| ==> c !in ps[k]
    ensures Split(Join(ps, c), c) == ps
  {
    if |ps| > 1 {
      SplitJoin(ps[1..], c);
      SplitAtFirst(ps[0], c, Join(ps[1..], c));
      assert ps == [ps[0]] + ps[1..];
    }
  }

  function Min(a: int, b: int): int { if a <= b then a else b }

  /** `s.substring(a, b)`: both ends clamped to the string, then ordered. */
  function Substring(s: string, a: nat, b: nat): (r: string)
    ensures a <= b ==> r == s[Min(a, |s|)..Min(b, |s|)]
    ensures a <= b <= |s| ==> |r| == b - a && forall k :: 0 <= k < b - a ==> r[k] == s[a + k]
  {
    var i, j := Min(a, |s|), Min(b, |s|);
    if i <= j then s[i..j] else s[j..i]
  }

  /** `s.slice(-n)`: the last `n` characters, or all of `s` when shorter. */
  function TakeLast(s: string, n: nat): (r: string)
    ensures |r| == Min(n, |s|)
    ensures r == s[|s| - |r|..]
  {
    s[|s| - Min(n, |s|)..]
  }

  function StartsWith(s: string, p: string): bool {
    |p| <= |s| && s[..|p|] == p
  }

  /** `s.endsWith(suf)`. */
  function EndsWith(s: string, suf: string): (b: bool)
    ensures b <==> exists t :: s == t + suf
  {
    assert forall t :: s == t + suf ==> |suf| <= |s| && s[|s| - |suf|..] == suf by {
      forall t | s == t + suf ensures |suf| <= |s| && s[|s| - |suf|..] == suf {
        assert s[|t|..] == suf;
      }
    }
    if |suf| <= |s| && s[|s| - |suf|..] == suf then
      assert s == s[..|s| - |suf|] + suf;
      true
    else
      false
  }

  /** `n` copies of `c`. */
  function Repeat(c: char, n: nat): (r: string)
    ensures |r| == n && forall k :: 0 <= k < n ==> r[k] == c
  {
    if n == 0 then [] else [c] + Repeat(c, n - 1)
  }

  /** `s.padStart(n, fill)` with a one-character filler. */
  function PadStart(s: string, n: nat, fill: char): (r: string)
    ensures |s| >= n ==> r == s
    ensures |s| < n ==> |r| == n && r[n - |s|..] == s && forall k :: 0 <= k < n - |s| ==> r[k] == fill
  {
    if |s| >= n then s else Repeat(fill, n - |s|) + s
  }

  function LowerAscii(c: char): char {
    if 'A' <= c <= 'Z' then (c as int + 32) as char else c
  }

  /** `s.toLowerCase()` restricted to the ASCII letters (every title this
      is applied to has only ASCII capitals). */
  function ToLowerAscii(s: string): (r: string)
    ensures |r| == |s| && forall k :: 0 <= k < |s| ==> r[k] == LowerAscii(s[k])
  {
    seq(|s|, k requires 0 <= k < |s| => LowerAscii(s[k]))
  }

  /** A string starting with `p` finds `p` at index 0. */
  lemma {:induction false} IndexOfPrefix(p: string, t: string)
    ensures IndexOf(p + t, p) == Some(0)
  {
    assert OccursAt(p + t, p, 0);
  }

  /** Including a one-character string is containing that character. */
  lemma {:induction false} IncludesChar(s: string, c: char)
    ensures Includes(s, [c]) <==> c in s
  {
    if c in s {
      var i :| 0 <= i < |s| && s[i] == c;
      assert OccursAt(s, [c], i);
    }
    if Includes(s, [c]) {
      var i: nat :| OccursAt(s, [c], i);
      assert s[i] == s[i..i + 1][0];
    }
  }

  /** A pattern with a character that `s` lacks does not occur in `s`. */
  lemma {:induction false} NotIncludesMissingChar(s: string, p: string, j: nat)
    requires j < |p| && p[j] !in s
    ensures !Includes(s, p)
  {
    forall i: nat | i + |p| <= |s| ensures !OccursAt(s, p, i) {
      assert s[i..i + |p|][j] == s[i + j];
    }
  }

  /** A string shorter than the pattern cannot contain it. */
  lemma {:induction false} NotIncludesShort(s: string, p: string)
    requires |s| < |p|
    ensures !Includes(s, p)
  {
  }

  /** When the head of `p` does not occur in `a`, the first occurrence of `p`
      in `a + p + t` is right after `a`. */
  lemma {:induction false} IndexOfAfter(a: string, p: string, t: string)
    requires |p| > 0 && p[0] !in a
    ensures IndexOf(a + p + t, p) == Some(|a|)
  {
    var s := a + p + t;
    assert OccursAt(s, p, |a|) by { assert s[|a|..|a| + |p|] == p; }
    forall j: nat | j < |a| ensures !OccursAt(s, p, j) {
      assert s[j] == a[j];
      HeadMismatch(s, p, j);
    }
  }

  /** A pattern whose first character is absent from `s` is not in `s`. */
  lemma {:induction false} NotIncludesWithoutHead(s: string, p: string)
    requires |p| > 0 && p[0] !in s
    ensures !Includes(s, p)
  {
    forall i: nat ensures !OccursAt(s, p, i) {
      HeadMismatch(s, p, i);
    }
  }

  /** No occurrence starts at a character that differs from the pattern's head. */
  lemma {:induction false} HeadMismatch(s: string, p: string, i: nat)
    requires |p| > 0 && (i >= |s| || s[i] != p[0])
    ensures !OccursAt(s, p, i)
  {
    if i + |p| <= |s| {
      assert s[i..i + |p|][0] == s[i];
    }
  }

  /** A pattern that differs from the head `q` and whose first character
      appears nowhere after the head's first does not occur in `q + t`. */
  lemma {:induction false} NotIncludesAfterHead(q: string, p: string, t: string)
    requires 0 < |p| <= |q| && q[..|p|] != p
    requires p[0] !in q[1..] && p[0] !in t
    ensures !Includes(q + t, p)
  {
    var s := q + t;
    forall i: nat ensures !OccursAt(s, p, i) {
      if i == 0 {
        assert s[..|p|] == q[..|p|];
      } else {
        assert i >= |s| || s[i] != p[0] by {
          if i < |q| {
            assert s[i] == q[1..][i - 1];
          } else if i < |s| {
            assert s[i] == t[i - |q|];
          }
        }
        HeadMismatch(s, p, i);
      }
    }
  }
}
