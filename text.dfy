/**
 * String helpers shared by the TypeScript and Go halves of the model: the
 * whitespace trim of `String.prototype.trim` / `strings.TrimSpace`, `split`,
 * `join`, decimal rendering of integers and the digit prefix read by
 * `Number.parseInt(_, 10)`.
 *
 * Whitespace is the ASCII set (space, tab, line feed, vertical tab, form
 * feed, carriage return); the Unicode spaces JavaScript and Go also trim are
 * not modelled.
 */
module Text {
  import opened Wrappers

  predicate IsSpace(c: char) {
    c == ' ' || c == '\t' || c == '\n' || c == '\r' || c == '\U{000B}' || c == '\U{000C}'
  }

  predicate IsDigit(c: char) {
    '0' <= c <= '9'
  }

  /** No whitespace at either end. */
  predicate IsTrimmed(s: string) {
    s == [] || (!IsSpace(s[0]) && !IsSpace(s[|s| - 1]))
  }

  function TrimStart(s: string): (r: string)
    ensures |r| <= |s| && r == s[|s| - |r|..]
    ensures r == [] || !IsSpace(r[0])
    ensures forall i :: 0 <= i < |s| - |r| ==> IsSpace(s[i])
  {
    if s != [] && IsSpace(s[0]) then TrimStart(s[1..]) else s
  }

  function TrimEnd(s: string): (r: string)
    ensures |r| <= |s| && r == s[..|r|]
    ensures r == [] || !IsSpace(r[|r| - 1])
    ensures forall i :: |r| <= i < |s| ==> IsSpace(s[i])
  {
    if s != [] && IsSpace(s[|s| - 1]) then TrimEnd(s[..|s| - 1]) else s
  }

  /** Removes the leading and trailing whitespace runs, keeping the middle as it is. */
  function Trim(s: string): (r: string)
    ensures IsTrimmed(r)
    ensures |r| <= |s|
  {
    var t := TrimStart(s);
    var r := TrimEnd(t);
    assert r != [] ==> r[0] == t[0];
    r
  }

  lemma {:induction false} TrimOfTrimmed(s: string)
    requires IsTrimmed(s)
    ensures Trim(s) == s
  {
  }

  /** A string with a non-space first character keeps that character in first place after trimming. */
  lemma TrimKeepsNonSpaceStart(s: string)
    requires s != [] && !IsSpace(s[0])
    ensures Trim(s) != [] && Trim(s)[0] == s[0]
  {
    assert TrimStart(s) == s;
  }

  lemma {:induction false} TrimIdempotent(s: string)
    ensures Trim(Trim(s)) == Trim(s)
  {
    TrimOfTrimmed(Trim(s));
  }

  /** A whitespace-only string trims to empty, and only such a string does. */
  lemma TrimEmptyIff(s: string)
    ensures Trim(s) == [] <==> forall i :: 0 <= i < |s| ==> IsSpace(s[i])
  {
    var t := TrimStart(s);
    if Trim(s) != [] {
      assert t != [];
      assert !IsSpace(s[|s| - |t|]);
    }
  }

  predicate StartsWith(s: string, prefix: string) {
    |prefix| <= |s| && s[..|prefix|] == prefix
  }

  predicate EndsWith(s: string, suffix: string) {
    |suffix| <= |s| && s[|s| - |suffix|..] == suffix
  }

  function IndexOf(s: string, c: char): (i: nat)
    requires c in s
    ensures i < |s| && s[i] == c && c !in s[..i]
  {
    if s[0] == c then 0 else 1 + IndexOf(s[1..], c)
  }

  /** The first occurrence is the only index holding `c` with no `c` before it. */
  lemma {:induction false} IndexOfUnique(s: string, c: char, i: nat)
    requires i < |s| && s[i] == c && c !in s[..i]
    ensures IndexOf(s, c) == i
  {
    if i > 0 {
      assert s[0] in s[..i];
      assert s[1..][..i - 1] == s[1..i];
      assert forall x :: x in s[1..i] ==> x in s[..i];
      IndexOfUnique(s[1..], c, i - 1);
    }
  }

  /** `s.split(c)` for a one-character separator: the pieces between separators, empty ones included. */
  function Split(s: string, c: char): (parts: seq<string>)
    ensures |parts| >= 1
    ensures forall i :: 0 <= i < |parts| ==> c !in parts[i]
    decreases |s|
  {
    if c !in s then [s]
    else
      var i := IndexOf(s, c);
      [s[..i]] + Split(s[i + 1..], c)
  }

  /** `parts.join(sep)`. */
  function Join(parts: seq<string>, sep: string): string {
    if |parts| == 0 then ""
    else if |parts| == 1 then parts[0]
    else parts[0] + sep + Join(parts[1..], sep)
  }

  /** Joining a piece in front of at least one more. */
  lemma JoinCons(x: string, rest: seq<string>, sep: string)
    requires |rest| >= 1
    ensures Join([x] + rest, sep) == x + sep + Join(rest, sep)
  {
    assert ([x] + rest)[1..] == rest;
  }

  /** Splitting at the first separator. */
  lemma SplitFirst(s: string, c: char)
    requires c in s
    ensures var i := IndexOf(s, c);
            Split(s, c) == [s[..i]] + Split(s[i + 1..], c)
  {
  }

  /** Splitting loses nothing: joining the pieces back with the separator gives the input. */
  lemma {:induction false} JoinSplit(s: string, c: char)
    ensures Join(Split(s, c), [c]) == s
    decreases |s|
  {
    if c in s {
      var i := IndexOf(s, c);
      var rest := s[i + 1..];
      SplitFirst(s, c);
      JoinCons(s[..i], Split(rest, c), [c]);
      JoinSplit(rest, c);
      assert s == s[..i] + [c] + rest;
    }
  }

  /** Joining pieces that hold no separator and splitting again gives the pieces back. */
  lemma {:induction false} SplitJoin(parts: seq<string>, c: char)
    requires |parts| >= 1
    requires forall i :: 0 <= i < |parts| ==> c !in parts[i]
    ensures Split(Join(parts, [c]), c) == parts
    decreases |parts|
  {
    if |parts| > 1 {
      var s := Join(parts, [c]);
      var rest := Join(parts[1..], [c]);
      JoinCons(parts[0], parts[1..], [c]);
      assert [parts[0]] + parts[1..] == parts;
      SplitAtSeparator(parts[0], rest, c);
      SplitJoin(parts[1..], c);
    }
  }

  /** A separator-free piece, the separator, then the rest: the first split piece is that piece. */
  lemma SplitAtSeparator(x: string, rest: string, c: char)
    requires c !in x
    ensures Split(x + [c] + rest, c) == [x] + Split(rest, c)
  {
    var s := x + [c] + rest;
    assert s[..|x|] == x;
    assert s[|x|] == c;
    IndexOfUnique(s, c, |x|);
    assert s[|x| + 1..] == rest;
    SplitFirst(s, c);
  }

  /** `t` occurs in `s` starting at position `k`. */
  predicate OccursAt(s: string, t: string, k: nat) {
    k + |t| <= |s| && s[k..k + |t|] == t
  }

  /** `t` occurs in `s` as a contiguous piece. */
  ghost predicate Contains(s: string, t: string) {
    exists k: nat :: OccursAt(s, t, k)
  }

  /** Containment is transitive. */
  lemma ContainsTrans(s: string, t: string, u: string)
    requires Contains(s, t) && Contains(t, u)
    ensures Contains(s, u)
  {
    var k: nat :| OccursAt(s, t, k);
    var m: nat :| OccursAt(t, u, m);
    forall j | 0 <= j < |u| ensures s[k + m + j] == u[j] {
      assert s[k + m + j] == s[k..k + |t|][m + j] == t[m + j];
    }
    assert s[k + m..k + m + |u|] == u;
    assert OccursAt(s, u, k + m);
  }

  /** Every piece occurs in the joined string. */
  lemma {:induction false} ContainsJoined(parts: seq<string>, sep: string, i: nat)
    requires i < |parts|
    ensures Contains(Join(parts, sep), parts[i])
    decreases i
  {
    var s := Join(parts, sep);
    if |parts| == 1 || i == 0 {
      assert s[0..|parts[0]|] == parts[0];
      assert OccursAt(s, parts[0], 0);
    } else {
      ContainsJoined(parts[1..], sep, i - 1);
      var rest := Join(parts[1..], sep);
      assert s == parts[0] + sep + rest;
      assert s[|parts[0] + sep|..|parts[0] + sep| + |rest|] == rest;
      assert OccursAt(s, rest, |parts[0] + sep|);
      ContainsTrans(s, rest, parts[i]);
    }
  }

  /** Trimming cuts off two runs of whitespace and keeps the slice between them. */
  lemma TrimSlice(s: string) returns (p: nat)
    ensures p + |Trim(s)| <= |s| && Trim(s) == s[p..p + |Trim(s)|]
    ensures forall i :: 0 <= i < p ==> IsSpace(s[i])
    ensures forall i :: p + |Trim(s)| <= i < |s| ==> IsSpace(s[i])
  {
    var t := TrimStart(s);
    p := |s| - |t|;
    var r := TrimEnd(t);
    assert forall i :: p + |r| <= i < |s| ==> s[i] == t[i - p];
  }

  /** A string holds each of its slices. */
  lemma ContainsSlice(s: string, i: nat, j: nat)
    requires i <= j <= |s|
    ensures Contains(s, s[i..j])
  {
    assert OccursAt(s, s[i..j], i);
  }

  /** A string holds each of its suffixes. */
  lemma ContainsSuffix(s: string, i: nat)
    requires i <= |s|
    ensures Contains(s, s[i..])
  {
    assert OccursAt(s, s[i..], i);
  }

  /** A string holds its trimmed self. */
  lemma ContainsTrim(s: string)
    ensures Contains(s, Trim(s))
  {
    var p := TrimSlice(s);
    assert OccursAt(s, Trim(s), p);
  }

  /** A piece with non-space ends survives trimming of a string that holds it. */
  lemma TrimKeepsInner(s: string, t: string)
    requires Contains(s, t)
    requires t != [] && !IsSpace(t[0]) && !IsSpace(t[|t| - 1])
    ensures Contains(Trim(s), t)
  {
    var k: nat :| OccursAt(s, t, k);
    var p := TrimSlice(s);
    var m := SliceKeepsInner(s, t, k, p, Trim(s));
  }

  /** The slice `r` of `s` at `p`, with only whitespace outside it, holds every piece of `s` with non-space ends. */
  lemma SliceKeepsInner(s: string, t: string, k: nat, p: nat, r: string) returns (m: nat)
    requires OccursAt(s, t, k) && t != [] && !IsSpace(t[0]) && !IsSpace(t[|t| - 1])
    requires p + |r| <= |s| && r == s[p..p + |r|]
    requires forall i :: 0 <= i < p ==> IsSpace(s[i])
    requires forall i :: p + |r| <= i < |s| ==> IsSpace(s[i])
    ensures OccursAt(r, t, m)
  {
    assert s[k] == t[0] && s[k + |t| - 1] == t[|t| - 1];
    m := k - p;
    forall j | 0 <= j < |t| ensures r[m + j] == t[j] {
      assert r[m + j] == s[k + j];
    }
    assert r[m..m + |t|] == t;
  }

  /** A prefix with non-space ends stays a prefix after trimming. */
  lemma TrimKeepsPrefix(s: string, t: string)
    requires StartsWith(s, t)
    requires t != [] && !IsSpace(t[0]) && !IsSpace(t[|t| - 1])
    ensures StartsWith(Trim(s), t)
  {
    var p := TrimSlice(s);
    var r := Trim(s);
    assert s[0] == t[0] && s[|t| - 1] == t[|t| - 1];
    assert p == 0 && |t| <= |r|;
    assert r[..|t|] == s[..|t|];
  }

  /** Keeps the non-empty trimmed pieces, in order. */
  function NonEmptyTrimmed(parts: seq<string>): (r: seq<string>)
    ensures |r| <= |parts|
    ensures forall i :: 0 <= i < |r| ==> r[i] != "" && IsTrimmed(r[i])
  {
    if parts == [] then []
    else
      var t := Trim(parts[0]);
      (if t == "" then [] else [t]) + NonEmptyTrimmed(parts[1..])
  }

  /**
   * The path segments both halves of the system read owner and name from:
   * `path.split("/").map(trim).filter(nonEmpty)`.
   */
  function Segments(path: string): seq<string> {
    NonEmptyTrimmed(Split(path, '/'))
  }

  /** Trimming adds no character. */
  lemma TrimAddsNothing(s: string, c: char)
    requires c !in s
    ensures c !in Trim(s)
  {
    var ts := TrimStart(s);
    assert ts == s[|s| - |ts|..];
    assert c !in ts by {
      forall k | 0 <= k < |ts| ensures ts[k] != c {
        assert ts[k] == s[|s| - |ts| + k];
      }
    }
    var te := TrimEnd(ts);
    forall k | 0 <= k < |te| ensures te[k] != c {
      assert te[k] == ts[k];
    }
  }

  lemma {:induction false} NonEmptyTrimmedNoSlash(parts: seq<string>)
    requires forall i :: 0 <= i < |parts| ==> '/' !in parts[i]
    ensures forall i :: 0 <= i < |NonEmptyTrimmed(parts)| ==> '/' !in NonEmptyTrimmed(parts)[i]
  {
    if parts != [] {
      NonEmptyTrimmedNoSlash(parts[1..]);
      TrimAddsNothing(parts[0], '/');
    }
  }

  /** A segment never contains a slash. */
  lemma SegmentsHaveNoSlash(path: string)
    ensures forall i :: 0 <= i < |Segments(path)| ==> '/' !in Segments(path)[i]
  {
    NonEmptyTrimmedNoSlash(Split(path, '/'));
  }

  function DigitChar(d: nat): char
    requires d < 10
  {
    "0123456789"[d]
  }

  function DigitValue(c: char): nat
    requires IsDigit(c)
  {
    (c as int - '0' as int) as nat
  }

  /** Decimal digits of `n`, without leading zeros (`String(n)` for a non-negative integer). */
  function NatToString(n: nat): (r: string)
    ensures |r| >= 1
    ensures forall i :: 0 <= i < |r| ==> IsDigit(r[i])
    ensures r[0] == '0' ==> n == 0
    decreases n
  {
    if n < 10 then [DigitChar(n)] else NatToString(n / 10) + [DigitChar(n % 10)]
  }

  /** `String(n)` for an integer: a minus sign, then the digits of its magnitude. */
  function IntToString(n: int): string {
    if n < 0 then "-" + NatToString(-n) else NatToString(n)
  }

  /** The value of a string of decimal digits, most significant first. */
  function DigitsValue(d: string): nat
    requires forall i :: 0 <= i < |d| ==> IsDigit(d[i])
  {
    if d == [] then 0 else DigitsValue(d[..|d| - 1]) * 10 + DigitValue(d[|d| - 1])
  }

  /** The longest prefix of `s` made of decimal digits. */
  function DigitRun(s: string): (r: string)
    ensures |r| <= |s| && r == s[..|r|]
    ensures forall i :: 0 <= i < |r| ==> IsDigit(r[i])
    ensures |r| < |s| ==> !IsDigit(s[|r|])
  {
    if s != [] && IsDigit(s[0]) then [s[0]] + DigitRun(s[1..]) else []
  }

  /**
   * `Number.parseInt(s, 10)` on integers: leading whitespace is skipped, an
   * optional sign is read, then the longest run of digits; with no digit the
   * result is NaN (None).
   */
  function ParseIntPrefix(s: string): Option<int> {
    var t := TrimStart(s);
    var negative := t != [] && t[0] == '-';
    var u := if t != [] && (t[0] == '-' || t[0] == '+') then t[1..] else t;
    var d := DigitRun(u);
    var v: int := if d == [] then 0 else DigitsValue(d);
    if d == [] then None
    else if negative then Some(-v)
    else Some(v)
  }

  lemma {:induction false} DigitsValueOfNatToString(n: nat)
    ensures DigitsValue(NatToString(n)) == n
    decreases n
  {
    if n >= 10 {
      DigitsValueOfNatToString(n / 10);
      var r := NatToString(n);
      assert r[..|r| - 1] == NatToString(n / 10);
    }
  }

  lemma {:induction false} DigitRunOfDigits(s: string)
    requires forall i :: 0 <= i < |s| ==> IsDigit(s[i])
    ensures DigitRun(s) == s
  {
    if s != [] {
      DigitRunOfDigits(s[1..]);
    }
  }

  /** Reading back the decimal rendering of a natural number gives the number. */
  lemma ParseIntOfNatToString(n: nat)
    ensures ParseIntPrefix(NatToString(n)) == Some(n)
  {
    var r := NatToString(n);
    assert IsDigit(r[0]);
    assert TrimStart(r) == r;
    DigitRunOfDigits(r);
    DigitsValueOfNatToString(n);
  }

  lemma {:induction false} NatToStringInjective(m: nat, n: nat)
    requires NatToString(m) == NatToString(n)
    ensures m == n
  {
    ParseIntOfNatToString(m);
    ParseIntOfNatToString(n);
  }

  /** ASCII lower-casing (`toLowerCase` restricted to A-Z). */
  function ToLower(s: string): (r: string)
    ensures |r| == |s|
  {
    if s == [] then []
    else
      var c := s[0];
      [if 'A' <= c <= 'Z' then (c as int + 32) as char else c] + ToLower(s[1..])
  }

  /** Replaces every occurrence of the character `c` with the string `with`. */
  function ReplaceChar(s: string, c: char, with: string): (r: string)
    ensures c !in with ==> c !in r
    ensures c !in s ==> r == s
  {
    if s == [] then []
    else (if s[0] == c then with else [s[0]]) + ReplaceChar(s[1..], c, with)
  }

  /** `n` copies of `s` back to back. */
  function Repeat(s: string, n: nat): (r: string)
    ensures |r| == n * |s|
  {
    if n == 0 then [] else s + Repeat(s, n - 1)
  }

  /** Replacing characters works piece by piece. */
  lemma {:induction false} ReplaceCharAppend(a: string, b: string, c: char, with: string)
    ensures ReplaceChar(a + b, c, with) == ReplaceChar(a, c, with) + ReplaceChar(b, c, with)
  {
    if a == [] {
      assert a + b == b;
    } else {
      assert (a + b)[0] == a[0] && (a + b)[1..] == a[1..] + b;
      ReplaceCharAppend(a[1..], b, c, with);
    }
  }

  /** Replacing every `c` by `with` in `n` copies of `[c]` gives `n` copies of `with`. */
  lemma {:induction false} ReplaceCharRepeat(c: char, with: string, n: nat)
    ensures ReplaceChar(Repeat([c], n), c, with) == Repeat(with, n)
  {
    if n > 0 {
      ReplaceCharAppend([c], Repeat([c], n - 1), c, with);
      ReplaceCharRepeat(c, with, n - 1);
    }
  }
}
