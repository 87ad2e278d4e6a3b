/** Shared vocabulary for the model: failure-compatible results, Python's
    slicing and indexing rules, Python's `str.split`/`str.join` on a
    one-character separator, Python's ordering of strings, `sorted` on
    strings, and Python's integer-to-text formatting. */
module Common {

  datatype Option<+T> = None | Some(value: T)

  datatype Result<+T, +E> = Success(value: T) | Failure(error: E)

  // ---------------------------------------------------------------------
  // Python slicing and indexing

  /** The position a slice bound `n` denotes in a sequence of length `len`:
      negative bounds count from the end, and bounds are clamped. */
  function SliceBound(n: int, len: nat): (r: nat)
    ensures r <= len
    ensures 0 <= n <= len ==> r == n
    ensures n < 0 && -n <= len ==> r == len + n
    ensures n > len ==> r == len
    ensures n < 0 && -n > len ==> r == 0
  {
    if n >= 0 then (if n <= len then n else len)
    else if -n <= len then len + n else 0
  }

  /** `s[:n]` */
  function Take<T>(s: seq<T>, n: int): seq<T> {
    s[..SliceBound(n, |s|)]
  }

  /** `s[n:]` */
  function Drop<T>(s: seq<T>, n: int): seq<T> {
    s[SliceBound(n, |s|)..]
  }

  /** Slicing at the same bound never loses or reorders elements. */
  lemma TakeDrop<T>(s: seq<T>, n: int)
    ensures Take(s, n) + Drop(s, n) == s
  {
    assert s[..SliceBound(n, |s|)] + s[SliceBound(n, |s|)..] == s;
  }

  /** A non-empty sequence is its first element followed by the rest. */
  lemma HeadTail<T>(s: seq<T>)
    requires |s| > 0
    ensures [s[0]] + s[1..] == s
  {
  }

  /** A non-empty sequence is its init followed by its last element. */
  lemma InitLast<T>(s: seq<T>)
    requires |s| > 0
    ensures s[..|s| - 1] + [s[|s| - 1]] == s
  {
  }

  /** `s[i]`, which raises IndexError (here `None`) outside `-len(s) <= i < len(s)`. */
  function Index<T>(s: seq<T>, i: int): (r: Option<T>)
    ensures r.Some? <==> -|s| <= i < |s|
    ensures 0 <= i < |s| ==> r == Some(s[i])
    ensures -|s| <= i < 0 ==> r == Some(s[|s| + i])
  {
    if 0 <= i < |s| then Some(s[i])
    else if -|s| <= i < 0 then Some(s[|s| + i])
    else None
  }

  // ---------------------------------------------------------------------
  // Strings

  predicate StartsWith(s: string, prefix: string) {
    |prefix| <= |s| && s[..|prefix|] == prefix
  }

  predicate EndsWith(s: string, suffix: string) {
    |suffix| <= |s| && s[|s| - |suffix|..] == suffix
  }

  /** `s.find(c)`: the first index of `c`, or -1. */
  function Find(s: string, c: char): (r: int)
    ensures -1 <= r < |s|
    ensures r == -1 <==> c !in s
    ensures r >= 0 ==> s[r] == c && c !in s[..r]
  {
    if |s| == 0 then -1
    else if s[0] == c then 0
    else
      var k := Find(s[1..], c);
      if k == -1 then -1
      else
        assert s[..k + 1] == [s[0]] + s[1..][..k];
        k + 1
  }

  /** `s.split(c)` for a one-character separator: never empty. */
  function Split(s: string, c: char): (r: seq<string>)
    ensures |r| >= 1
    ensures forall i :: 0 <= i < |r| ==> c !in r[i]
    decreases |s|
  {
    var k := Find(s, c);
    if k == -1 then [s] else [s[..k]] + Split(s[k + 1..], c)
  }

  /** `c.join(parts)` */
  function Join(parts: seq<string>, c: char): (r: string)
  {
    if |parts| == 0 then ""
    else if |parts| == 1 then parts[0]
    else parts[0] + [c] + Join(parts[1..], c)
  }

  /** Splitting and rejoining at the same separator gives back the text. */
  lemma {:induction false} JoinSplit(s: string, c: char)
    ensures Join(Split(s, c), c) == s
    decreases |s|
  {
    var k := Find(s, c);
    if k != -1 {
      JoinSplit(s[k + 1..], c);
      var rest := Split(s[k + 1..], c);
      var parts := [s[..k]] + rest;
      assert Split(s, c) == parts;
      assert |parts| >= 2 && parts[0] == s[..k] && parts[1..] == rest;
      assert Join(parts, c) == s[..k] + [c] + s[k + 1..];
      assert s == s[..k] + [c] + s[k + 1..];
    }
  }

  /** Splitting a join of separator-free parts gives back the parts. */
  lemma {:induction false} SplitJoin(parts: seq<string>, c: char)
    requires |parts| >= 1
    requires forall i :: 0 <= i < |parts| ==> c !in parts[i]
    ensures Split(Join(parts, c), c) == parts
    decreases |parts|
  {
    if |parts| > 1 {
      var s := Join(parts, c);
      var p := parts[0];
      assert s == p + [c] + Join(parts[1..], c);
      FindAfterFree(p, c, Join(parts[1..], c));
      assert s[|p| + 1..] == Join(parts[1..], c);
      assert s[..|p|] == p;
      assert forall i :: 0 <= i < |parts[1..]| ==> c !in parts[1..][i] by {
        forall i | 0 <= i < |parts[1..]| ensures c !in parts[1..][i] {
          assert parts[1..][i] == parts[i + 1];
        }
      }
      SplitJoin(parts[1..], c);
      assert Split(s, c) == [p] + parts[1..];
      HeadTail(parts);
    } else {
      assert Find(parts[0], c) == -1;
    }
  }

  lemma {:induction false} FindAfterFree(p: string, c: char, rest: string)
    requires c !in p
    ensures Find(p + [c] + rest, c) == |p|
    decreases |p|
  {
    if |p| > 0 {
      assert (p + [c] + rest)[1..] == p[1..] + [c] + rest;
      FindAfterFree(p[1..], c, rest);
    }
  }

  /** The fields of a split before position `n`, rejoined, then the separator
      and the remaining fields rejoined, give back the text. */
  lemma {:induction false} JoinPrefixSuffix(parts: seq<string>, n: nat, c: char)
    requires 1 <= n < |parts|
    ensures Join(parts[..n], c) + [c] + Join(parts[n..], c) == Join(parts, c)
    decreases n
  {
    if n > 1 {
      JoinPrefixSuffix(parts[1..], n - 1, c);
      assert parts[1..][..n - 1] == parts[..n][1..];
      assert parts[1..][n - 1..] == parts[n..];
    } else {
      assert parts[..1] == [parts[0]];
      assert parts[1..] == parts[n..];
    }
  }

  // ---------------------------------------------------------------------
  // Python's ordering of strings (by code point, a proper prefix first)

  predicate Less(a: string, b: string)
    decreases |a|
  {
    if |a| == 0 then |b| > 0
    else if |b| == 0 then false
    else if a[0] != b[0] then a[0] < b[0]
    else Less(a[1..], b[1..])
  }

  predicate LessEq(a: string, b: string) {
    a == b || Less(a, b)
  }

  lemma {:induction false} LessIrreflexive(a: string)
    ensures !Less(a, a)
    decreases |a|
  {
    if |a| > 0 { LessIrreflexive(a[1..]); }
  }

  lemma {:induction false} LessTransitive(a: string, b: string, c: string)
    requires Less(a, b) && Less(b, c)
    ensures Less(a, c)
    decreases |a|
  {
    if |a| > 0 && |b| > 0 && |c| > 0 && a[0] == b[0] && b[0] == c[0] {
      LessTransitive(a[1..], b[1..], c[1..]);
    }
  }

  lemma {:induction false} LessTotal(a: string, b: string)
    ensures a == b || Less(a, b) || Less(b, a)
    decreases |a|
  {
    if |a| > 0 && |b| > 0 && a[0] == b[0] {
      LessTotal(a[1..], b[1..]);
      if a[1..] == b[1..] { assert a == [a[0]] + a[1..] && b == [b[0]] + b[1..]; }
    }
  }

  lemma LessAsymmetric(a: string, b: string)
    requires Less(a, b)
    ensures !Less(b, a)
  {
    if Less(b, a) { LessTransitive(a, b, a); LessIrreflexive(a); }
  }

  /** Two texts of equal length keep their order whatever follows each. */
  lemma {:induction false} LessExtend(a: string, b: string, x: string, y: string)
    requires |a| == |b| && Less(a, b)
    ensures Less(a + x, b + y)
    decreases |a|
  {
    if a[0] == b[0] {
      assert (a + x)[1..] == a[1..] + x;
      assert (b + y)[1..] == b[1..] + y;
      LessExtend(a[1..], b[1..], x, y);
    }
  }

  /** A common prefix does not change the order. */
  lemma {:induction false} LessPrefix(p: string, a: string, b: string)
    requires Less(a, b)
    ensures Less(p + a, p + b)
    decreases |p|
  {
    if |p| > 0 {
      assert (p + a)[0] == (p + b)[0];
      assert (p + a)[1..] == p[1..] + a;
      assert (p + b)[1..] == p[1..] + b;
      LessPrefix(p[1..], a, b);
    } else {
      assert p + a == a && p + b == b;
    }
  }

  /** For texts of equal length, a smaller last character decides. */
  lemma {:induction false} LessLast(a: string, c: char, d: char)
    requires c < d
    ensures Less(a + [c], a + [d])
    decreases |a|
  {
    if |a| > 0 {
      assert (a + [c])[1..] == a[1..] + [c];
      assert (a + [d])[1..] == a[1..] + [d];
      LessLast(a[1..], c, d);
    }
  }

  // ---------------------------------------------------------------------
  // `sorted` on strings

  ghost predicate Sorted(s: seq<string>) {
    forall i, j :: 0 <= i < j < |s| ==> LessEq(s[i], s[j])
  }

  function Insert(x: string, s: seq<string>): (r: seq<string>)
    requires Sorted(s)
    ensures Sorted(r)
    ensures multiset(r) == multiset(s) + multiset{x}
    ensures |r| == |s| + 1
  {
    if |s| == 0 then [x]
    else if LessEq(x, s[0]) then
      BelowHeadBelowAll(x, s);
      SortedCons(x, s);
      [x] + s
    else
      SortedTail(s);
      var rest := Insert(x, s[1..]);
      InsertAfterHead(x, s, rest);
      [s[0]] + rest
  }

  lemma SortedTail(s: seq<string>)
    requires Sorted(s) && |s| > 0
    ensures Sorted(s[1..])
  {
    forall i, j | 0 <= i < j < |s| - 1 ensures LessEq(s[1..][i], s[1..][j]) {
      assert s[1..][i] == s[i + 1] && s[1..][j] == s[j + 1];
    }
  }

  /** Inserting past the head of a sorted list keeps the head in front. */
  lemma InsertAfterHead(x: string, s: seq<string>, rest: seq<string>)
    requires Sorted(s) && |s| > 0 && !LessEq(x, s[0])
    requires Sorted(rest) && multiset(rest) == multiset(s[1..]) + multiset{x}
    ensures Sorted([s[0]] + rest)
    ensures multiset([s[0]] + rest) == multiset(s) + multiset{x}
  {
    LessTotal(x, s[0]);
    SortedTail(s);
    BelowHeadBelowAll(s[0], s[1..]) by {
      if |s| > 1 { assert LessEq(s[0], s[1]) && s[1..][0] == s[1]; }
    }
    BoundSurvivesInsert(s[0], s[1..], rest, x);
    SortedCons(s[0], rest);
    assert s == [s[0]] + s[1..];
  }

  /** In a sorted list, what is below the head is below every element. */
  lemma BelowHeadBelowAll(y: string, s: seq<string>)
    requires Sorted(s) && (|s| > 0 ==> LessEq(y, s[0]))
    ensures forall j :: 0 <= j < |s| ==> LessEq(y, s[j])
  {
    forall j | 0 < j < |s| ensures LessEq(y, s[j]) {
      assert LessEq(s[0], s[j]);
      if y != s[0] && s[0] != s[j] { LessTransitive(y, s[0], s[j]); }
    }
  }

  /** A lower bound of a list and of `x` bounds the list with `x` added. */
  lemma BoundSurvivesInsert(y: string, t: seq<string>, u: seq<string>, x: string)
    requires multiset(u) == multiset(t) + multiset{x} && LessEq(y, x)
    requires forall j :: 0 <= j < |t| ==> LessEq(y, t[j])
    ensures forall j :: 0 <= j < |u| ==> LessEq(y, u[j])
  {
    forall j | 0 <= j < |u| ensures LessEq(y, u[j]) {
      assert u[j] in multiset(u);
      if u[j] != x {
        assert u[j] in multiset(t);
        var k :| 0 <= k < |t| && t[k] == u[j];
      }
    }
  }

  /** A head below every element of a sorted list keeps it sorted. */
  lemma SortedCons(y: string, u: seq<string>)
    requires Sorted(u) && forall j :: 0 <= j < |u| ==> LessEq(y, u[j])
    ensures Sorted([y] + u)
  {
    var r := [y] + u;
    forall i, j | 0 <= i < j < |r| ensures LessEq(r[i], r[j]) {
      if i > 0 { assert r[i] == u[i - 1] && r[j] == u[j - 1]; }
      else { assert r[j] == u[j - 1]; }
    }
  }

  /** `sorted(s)`: the same strings in ascending order. */
  function SortStrings(s: seq<string>): (r: seq<string>)
    ensures Sorted(r)
    ensures multiset(r) == multiset(s)
    ensures |r| == |s|
  {
    if |s| == 0 then []
    else
      assert s == [s[0]] + s[1..];
      Insert(s[0], SortStrings(s[1..]))
  }

  /** The last string of a non-empty sorted list is the greatest of the list. */
  lemma SortedLastIsMax(s: seq<string>, x: string)
    requires Sorted(s) && x in s
    ensures LessEq(x, s[|s| - 1])
  {
    var i :| 0 <= i < |s| && s[i] == x;
    if i < |s| - 1 { assert LessEq(s[i], s[|s| - 1]); }
  }

  // ---------------------------------------------------------------------
  // Integer formatting

  function DigitChar(d: int): (c: char)
    requires 0 <= d < 10
    ensures '0' <= c <= '9'
  {
    (48 + d) as char
  }

  /** `str(n)` for n >= 0. */
  function NatText(n: nat): (r: string)
    ensures |r| >= 1
    ensures forall i :: 0 <= i < |r| ==> '0' <= r[i] <= '9'
  {
    if n < 10 then [DigitChar(n)] else NatText(n / 10) + [DigitChar(n % 10)]
  }

  function Zeros(k: nat): (r: string)
    ensures |r| == k
    ensures forall i :: 0 <= i < k ==> r[i] == '0'
  {
    if k == 0 then "" else Zeros(k - 1) + "0"
  }

  /** Left-pads with '0' up to `width`. */
  function PadZeros(s: string, width: nat): (r: string)
    ensures |r| == if |s| >= width then |s| else width
  {
    if |s| >= width then s else Zeros(width - |s|) + s
  }

  /** Python's `f"{n:0W}"`: zero-padded to width W, the sign counting toward it. */
  function ZeroPadded(n: int, width: nat): (r: string)
  {
    if n >= 0 then PadZeros(NatText(n), width)
    else "-" + PadZeros(NatText(-n), if width >= 1 then width - 1 else 0)
  }

  function Pow10(w: nat): (r: nat)
    ensures r >= 1
  {
    if w == 0 then 1 else 10 * Pow10(w - 1)
  }

  /** Exactly `w` decimal digits, most significant first. */
  function FixedDigits(n: nat, w: nat): (r: string)
    ensures |r| == w
  {
    if w == 0 then "" else FixedDigits(n / 10, w - 1) + [DigitChar(n % 10)]
  }

  lemma {:induction false} FixedDigitsZero(w: nat)
    ensures FixedDigits(0, w) == Zeros(w)
  {
    if w > 0 { FixedDigitsZero(w - 1); }
  }

  /** For a value that fits, zero-padding to width `w` is the fixed-width text. */
  lemma {:induction false} PaddedIsFixed(n: nat, w: nat)
    requires 1 <= w && n < Pow10(w)
    ensures PadZeros(NatText(n), w) == FixedDigits(n, w)
    decreases w
  {
    if n < 10 {
      FixedDigitsZero(w - 1);
      assert n / 10 == 0;
    } else {
      assert Pow10(1) == 10;
      assert w >= 2;
      assert n / 10 < Pow10(w - 1);
      PaddedIsFixed(n / 10, w - 1);
      var t := NatText(n / 10);
      assert NatText(n) == t + [DigitChar(n % 10)];
      if |t| + 1 < w {
        assert Zeros(w - |t| - 1) + (t + [DigitChar(n % 10)])
            == (Zeros(w - 1 - |t|) + t) + [DigitChar(n % 10)];
      }
    }
  }

  /** Fixed-width digit texts sort in the order of their values. */
  lemma {:induction false} FixedDigitsOrder(a: nat, b: nat, w: nat)
    requires a < b < Pow10(w)
    ensures Less(FixedDigits(a, w), FixedDigits(b, w))
    decreases w
  {
    assert w > 0;
    if a / 10 < b / 10 {
      FixedDigitsOrder(a / 10, b / 10, w - 1);
      LessExtend(FixedDigits(a / 10, w - 1), FixedDigits(b / 10, w - 1),
                 [DigitChar(a % 10)], [DigitChar(b % 10)]);
    } else {
      assert a / 10 == b / 10 && a % 10 < b % 10;
      LessLast(FixedDigits(a / 10, w - 1), DigitChar(a % 10), DigitChar(b % 10));
    }
  }
}
