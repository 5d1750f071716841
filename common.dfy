/** Python built-ins the views rely on, stated once: the optional value,
    the order of two `str`/`unicode` values, `list.sort` (stable, with
    `reverse`), `list.reverse`, slicing with negative bounds, indexing,
    `str(n)`/`int(s)` on decimal numbers and `s.split('/')`. */
module Common {

  datatype Option<T> = None | Some(value: T) {
    function GetOr(default: T): T {
      match this
      case Some(v) => v
      case None => default
    }
  }

  // ---------------------------------------------------------------------
  // Strings: Python compares them code point by code point, a proper
  // prefix first.
  // ---------------------------------------------------------------------

  predicate LexLe(a: string, b: string)
  {
    |a| == 0 || (|b| > 0 && (a[0] < b[0] || (a[0] == b[0] && LexLe(a[1..], b[1..]))))
  }

  lemma {:induction false} LexLeTotal(a: string, b: string)
    ensures LexLe(a, b) || LexLe(b, a)
  {
    if |a| > 0 && |b| > 0 && a[0] == b[0] {
      LexLeTotal(a[1..], b[1..]);
    }
  }

  lemma {:induction false} LexLeTransitive(a: string, b: string, c: string)
    requires LexLe(a, b) && LexLe(b, c)
    ensures LexLe(a, c)
  {
    if |a| > 0 && a[0] == b[0] && b[0] == c[0] {
      LexLeTransitive(a[1..], b[1..], c[1..]);
    }
  }

  lemma {:induction false} LexLeAntisymmetric(a: string, b: string)
    requires LexLe(a, b) && LexLe(b, a)
    ensures a == b
  {
    if |a| > 0 {
      LexLeAntisymmetric(a[1..], b[1..]);
      assert a == [a[0]] + a[1..];
      assert b == [b[0]] + b[1..];
    }
  }

  /** A string sorts no later than every string it is a prefix of. */
  lemma {:induction false} PrefixLexLe(a: string, b: string)
    requires a <= b
    ensures LexLe(a, b)
  {
    if |a| > 0 {
      assert a[1..] <= b[1..];
      PrefixLexLe(a[1..], b[1..]);
    }
  }

  predicate EndsWith(s: string, suffix: string)
  {
    |suffix| <= |s| && s[|s| - |suffix|..] == suffix
  }

  // ---------------------------------------------------------------------
  // Orders given as "a may come before b" and Python's stable sort.
  // ---------------------------------------------------------------------

  ghost predicate Total<T(!new)>(le: (T, T) -> bool)
  {
    forall a, b :: le(a, b) || le(b, a)
  }

  ghost predicate Transitive<T(!new)>(le: (T, T) -> bool)
  {
    forall a, b, c :: le(a, b) && le(b, c) ==> le(a, c)
  }

  /** `reverse=True`: every comparison is made the other way round. */
  function Flip<T>(le: (T, T) -> bool): (T, T) -> bool
  {
    (a, b) => le(b, a)
  }

  /** Reversing a total preorder gives a total preorder. */
  lemma FlipTotalPreorder<T(!new)>(le: (T, T) -> bool)
    requires Total(le) && Transitive(le)
    ensures Total(Flip(le)) && Transitive(Flip(le))
  {
  }

  /** Every element may come before every later one. */
  ghost predicate SortedBy<T>(s: seq<T>, le: (T, T) -> bool)
  {
    forall i, j :: 0 <= i < j < |s| ==> le(s[i], s[j])
  }

  /** Places x before the first element it may precede: the elements x
      came before in the input stay after it, so the sort is stable. */
  function Insert<T>(x: T, s: seq<T>, le: (T, T) -> bool): (r: seq<T>)
    ensures multiset(r) == multiset(s) + multiset{x}
    ensures |r| == |s| + 1
  {
    if |s| == 0 then [x]
    else if le(x, s[0]) then [x] + s
    else
      assert s == [s[0]] + s[1..];
      [s[0]] + Insert(x, s[1..], le)
  }

  /** `list.sort(key=..., reverse=...)`, as a stable insertion sort; the
      order `le` is the comparison of the keys (flipped for `reverse`). */
  function SortBy<T>(s: seq<T>, le: (T, T) -> bool): (r: seq<T>)
    ensures multiset(r) == multiset(s)
    ensures |r| == |s|
  {
    if |s| == 0 then []
    else
      assert s == [s[0]] + s[1..];
      Insert(s[0], SortBy(s[1..], le), le)
  }

  /** A lower bound of x and of every element of s bounds the insertion. */
  lemma {:induction false} InsertBounded<T>(x: T, s: seq<T>, le: (T, T) -> bool, b: T)
    requires le(b, x)
    requires forall k :: 0 <= k < |s| ==> le(b, s[k])
    ensures forall k :: 0 <= k < |Insert(x, s, le)| ==> le(b, Insert(x, s, le)[k])
  {
    if |s| > 0 && !le(x, s[0]) {
      InsertBounded(x, s[1..], le, b);
      var t := Insert(x, s[1..], le);
      assert forall k :: 0 < k < |t| + 1 ==> ([s[0]] + t)[k] == t[k - 1];
    }
  }

  lemma {:induction false} InsertSorted<T(!new)>(x: T, s: seq<T>, le: (T, T) -> bool)
    requires Total(le) && Transitive(le)
    requires SortedBy(s, le)
    ensures SortedBy(Insert(x, s, le), le)
  {
    if |s| > 0 && !le(x, s[0]) {
      var t := Insert(x, s[1..], le);
      InsertSorted(x, s[1..], le);
      assert le(s[0], x);
      InsertBounded(x, s[1..], le, s[0]);
      var r := [s[0]] + t;
      forall i, j | 0 <= i < j < |r|
        ensures le(r[i], r[j])
      {
        assert r[j] == t[j - 1];
        if i > 0 {
          assert r[i] == t[i - 1];
        }
      }
    }
  }

  /** The sort's result is ordered. */
  lemma {:induction false} SortBySorted<T(!new)>(s: seq<T>, le: (T, T) -> bool)
    requires Total(le) && Transitive(le)
    ensures SortedBy(SortBy(s, le), le)
  {
    if |s| > 0 {
      SortBySorted(s[1..], le);
      InsertSorted(s[0], SortBy(s[1..], le), le);
    }
  }

  /** `list.reverse()`. */
  function Reverse<T>(s: seq<T>): (r: seq<T>)
    ensures |r| == |s|
    ensures forall i :: 0 <= i < |s| ==> r[i] == s[|s| - 1 - i]
    ensures multiset(r) == multiset(s)
  {
    if |s| == 0 then []
    else
      assert s == s[..|s| - 1] + [s[|s| - 1]];
      [s[|s| - 1]] + Reverse(s[..|s| - 1])
  }

  function Filter<T>(s: seq<T>, keep: T -> bool): seq<T>
  {
    if |s| == 0 then []
    else Filter(s[..|s| - 1], keep) + (if keep(s[|s| - 1]) then [s[|s| - 1]] else [])
  }

  /** The kept elements are elements of s that pass `keep`, and every
      element of s that passes is kept. */
  lemma {:induction false} FilterMembers<T>(s: seq<T>, keep: T -> bool)
    ensures |Filter(s, keep)| <= |s|
    ensures multiset(Filter(s, keep)) <= multiset(s)
    ensures forall k :: 0 <= k < |Filter(s, keep)| ==> Filter(s, keep)[k] in s && keep(Filter(s, keep)[k])
    ensures forall k :: 0 <= k < |s| && keep(s[k]) ==> s[k] in Filter(s, keep)
  {
    if |s| > 0 {
      var init, last := s[..|s| - 1], s[|s| - 1];
      var r, ri := Filter(s, keep), Filter(init, keep);
      assert s == init + [last];
      FilterMembers(init, keep);
      assert r == ri + (if keep(last) then [last] else []);
      forall k | 0 <= k < |r|
        ensures r[k] in s && keep(r[k])
      {
        if k < |ri| {
          assert r[k] == ri[k] && ri[k] in init;
        }
      }
      forall k | 0 <= k < |s| && keep(s[k])
        ensures s[k] in r
      {
        if k < |init| {
          assert s[k] == init[k] && init[k] in ri;
        }
      }
    }
  }

  lemma FilterSnoc<T>(s: seq<T>, x: T, keep: T -> bool)
    ensures Filter(s + [x], keep) == Filter(s, keep) + (if keep(x) then [x] else [])
  {
    assert (s + [x])[..|s|] == s;
  }

  /** Filtering a sequence that starts with x. */
  lemma {:induction false} FilterCons<T>(x: T, s: seq<T>, keep: T -> bool)
    ensures Filter([x] + s, keep) == (if keep(x) then [x] else []) + Filter(s, keep)
  {
    if |s| > 0 {
      var init := s[..|s| - 1];
      FilterCons(x, init, keep);
      assert ([x] + s)[..|s|] == [x] + init;
    }
  }

  // ---------------------------------------------------------------------
  // Slicing and indexing with Python's negative bounds.
  // ---------------------------------------------------------------------

  /** A slice bound as Python resolves it against a length n. */
  function SliceBound(i: int, n: nat): (k: nat)
    ensures k <= n
    ensures 0 <= i <= n ==> k == i
  {
    if i < 0 then (if n + i < 0 then 0 else n + i)
    else if i > n then n
    else i
  }

  /** `s[i:j]`. */
  function PySlice<T>(s: seq<T>, i: int, j: int): seq<T>
  {
    var a, b := SliceBound(i, |s|), SliceBound(j, |s|);
    if a <= b then s[a..b] else []
  }

  /** A window `s[i:i+n]` with n > 0 never holds more than n elements,
      whatever the sign of i. */
  lemma PySliceAtMost<T>(s: seq<T>, i: int, n: int)
    requires n > 0
    ensures |PySlice(s, i, i + n)| <= n
  {
  }

  /** The elements of a slice are the elements at consecutive positions
      of s, starting where the lower bound resolves to. */
  lemma PySliceAt<T>(s: seq<T>, i: int, j: int, k: int)
    requires 0 <= k < |PySlice(s, i, j)|
    ensures SliceBound(i, |s|) + k < |s|
    ensures PySlice(s, i, j)[k] == s[SliceBound(i, |s|) + k]
  {
  }

  /** A slice takes nothing s does not hold. */
  lemma PySliceSub<T>(s: seq<T>, i: int, j: int)
    ensures multiset(PySlice(s, i, j)) <= multiset(s)
  {
    var a, b := SliceBound(i, |s|), SliceBound(j, |s|);
    if a <= b {
      assert s == s[..a] + s[a..b] + s[b..];
    }
  }

  /** `s[i]`, or None where Python raises IndexError. */
  function PyAt<T>(s: seq<T>, i: int): (r: Option<T>)
    ensures r.Some? <==> -|s| <= i < |s|
    ensures 0 <= i < |s| ==> r == Some(s[i])
    ensures -|s| <= i < 0 ==> r == Some(s[|s| + i])
  {
    if 0 <= i < |s| then Some(s[i])
    else if -|s| <= i < 0 then Some(s[|s| + i])
    else None
  }

  // ---------------------------------------------------------------------
  // Decimal numbers: `str(n)` and `int(s)`.
  // ---------------------------------------------------------------------

  function DigitChar(d: nat): char
    requires d < 10
  {
    "0123456789"[d]
  }

  predicate IsDigit(c: char)
  {
    '0' <= c <= '9'
  }

  /** `str(n)` for n >= 0. */
  function NatToString(n: nat): (r: string)
    ensures |r| > 0
    ensures forall k :: 0 <= k < |r| ==> IsDigit(r[k])
    ensures n < 10 <==> |r| == 1
  {
    if n < 10 then [DigitChar(n)]
    else NatToString(n / 10) + [DigitChar(n % 10)]
  }

  /** `str(n)` for any integer. */
  function IntToString(n: int): (r: string)
  {
    if n < 0 then "-" + NatToString(-n) else NatToString(n)
  }

  /** The value of a string of decimal digits. */
  function DigitsValue(s: string): nat
    requires forall k :: 0 <= k < |s| ==> IsDigit(s[k])
  {
    if |s| == 0 then 0
    else
      assert IsDigit(s[|s| - 1]);
      DigitsValue(s[..|s| - 1]) * 10 + (s[|s| - 1] as int - '0' as int)
  }

  /** `int(s)` for a string of decimal digits; None where Python raises
      ValueError. Signs and surrounding blanks are not accepted here. */
  function ParseNat(s: string): (r: Option<nat>)
    ensures r.Some? <==> |s| > 0 && forall k :: 0 <= k < |s| ==> IsDigit(s[k])
  {
    if |s| > 0 && forall k :: 0 <= k < |s| ==> IsDigit(s[k]) then Some(DigitsValue(s))
    else None
  }

  lemma {:induction false} DigitsValueOfNat(n: nat)
    ensures DigitsValue(NatToString(n)) == n
  {
    var s := NatToString(n);
    if n < 10 {
      assert s[..0] == [];
      assert s[0] as int - '0' as int == n;
    } else {
      DigitsValueOfNat(n / 10);
      assert s[..|s| - 1] == NatToString(n / 10);
      assert s[|s| - 1] as int - '0' as int == n % 10;
    }
  }

  /** `int(str(n)) == n`: column names made by `str` read back as their
      positions. */
  lemma ParseNatToString(n: nat)
    ensures ParseNat(NatToString(n)) == Some(n)
  {
    DigitsValueOfNat(n);
  }

  /** `int(s)` for an optional '-' followed by decimal digits. */
  function ParseInt(s: string): Option<int>
  {
    if |s| > 0 && s[0] == '-' then
      match ParseNat(s[1..])
      case Some(n) => Some(0 - n as int)
      case None => None
    else
      match ParseNat(s)
      case Some(n) => Some(n)
      case None => None
  }

  /** `int(str(n)) == n` for any integer. */
  lemma ParseIntToString(n: int)
    ensures ParseInt(IntToString(n)) == Some(n)
  {
    var m: nat := if n < 0 then -n else n;
    var t := NatToString(m);
    assert ParseNat(t) == Some(m) by {
      ParseNatToString(m);
    }
    ParseIntSigned(t, m);
    assert IntToString(n) == if n < 0 then "-" + t else t;
  }

  /** A string of digits reads as its value, and with a leading '-' as
      the value's negation. */
  lemma ParseIntSigned(t: string, m: nat)
    requires ParseNat(t) == Some(m)
    ensures ParseInt(t) == Some(m)
    ensures ParseInt("-" + t) == Some(0 - m)
  {
    assert IsDigit(t[0]);
    assert ("-" + t)[0] == '-' && ("-" + t)[1..] == t;
  }

  /** Distinct numbers have distinct decimal names. */
  lemma NatToStringInjective(m: nat, n: nat)
    requires NatToString(m) == NatToString(n)
    ensures m == n
  {
    ParseNatToString(m);
    ParseNatToString(n);
  }

  // ---------------------------------------------------------------------
  // `s.rsplit(sep, 1)` and `s.split(sep)`.
  // ---------------------------------------------------------------------

  /** The position of the last `c` in s, if any. */
  function LastIndexOf(s: string, c: char): (r: Option<nat>)
    ensures r.None? <==> c !in s
    ensures r.Some? ==> r.value < |s| && s[r.value] == c && c !in s[r.value + 1..]
  {
    if |s| == 0 then None
    else if s[|s| - 1] == c then Some(|s| - 1)
    else
      var r := LastIndexOf(s[..|s| - 1], c);
      assert s == s[..|s| - 1] + [s[|s| - 1]];
      if r.Some? then
        assert s[r.value + 1..] == s[..|s| - 1][r.value + 1..] + [s[|s| - 1]];
        r
      else r
  }

  /** `s.split(c)`: the pieces between the separators, empty ones kept. */
  function Split(s: string, c: char): (r: seq<string>)
    ensures |r| > 0
    ensures forall k :: 0 <= k < |r| ==> c !in r[k]
    decreases |s|
  {
    match LastIndexOf(s, c)
    case None => [s]
    case Some(k) => Split(s[..k], c) + [s[k + 1..]]
  }
}
