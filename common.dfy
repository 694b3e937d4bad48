/** Vocabulary shared by every page: optional values, the priority scale,
    the order-preserving list operations the pages build their reducers from
    (`Array.prototype.filter`, `map` with a conditional replacement, a stable
    `sort`), the progress percentage, and the case-insensitive substring test
    behind the search boxes. */
module Common {

  datatype Option<T> = None | Some(value: T)

  /** The three priorities offered by every task form. */
  datatype Priority = High | Medium | Low

  // ---------------------------------------------------------------------
  // Order-preserving filtering
  // ---------------------------------------------------------------------

  /** `r` is obtained from `s` by deleting some elements, keeping the rest in order. */
  predicate Subseq<T(==)>(r: seq<T>, s: seq<T>)
    decreases |s|
  {
    if r == [] then true
    else if s == [] then false
    else (r[0] == s[0] && Subseq(r[1..], s[1..])) || Subseq(r, s[1..])
  }

  /** `s.filter(p)`: the elements of `s` that satisfy `p`, in their original order. */
  function Filter<T(==,!new)>(s: seq<T>, p: T -> bool): (r: seq<T>)
    ensures |r| <= |s|
    ensures forall x :: x in r <==> x in s && p(x)
    ensures forall i :: 0 <= i < |r| ==> p(r[i])
    ensures (forall x :: x in s ==> p(x)) ==> r == s
  {
    if s == [] then []
    else if p(s[0]) then [s[0]] + Filter(s[1..], p)
    else Filter(s[1..], p)
  }

  /** A filter never reorders: its result is a subsequence of its input. */
  lemma {:induction false} FilterIsSubseq<T(!new)>(s: seq<T>, p: T -> bool)
    ensures Subseq(Filter(s, p), s)
  {
    if s != [] {
      FilterIsSubseq(s[1..], p);
      var r := Filter(s, p);
      if p(s[0]) {
        assert r[0] == s[0] && r[1..] == Filter(s[1..], p);
      } else {
        SubseqSkip(r, s);
      }
    }
  }

  /** Skipping the head of `s` keeps a subsequence a subsequence. */
  lemma SubseqSkip<T>(r: seq<T>, s: seq<T>)
    requires s != [] && Subseq(r, s[1..])
    ensures Subseq(r, s)
  {
  }

  /** A subsequence is never longer than the sequence it is taken from. */
  lemma {:induction false} SubseqLength<T>(r: seq<T>, s: seq<T>)
    requires Subseq(r, s)
    ensures |r| <= |s|
    decreases |s|
  {
    if r != [] {
      if r[0] == s[0] && Subseq(r[1..], s[1..]) {
        SubseqLength(r[1..], s[1..]);
      } else {
        SubseqLength(r, s[1..]);
      }
    }
  }

  /** Filtering a concatenation filters each part. */
  lemma {:induction false} FilterAppend<T(!new)>(s: seq<T>, t: seq<T>, p: T -> bool)
    ensures Filter(s + t, p) == Filter(s, p) + Filter(t, p)
  {
    if s == [] {
      assert s + t == t;
    } else {
      assert (s + t)[0] == s[0] && (s + t)[1..] == s[1..] + t;
      FilterAppend(s[1..], t, p);
    }
  }

  /** The number of elements of `s` that satisfy `p`: `s.filter(p).length`. */
  function CountWhere<T(==,!new)>(s: seq<T>, p: T -> bool): (n: nat)
    ensures n <= |s|
    ensures n == 0 <==> forall x :: x in s ==> !p(x)
    ensures n == |s| <==> forall x :: x in s ==> p(x)
  {
    if s == [] then 0
    else (if p(s[0]) then 1 else 0) + CountWhere(s[1..], p)
  }

  /** Counting is the length of the filtered list. */
  lemma {:induction false} CountIsFilterLength<T(!new)>(s: seq<T>, p: T -> bool)
    ensures CountWhere(s, p) == |Filter(s, p)|
  {
    if s != [] {
      CountIsFilterLength(s[1..], p);
    }
  }

  // ---------------------------------------------------------------------
  // Conditional replacement (`s.map(x => p(x) ? f(x) : x)`)
  // ---------------------------------------------------------------------

  /** Every element satisfying `p` is replaced by `f` of it; the others stay put. */
  function MapWhere<T>(s: seq<T>, p: T -> bool, f: T -> T): (r: seq<T>)
    ensures |r| == |s|
    ensures forall i :: 0 <= i < |s| && p(s[i]) ==> r[i] == f(s[i])
    ensures forall i :: 0 <= i < |s| && !p(s[i]) ==> r[i] == s[i]
  {
    if s == [] then []
    else [if p(s[0]) then f(s[0]) else s[0]] + MapWhere(s[1..], p, f)
  }

  // ---------------------------------------------------------------------
  // Positional edits (`splice`)
  // ---------------------------------------------------------------------

  /** `s.splice(i, 1)` on a valid index: the element at `i` is taken out. */
  function RemoveAt<T>(s: seq<T>, i: nat): (r: seq<T>)
    requires i < |s|
    ensures |r| == |s| - 1
    ensures forall k :: 0 <= k < i ==> r[k] == s[k]
    ensures forall k :: i <= k < |r| ==> r[k] == s[k + 1]
  {
    s[..i] + s[i + 1..]
  }

  /** `s.splice(i, 0, x)`: an index past the end inserts at the end. */
  function InsertAt<T>(s: seq<T>, i: nat, x: T): (r: seq<T>)
    ensures |r| == |s| + 1
    ensures r[if i < |s| then i else |s|] == x
    ensures forall k :: 0 <= k < |s| && k < i ==> r[k] == s[k]
    ensures forall k :: i <= k < |s| ==> r[k + 1] == s[k]
  {
    var j := if i < |s| then i else |s|;
    s[..j] + [x] + s[j..]
  }

  /** Taking an element out and putting it back where it was is the identity. */
  lemma RemoveInsertRoundTrip<T>(s: seq<T>, i: nat)
    requires i < |s|
    ensures InsertAt(RemoveAt(s, i), i, s[i]) == s
  {
    var r := InsertAt(RemoveAt(s, i), i, s[i]);
    assert |r| == |s|;
    forall k | 0 <= k < |s| ensures r[k] == s[k] {
      if k > i {
        assert r[k] == RemoveAt(s, i)[k - 1];
      }
    }
  }

  // ---------------------------------------------------------------------
  // Stable sort by an integer key (`Array.prototype.sort` with a numeric comparator)
  // ---------------------------------------------------------------------

  ghost predicate SortedBy<T>(s: seq<T>, key: T -> int)
  {
    forall i, j :: 0 <= i < j < |s| ==> key(s[i]) <= key(s[j])
  }

  /** Puts `x` in front of the first element whose key is not smaller, so that
      among equal keys the earlier element stays first. */
  function InsertByKey<T(==)>(x: T, s: seq<T>, key: T -> int): (r: seq<T>)
    ensures |r| == |s| + 1
    ensures multiset(r) == multiset(s) + multiset{x}
    ensures r[0] == x || (s != [] && r[0] == s[0])
  {
    if s == [] || key(x) <= key(s[0]) then [x] + s
    else
      assert s == [s[0]] + s[1..];
      [s[0]] + InsertByKey(x, s[1..], key)
  }

  /** Inserting into a sorted list keeps it sorted. */
  lemma {:induction false} InsertKeepsSorted<T>(x: T, s: seq<T>, key: T -> int)
    requires SortedBy(s, key)
    ensures SortedBy(InsertByKey(x, s, key), key)
  {
    if s != [] && key(x) > key(s[0]) {
      var tail := InsertByKey(x, s[1..], key);
      InsertKeepsSorted(x, s[1..], key);
      assert key(s[0]) <= key(tail[0]);
      var r := [s[0]] + tail;
      forall i, j | 0 <= i < j < |r| ensures key(r[i]) <= key(r[j]) {
        if i == 0 && j > 1 {
          assert key(tail[0]) <= key(tail[j - 1]);
        }
      }
    }
  }

  /** Insertion sort: a stable sort of `s` into ascending key order. */
  function SortByKey<T(==)>(s: seq<T>, key: T -> int): (r: seq<T>)
    ensures |r| == |s|
    ensures multiset(r) == multiset(s)
    ensures SortedBy(r, key)
  {
    if s == [] then []
    else
      assert s == [s[0]] + s[1..];
      var rest := SortByKey(s[1..], key);
      InsertKeepsSorted(s[0], rest, key);
      InsertByKey(s[0], rest, key)
  }

  /** The elements whose key is `k`. */
  function HasKey<T>(key: T -> int, k: int): T -> bool
  {
    (x: T) => key(x) == k
  }

  /** Insertion puts `x` in front of every element with its own key, and
      among the other keys changes nothing. */
  lemma {:induction false} InsertByKeyStable<T(!new)>(x: T, s: seq<T>, key: T -> int, k: int)
    ensures Filter(InsertByKey(x, s, key), HasKey(key, k)) ==
            if key(x) == k then [x] + Filter(s, HasKey(key, k)) else Filter(s, HasKey(key, k))
  {
    var p := HasKey(key, k);
    if s == [] || key(x) <= key(s[0]) {
      assert ([x] + s)[1..] == s;
    } else {
      var tail := InsertByKey(x, s[1..], key);
      assert ([s[0]] + tail)[1..] == tail;
      InsertByKeyStable(x, s[1..], key, k);
    }
  }

  /** The sort is stable: elements with equal keys keep their original order. */
  lemma {:induction false} SortByKeyStable<T(!new)>(s: seq<T>, key: T -> int, k: int)
    ensures Filter(SortByKey(s, key), HasKey(key, k)) == Filter(s, HasKey(key, k))
  {
    if s != [] {
      SortByKeyStable(s[1..], key, k);
      InsertByKeyStable(s[0], SortByKey(s[1..], key), key, k);
    }
  }

  // ---------------------------------------------------------------------
  // Percentages
  // ---------------------------------------------------------------------

  /** `r` is `part / whole * 100`, stated without division. */
  predicate IsPercentOf(r: real, part: nat, whole: nat)
  {
    r * (whole as real) == 100.0 * (part as real)
  }

  /** `total === 0 ? 0 : (done / total) * 100`, the progress bar value of every page. */
  function Progress(done: nat, total: nat): (r: real)
    requires done <= total
    ensures 0.0 <= r <= 100.0
    ensures total == 0 ==> r == 0.0
    ensures r == 0.0 <==> done == 0
    ensures r == 100.0 <==> 0 < total && done == total
    ensures 0 < total ==> IsPercentOf(r, done, total)
  {
    if total == 0 then 0.0
    else
      var ratio := done as real / total as real;
      RatioBounds(done, total, ratio);
      ratio * 100.0
  }

  lemma RatioBounds(done: nat, total: nat, ratio: real)
    requires done <= total && 0 < total && ratio == done as real / total as real
    ensures ratio * (total as real) == done as real
    ensures 0.0 <= ratio <= 1.0
    ensures ratio == 1.0 <==> done == total
    ensures ratio == 0.0 <==> done == 0
  {
    var d, t := done as real, total as real;
    assert ratio * t == d;
  }

  /** `Math.round((done / total) * 100)`, or 0 when there is nothing to count.
      `Math.round` rounds halves up: the result is the integer `r` with
      `r - 1/2 <= 100 * done / total < r + 1/2`, stated here multiplied out by `2 * total`. */
  function RoundedPercent(done: nat, total: nat): (r: int)
    requires done <= total
    ensures 0 <= r <= 100
    ensures total == 0 ==> r == 0
    ensures 0 < total ==> (2 * r - 1) * total <= 200 * done < (2 * r + 1) * total
    ensures 0 < total && done == total ==> r == 100
    ensures done == 0 ==> r == 0
  {
    if total == 0 then 0
    else
      var q := (200 * done + total) / (2 * total);
      RoundingBounds(done, total, q);
      q
  }

  lemma RoundingBounds(done: nat, total: nat, q: int)
    requires done <= total && 0 < total
    requires q == (200 * done + total) / (2 * total)
    ensures 0 <= q <= 100
    ensures (2 * q - 1) * total <= 200 * done < (2 * q + 1) * total
    ensures done == total ==> q == 100
    ensures done == 0 ==> q == 0
  {
    var n := 2 * total;
    var m := 200 * done + total;
    DivisionBounds(m, n, q);
    assert (2 * q - 1) * total == q * n - total;
    assert (2 * q + 1) * total == q * n + total;
    if done == total {
      assert 100 * n <= m < 100 * n + n;
      QuotientUnique(m, n, q, 100);
    }
    if done == 0 {
      assert 0 * n <= m < 0 * n + n;
      QuotientUnique(m, n, q, 0);
    }
    if q < 0 {
      MultiplyMonotone(q, -1, n);
    }
    if q > 100 {
      MultiplyMonotone(101, q, n);
    }
  }

  lemma DivisionBounds(m: int, n: int, q: int)
    requires 0 < n && q == m / n
    ensures q * n <= m < q * n + n
  {
    var rem := m % n;
    assert m == q * n + rem && 0 <= rem < n;
  }

  lemma MultiplyMonotone(x: int, y: int, n: int)
    requires x <= y && 0 <= n
    ensures x * n <= y * n
  {
    assert y * n - x * n == (y - x) * n;
  }

  /** The quotient is the only integer whose multiple brackets the dividend. */
  lemma QuotientUnique(m: int, n: int, q: int, a: int)
    requires 0 < n && q * n <= m < q * n + n && a * n <= m < a * n + n
    ensures q == a
  {
    if q < a {
      MultiplyMonotone(q + 1, a, n);
    } else if a < q {
      MultiplyMonotone(a + 1, q, n);
    }
  }

  // ---------------------------------------------------------------------
  // Case-insensitive search
  // ---------------------------------------------------------------------

  /** `toLowerCase` on one character; only the ASCII letters are folded. */
  function LowerChar(c: char): char
  {
    if 'A' <= c <= 'Z' then (c as int + 32) as char else c
  }

  function ToLower(s: string): string
  {
    seq(|s|, i requires 0 <= i < |s| => LowerChar(s[i]))
  }

  /** `sub` occurs in `s` starting at position `i`. */
  predicate OccursAt(s: string, sub: string, i: int)
  {
    0 <= i <= |s| - |sub| && s[i..i + |sub|] == sub
  }

  /** `s.includes(sub)`: `sub` occurs in `s` at some position. */
  predicate Contains(s: string, sub: string)
  {
    exists i | 0 <= i <= |s| :: OccursAt(s, sub, i)
  }

  /** The empty search term occurs in every string, so an empty search keeps everything. */
  lemma EmptyTermMatches(s: string)
    ensures Contains(s, "")
  {
    assert OccursAt(s, "", 0);
  }

  /** `s.toLowerCase().includes(term.toLowerCase())`. */
  predicate MatchesIgnoringCase(s: string, term: string)
  {
    Contains(ToLower(s), ToLower(term))
  }
}
