/** Shared vocabulary of the ShareIt model: optional values, the service's three
    error kinds, Java string predicates, and the sequence operations that the
    repository queries are built from (filter, sort by a key, page). */
module Common {

  datatype Option<T> = None | Some(value: T)

  /** The three exception kinds the services throw: ValidationException (HTTP 400),
      NotFoundException (HTTP 404) and DuplicateException (HTTP 409). */
  datatype Error = Validation | NotFound | Duplicate

  datatype Result<T> = Ok(value: T) | Err(error: Error)

  /** The outcome of a guard that either passes or throws. */
  datatype Outcome = Pass | Fail(error: Error)

  /** Java's Character.isWhitespace. */
  predicate IsWhitespace(c: char)
  {
    || c == ' ' || c == '\t' || c == '\n' || c == '\r'
    || c == '\U{000B}' || c == '\U{000C}'
    || ('\U{001C}' <= c <= '\U{001F}')
    || c == '\U{1680}'
    || ('\U{2000}' <= c <= '\U{2006}')
    || ('\U{2008}' <= c <= '\U{200A}')
    || c == '\U{2028}' || c == '\U{2029}' || c == '\U{205F}' || c == '\U{3000}'
  }

  /** Java's String.isBlank: empty or whitespace only. */
  predicate IsBlank(s: string)
  {
    forall i | 0 <= i < |s| :: IsWhitespace(s[i])
  }

  /** Upper-casing as SQL UPPER does it for ASCII letters; other characters are kept. */
  function ToUpper(c: char): (u: char)
    ensures 'a' <= c <= 'z' ==> 'A' <= u <= 'Z' && u as int == c as int - 32
    ensures !('a' <= c <= 'z') ==> u == c
  {
    if 'a' <= c <= 'z' then (c as int - 32) as char else c
  }

  function UpperAll(s: string): (r: string)
    ensures |r| == |s|
    ensures forall i | 0 <= i < |s| :: r[i] == ToUpper(s[i])
  {
    seq(|s|, i requires 0 <= i < |s| => ToUpper(s[i]))
  }

  /** `t` occurs in `s` as a contiguous substring (Java's String.contains). */
  predicate Contains(s: string, t: string)
  {
    exists i | 0 <= i <= |s| - |t| :: OccursAt(s, t, i)
  }

  predicate OccursAt(s: string, t: string, i: int)
  {
    0 <= i && i + |t| <= |s| && s[i..i + |t|] == t
  }

  /** SQL `UPPER(s) LIKE UPPER('%t%')`, the ...ContainingIgnoreCase query keyword. */
  predicate ContainsIgnoreCase(s: string, t: string)
  {
    Contains(UpperAll(s), UpperAll(t))
  }

  function Min(a: int, b: int): int
  {
    if a <= b then a else b
  }

  /** Java's integer division, which truncates toward zero. */
  function JavaDiv(a: int, b: int): (q: int)
    requires b != 0
    ensures a >= 0 && b > 0 ==> q == a / b
    ensures b > 0 ==> (q >= 0 <==> a > -b)
  {
    if a >= 0 then (if b > 0 then a / b else -(a / -b))
    else (if b > 0 then -((-a) / b) else (-a) / (-b))
  }

  /** Every element of `s` occurs exactly once. */
  ghost predicate NoDuplicates<T>(s: seq<T>)
  {
    forall x | x in multiset(s) :: multiset(s)[x] == 1
  }

  /** No two keys of `m` hold the same element. */
  ghost predicate Injective<T>(m: map<int, T>)
  {
    forall k1, k2 | k1 in m && k2 in m && m[k1] == m[k2] :: k1 == k2
  }

  /** The elements of `m` whose keys lie in [lo, hi), in ascending key order:
      the order in which a table is read back when a query has no ORDER BY. */
  function InIdOrder<T>(m: map<int, T>, lo: int, hi: int): (r: seq<T>)
    decreases hi - lo
    ensures forall x | x in r :: exists k :: lo <= k < hi && k in m && m[k] == x
    ensures forall k | lo <= k < hi && k in m :: m[k] in r
  {
    if lo >= hi then []
    else
      var rest := InIdOrder(m, lo + 1, hi);
      if lo in m then [m[lo]] + rest else rest
  }

  lemma {:induction false} InIdOrderNoDuplicates<T>(m: map<int, T>, lo: int, hi: int)
    requires Injective(m)
    ensures NoDuplicates(InIdOrder(m, lo, hi))
    decreases hi - lo
  {
    if lo < hi {
      var rest := InIdOrder(m, lo + 1, hi);
      InIdOrderNoDuplicates(m, lo + 1, hi);
      if lo in m {
        assert m[lo] !in rest;
        assert multiset([m[lo]] + rest) == multiset{m[lo]} + multiset(rest);
      }
    }
  }

  /** All elements of a table whose keys are its positive ids below `next`, in id order. */
  function Rows<T(==)>(m: map<int, T>, next: int): (r: seq<T>)
    requires forall k | k in m :: 0 < k < next
    ensures forall x | x in r :: x in m.Values
    ensures forall k | k in m :: m[k] in r
  {
    InIdOrder(m, 1, next)
  }

  /** The rows of a table whose keys hold pairwise different elements are pairwise different. */
  lemma RowsNoDuplicates<T>(m: map<int, T>, next: int)
    requires forall k | k in m :: 0 < k < next
    requires Injective(m)
    ensures NoDuplicates(Rows(m, next))
  {
    InIdOrderNoDuplicates(m, 1, next);
  }

  /** The elements of `s` that satisfy `p`, in their original order. */
  function Filter<T>(s: seq<T>, p: T -> bool): (r: seq<T>)
    ensures |r| <= |s|
    ensures forall x | x in r :: x in s && p(x)
    ensures forall x | x in s && p(x) :: x in r
    ensures forall i | 0 <= i < |r| :: p(r[i])
  {
    if s == [] then []
    else
      var rest := Filter(s[1..], p);
      if p(s[0]) then [s[0]] + rest else rest
  }

  /** Filtering keeps at most the occurrences the input has. */
  lemma {:induction false} FilterSubMultiset<T>(s: seq<T>, p: T -> bool)
    ensures multiset(Filter(s, p)) <= multiset(s)
  {
    if s != [] {
      FilterSubMultiset(s[1..], p);
      assert s == [s[0]] + s[1..];
    }
  }

  lemma FilterNoDuplicates<T>(s: seq<T>, p: T -> bool)
    requires NoDuplicates(s)
    ensures NoDuplicates(Filter(s, p))
  {
    FilterSubMultiset(s, p);
  }

  ghost predicate SortedDesc<T>(s: seq<T>, key: T -> int)
  {
    forall i, j | 0 <= i < j < |s| :: key(s[i]) >= key(s[j])
  }

  /** Inserts `x` before the first element whose key is not larger than its own. */
  function Insert<T>(x: T, s: seq<T>, key: T -> int): (r: seq<T>)
    requires SortedDesc(s, key)
    ensures SortedDesc(r, key)
    ensures multiset(r) == multiset(s) + multiset{x}
    ensures |r| == |s| + 1 && (r[0] == x || (s != [] && r[0] == s[0]))
    ensures forall y | y in r :: y == x || y in s
    ensures x in r && forall y | y in s :: y in r
  {
    if s == [] || key(x) >= key(s[0]) then [x] + s
    else
      var rest := Insert(x, s[1..], key);
      assert s == [s[0]] + s[1..];
      [s[0]] + rest
  }

  /** ORDER BY key DESC: a permutation of `s` whose keys do not increase. */
  function SortDesc<T>(s: seq<T>, key: T -> int): (r: seq<T>)
    ensures SortedDesc(r, key)
    ensures multiset(r) == multiset(s)
    ensures forall x | x in r :: x in s
    ensures forall x | x in s :: x in r
  {
    if s == [] then []
    else
      assert s == [s[0]] + s[1..];
      Insert(s[0], SortDesc(s[1..], key), key)
  }

  /** The page number `page` of `s` cut into pages of `size` elements
      (Spring's PageRequest.of(page, size): skip page * size elements). */
  function Page<T>(s: seq<T>, page: nat, size: nat): (r: seq<T>)
    ensures |r| == if page * size >= |s| then 0 else Min(size, |s| - page * size)
    ensures forall i | 0 <= i < |r| :: page * size + i < |s| && r[i] == s[page * size + i]
    ensures forall x | x in r :: x in s
  {
    var offset := page * size;
    if offset >= |s| then [] else s[offset..Min(|s|, offset + size)]
  }

  /** Page 0 of a sequence that fits in one page is the whole sequence. */
  lemma PageWhole<T>(s: seq<T>, size: nat)
    requires size >= |s|
    ensures Page(s, 0, size) == s
  {
  }

  /** A page of a sorted sequence is sorted. */
  lemma PageOfSorted<T>(s: seq<T>, page: nat, size: nat, key: T -> int)
    requires SortedDesc(s, key)
    ensures SortedDesc(Page(s, page, size), key)
  {
  }
}
