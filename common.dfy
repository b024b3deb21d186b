/** Small building blocks shared by the server and the guest client:
    optional values, JavaScript truthiness of query/body strings, the
    string operations the code relies on (startsWith, substring, includes,
    toLowerCase), Array.prototype.filter and findIndex, order-preserving
    subsequences, and sums over the keys of a map (for...in, Object.values). */
module Common {

  datatype Option<+T> = None | Some(value: T)

  /** JavaScript truthiness of an optional string field: an absent value
      (undefined, null) and the empty string are falsy, every other string
      is truthy. */
  predicate Truthy(v: Option<string>) {
    v.Some? && v.value != ""
  }

  /** The property names every plain object `{}` inherits from
      Object.prototype. Reading one of them from an object that has no own
      property of that name yields a function (or, for "__proto__",
      Object.prototype itself), which is truthy. */
  const INHERITED_KEYS: set<string> := {
    "constructor", "__defineGetter__", "__defineSetter__", "hasOwnProperty",
    "__lookupGetter__", "__lookupSetter__", "isPrototypeOf", "propertyIsEnumerable",
    "toString", "valueOf", "__proto__", "toLocaleString"}

  /** `if (obj[key])` on a plain object whose own entries are `m` and whose
      values are all objects: an own entry or an inherited member. */
  predicate HasProperty<V>(m: map<string, V>, key: string) {
    key in m || key in INHERITED_KEYS
  }

  /** String.prototype.startsWith */
  predicate StartsWith(s: string, prefix: string) {
    |prefix| <= |s| && s[..|prefix|] == prefix
  }

  /** String.prototype.substring(0, n): the index is clamped to the length. */
  function Prefix(s: string, n: nat): (r: string)
    ensures |r| == if n < |s| then n else |s|
    ensures StartsWith(s, r)
  {
    s[..if n < |s| then n else |s|]
  }

  /** `t` occurs in `s` starting at index `i`. */
  predicate OccursAt(s: string, t: string, i: int) {
    0 <= i && i + |t| <= |s| && s[i..i + |t|] == t
  }

  /** String.prototype.includes, scanning from the left. */
  function Contains(s: string, t: string): bool
    decreases |s|
  {
    StartsWith(s, t) || (|s| > 0 && Contains(s[1..], t))
  }

  /** `includes` holds exactly when `t` occurs somewhere in `s` (the empty
      string occurs everywhere). */
  lemma {:induction false} ContainsIffOccurs(s: string, t: string)
    ensures Contains(s, t) <==> exists i :: OccursAt(s, t, i)
    decreases |s|
  {
    if StartsWith(s, t) {
      assert OccursAt(s, t, 0);
    } else if |s| == 0 {
      assert |t| > 0;
    } else {
      ContainsIffOccurs(s[1..], t);
      if i :| OccursAt(s, t, i) {
        assert i != 0;
        assert s[1..][i - 1..i - 1 + |t|] == s[i..i + |t|];
        assert OccursAt(s[1..], t, i - 1);
      }
      if j :| OccursAt(s[1..], t, j) {
        assert s[1..][j..j + |t|] == s[j + 1..j + 1 + |t|];
        assert OccursAt(s, t, j + 1);
      }
    }
  }

  /** String.prototype.toLowerCase on one character; only the ASCII
      letters 'A'..'Z' are mapped. */
  function LowerChar(c: char): char {
    if 'A' <= c <= 'Z' then (c as int + 32) as char else c
  }

  function Lower(s: string): string {
    seq(|s|, i requires 0 <= i < |s| => LowerChar(s[i]))
  }

  /** Array.prototype.filter: keeps, in order, the elements satisfying `p`. */
  function Filter<T(!new)>(s: seq<T>, p: T -> bool): (r: seq<T>)
    ensures |r| <= |s|
    ensures forall x :: x in r <==> x in s && p(x)
    ensures forall x :: multiset(r)[x] == if p(x) then multiset(s)[x] else 0
    decreases |s|
  {
    if |s| == 0 then []
    else
      assert s == [s[0]] + s[1..];
      if p(s[0]) then [s[0]] + Filter(s[1..], p)
      else Filter(s[1..], p)
  }

  /** `idx` lists, in strictly increasing order, positions of `s` whose
      elements spell out `r`. */
  ghost predicate Embedding<T>(idx: seq<nat>, r: seq<T>, s: seq<T>) {
    && |idx| == |r|
    && (forall i :: 0 <= i < |idx| ==> idx[i] < |s| && r[i] == s[idx[i]])
    && (forall i, j :: 0 <= i < j < |idx| ==> idx[i] < idx[j])
  }

  /** `r` is an order-preserving subsequence of `s`. */
  ghost predicate IsSubsequence<T>(r: seq<T>, s: seq<T>) {
    exists idx :: Embedding(idx, r, s)
  }

  /** Every position moved one step to the right. */
  function Shift(idx: seq<nat>): (r: seq<nat>)
    ensures |r| == |idx| && forall i :: 0 <= i < |idx| ==> r[i] == idx[i] + 1
  {
    seq(|idx|, i requires 0 <= i < |idx| => idx[i] + 1)
  }

  /** An embedding into `s` is one into `[x] + s` once shifted; putting
      position 0 in front also embeds `[x] + r`. */
  lemma EmbeddingCons<T>(idx: seq<nat>, r: seq<T>, s: seq<T>, x: T)
    requires Embedding(idx, r, s)
    ensures Embedding(Shift(idx), r, [x] + s)
    ensures Embedding([0] + Shift(idx), [x] + r, [x] + s)
  {
  }

  /** The positions of `s` that a filter keeps. */
  lemma {:induction false} FilterEmbedding<T(!new)>(s: seq<T>, p: T -> bool) returns (idx: seq<nat>)
    ensures Embedding(idx, Filter(s, p), s)
    decreases |s|
  {
    if |s| == 0 {
      idx := [];
    } else {
      var tail := FilterEmbedding(s[1..], p);
      EmbeddingCons(tail, Filter(s[1..], p), s[1..], s[0]);
      assert [s[0]] + s[1..] == s;
      idx := if p(s[0]) then [0] + Shift(tail) else Shift(tail);
    }
  }

  /** The result of a filter is an order-preserving subsequence of its input. */
  lemma FilterIsSubsequence<T(!new)>(s: seq<T>, p: T -> bool)
    ensures IsSubsequence(Filter(s, p), s)
  {
    var idx := FilterEmbedding(s, p);
  }

  /** Array.prototype.findIndex: the first position satisfying `p`, if any. */
  function FindIndex<T>(s: seq<T>, p: T -> bool): (r: Option<nat>)
    ensures r.Some? ==> r.value < |s| && p(s[r.value])
    ensures r.Some? ==> forall j :: 0 <= j < r.value ==> !p(s[j])
    ensures r.None? <==> forall j :: 0 <= j < |s| ==> !p(s[j])
    decreases |s|
  {
    if |s| == 0 then None
    else if p(s[0]) then Some(0)
    else match FindIndex(s[1..], p)
      case None => None
      case Some(i) => Some(i + 1)
  }

  /** The sum of `m[k]` over the keys `k` in `keys`, taken in no particular
      order (the loops it models visit the keys of an object one by one). */
  ghost function SumOver<K>(m: map<K, int>, keys: set<K>): int
    requires keys <= m.Keys
    decreases keys
  {
    if keys == {} then 0
    else
      var k :| k in keys;
      m[k] + SumOver(m, keys - {k})
  }

  /** Any key may be taken out first: the sum does not depend on the order
      in which the keys are visited. */
  lemma {:induction false} SumOverRemove<K>(m: map<K, int>, keys: set<K>, k: K)
    requires keys <= m.Keys && k in keys
    ensures SumOver(m, keys) == m[k] + SumOver(m, keys - {k})
    decreases keys
  {
    var j :| j in keys && SumOver(m, keys) == m[j] + SumOver(m, keys - {j});
    if j != k {
      SumOverRemove(m, keys - {j}, k);
      SumOverRemove(m, keys - {k}, j);
      assert keys - {j} - {k} == keys - {k} - {j};
    }
  }

  /** Two maps that agree on `keys` have the same sum over `keys`. */
  lemma {:induction false} SumOverAgree<K>(m1: map<K, int>, m2: map<K, int>, keys: set<K>)
    requires keys <= m1.Keys && keys <= m2.Keys
    requires forall k :: k in keys ==> m1[k] == m2[k]
    ensures SumOver(m1, keys) == SumOver(m2, keys)
    decreases keys
  {
    if keys != {} {
      var k :| k in keys;
      SumOverRemove(m1, keys, k);
      SumOverRemove(m2, keys, k);
      SumOverAgree(m1, m2, keys - {k});
    }
  }
}
