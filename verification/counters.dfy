/** Python's `collections.Counter` as the opponents use it: `c[k] += 1`,
    truthiness, and `most_common(1)`. A dict remembers the order in which
    keys were first inserted and `most_common(1)` returns the first key of
    maximal count in that order, so the model keeps that order explicitly. */
module Counters {
  import Rules

  /** `keys` lists the counted keys in first-insertion order; `counts` holds
      their counts. */
  datatype Counter<K> = Counter(keys: seq<K>, counts: map<K, nat>)

  /** The shape every reachable counter has: each key listed once, exactly
      the keys of `counts`, and no zero count (counts only ever grow from 1). */
  predicate Valid<K>(c: Counter<K>)
  {
    && Rules.Distinct(c.keys)
    && (forall i :: 0 <= i < |c.keys| ==> c.keys[i] in c.counts)
    && (forall k :: k in c.counts ==> k in c.keys && c.counts[k] >= 1)
  }

  /** `Counter()` */
  function Empty<K(!new)>(): (c: Counter<K>)
    ensures Valid(c)
    ensures forall k :: Count(c, k) == 0
  {
    Counter([], map[])
  }

  /** `c[k]`: a missing key reads as zero. */
  function Count<K>(c: Counter<K>, k: K): nat
  {
    if k in c.counts then c.counts[k] else 0
  }

  /** A counter is truthy exactly when it holds some key. */
  predicate IsEmpty<K>(c: Counter<K>)
  {
    |c.keys| == 0
  }

  /** `c[k] += 1`: `k` gains one, every other key keeps its count, and a new
      key goes to the end of the insertion order. */
  function Incr<K(!new)>(c: Counter<K>, k: K): (r: Counter<K>)
    requires Valid(c)
    ensures Valid(r)
    ensures Count(r, k) == Count(c, k) + 1
    ensures forall x :: x != k ==> Count(r, x) == Count(c, x)
    ensures r.keys == if k in c.counts then c.keys else c.keys + [k]
  {
    if k in c.counts then Counter(c.keys, c.counts[k := c.counts[k] + 1])
    else Counter(c.keys + [k], c.counts[k := 1])
  }

  /** For a valid counter, being empty is the same as every count being zero. */
  lemma EmptyIffAllZero<K(!new)>(c: Counter<K>)
    requires Valid(c)
    ensures IsEmpty(c) <==> forall k :: Count(c, k) == 0
  {
    if !IsEmpty(c) {
      assert Count(c, c.keys[0]) >= 1;
    }
  }

  /** The index `max` returns when scanning `keys` left to right by count:
      a maximal count, and strictly above every count before it (ties go to
      the earlier key). */
  function FirstMax<K>(keys: seq<K>, counts: map<K, nat>): (i: nat)
    requires |keys| > 0
    requires forall j :: 0 <= j < |keys| ==> keys[j] in counts
    ensures i < |keys|
    ensures forall j :: 0 <= j < |keys| ==> counts[keys[j]] <= counts[keys[i]]
    ensures forall j :: 0 <= j < i ==> counts[keys[j]] < counts[keys[i]]
  {
    if |keys| == 1 then 0
    else
      var i := FirstMax(keys[..|keys| - 1], counts);
      if counts[keys[|keys| - 1]] > counts[keys[i]] then |keys| - 1 else i
  }

  /** `c.most_common(1)[0][0]`: a key of maximal count, the first such in
      insertion order. */
  function MostCommon<K(!new)>(c: Counter<K>): (k: K)
    requires Valid(c) && !IsEmpty(c)
    ensures k in c.counts
    ensures forall x :: Count(c, x) <= Count(c, k)
    ensures exists i :: 0 <= i < |c.keys| && c.keys[i] == k &&
              forall j :: 0 <= j < i ==> Count(c, c.keys[j]) < Count(c, k)
  {
    var i := FirstMax(c.keys, c.counts);
    assert forall x :: x in c.counts ==> exists j :: 0 <= j < |c.keys| && c.keys[j] == x;
    c.keys[i]
  }

  /** When one key's count is strictly larger than every other key's, it is
      the most common one. */
  lemma MostCommonUnique<K(!new)>(c: Counter<K>, k: K)
    requires Valid(c) && !IsEmpty(c)
    requires forall x :: x != k ==> Count(c, x) < Count(c, k)
    ensures MostCommon(c) == k
  {
  }
}
