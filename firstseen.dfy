/**
 * First-encounter deduplication, the ordering rule shared by attribute
 * definitions and by index lists.
 */
module FirstSeen {
  import opened Wrappers

  /** No element occurs twice. */
  predicate NoDup<T(==)>(s: seq<T>) {
    forall i, j :: 0 <= i < j < |s| ==> s[i] != s[j]
  }

  /** Position of the first occurrence of x in s. */
  function FirstIndex<T(==)>(s: seq<T>, x: T): (k: nat)
    requires x in s
    ensures k < |s| && s[k] == x && x !in s[..k]
  {
    if s[0] == x then 0 else 1 + FirstIndex(s[1..], x)
  }

  /** s with every element kept only where it first occurs. */
  function Dedup<T(==)>(s: seq<T>): (d: seq<T>)
    ensures NoDup(d)
    ensures forall k :: 0 <= k < |s| ==> s[k] in d
    ensures forall k :: 0 <= k < |d| ==> d[k] in s
    ensures |d| <= |s|
    decreases |s|
  {
    if s == [] then []
    else
      var prefix := Dedup(s[..|s| - 1]);
      if s[|s| - 1] in prefix then prefix else prefix + [s[|s| - 1]]
  }

  /** In a sequence without repetitions, a value sits at one position only. */
  lemma NoDupSamePosition<T>(s: seq<T>, i: nat, j: nat)
    requires NoDup(s) && i < |s| && j < |s| && s[i] == s[j]
    ensures i == j
  {
  }

  lemma FirstIndexUnique<T>(s: seq<T>, x: T, k: nat)
    requires k < |s| && s[k] == x && x !in s[..k]
    ensures FirstIndex(s, x) == k
  {
  }

  lemma FirstIndexExtend<T>(s: seq<T>, y: T, x: T)
    requires x in s
    ensures FirstIndex(s + [y], x) == FirstIndex(s, x)
  {
    var k := FirstIndex(s, x);
    assert (s + [y])[..k] == s[..k];
    FirstIndexUnique(s + [y], x, k);
  }

  /** Dedup keeps the elements in the order of their first occurrence. */
  lemma {:induction false} DedupFirstSeenOrder<T>(s: seq<T>)
    ensures forall i, j :: 0 <= i < j < |Dedup(s)| ==>
              FirstIndex(s, Dedup(s)[i]) < FirstIndex(s, Dedup(s)[j])
    decreases |s|
  {
    if s != [] {
      var p := s[..|s| - 1];
      var last := s[|s| - 1];
      assert s == p + [last];
      DedupFirstSeenOrder(p);
      var d := Dedup(s);
      var dp := Dedup(p);
      forall i, j | 0 <= i < j < |d|
        ensures FirstIndex(s, d[i]) < FirstIndex(s, d[j])
      {
        assert d[i] in dp;
        FirstIndexExtend(p, last, d[i]);
        if j < |dp| {
          FirstIndexExtend(p, last, d[j]);
        } else {
          assert d[j] == last && last !in p;
          assert s[..|p|] == p;
          FirstIndexUnique(s, last, |p|);
        }
      }
    }
  }

  /** A sequence without repetitions is its own deduplication. */
  lemma {:induction false} DedupOfDistinct<T>(s: seq<T>)
    requires NoDup(s)
    ensures Dedup(s) == s
    decreases |s|
  {
    if s != [] {
      var p, last := s[..|s| - 1], s[|s| - 1];
      assert NoDup(p);
      DedupOfDistinct(p);
      assert last !in p;
      assert p + [last] == s;
    }
  }

  /** Deduplicating twice is deduplicating once. */
  lemma DedupIdempotent<T>(s: seq<T>)
    ensures Dedup(Dedup(s)) == Dedup(s)
  {
    DedupOfDistinct(Dedup(s));
  }

  /** The first element of s that occurs again later in s, if any. */
  function FirstRepeated<T(==)>(s: seq<T>): (r: Option<T>)
    ensures r.None? <==> NoDup(s)
    ensures r.Some? ==> exists i, j :: 0 <= i < j < |s| && s[i] == r.value && s[j] == r.value
  {
    if s == [] then None
    else if s[0] in s[1..] then Some(s[0])
    else FirstRepeated(s[1..])
  }

  /** Appending an element already present changes nothing; a new one goes last. */
  lemma DedupSnoc<T>(s: seq<T>, x: T)
    ensures Dedup(s + [x]) == if x in s then Dedup(s) else Dedup(s) + [x]
  {
    assert (s + [x])[..|s|] == s;
  }
}
