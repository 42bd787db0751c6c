/** Small shared vocabulary: optional values, results, and distinctness of sequences. */
module Common {

  /** Rust's `Option`. */
  datatype Option<T> = None | Some(value: T) {
    function GetOr(default: T): T {
      if Some? then value else default
    }
  }

  /** Rust's `Result`; the error side carries the source's own error message or status. */
  datatype Result<T, E> = Ok(value: T) | Err(error: E)

  /** No element occurs twice (a Vec built from the keys of a map has this shape). */
  ghost predicate Distinct<T>(s: seq<T>) {
    forall i, j :: 0 <= i < j < |s| ==> s[i] != s[j]
  }

  function Max(a: int, b: int): int {
    if a >= b then a else b
  }

  function Min(a: int, b: int): int {
    if a <= b then a else b
  }

  /** The elements of a sequence, as a set. */
  ghost function Elems<T>(s: seq<T>): set<T> {
    set x | x in s
  }

  /** Appending an element adds it to the elements. */
  lemma ElemsSnoc<T>(s: seq<T>, x: T)
    ensures Elems(s + [x]) == Elems(s) + {x}
  {
    assert forall y :: y in s + [x] <==> y in s || y == x;
  }

  /** One more element of a prefix is one more element of its set. */
  lemma ElemsPrefix<T>(s: seq<T>, i: nat)
    requires i < |s|
    ensures Elems(s[..i + 1]) == Elems(s[..i]) + {s[i]}
  {
    assert s[..i + 1] == s[..i] + [s[i]];
    ElemsSnoc(s[..i], s[i]);
  }

  /** Removing keys one more at a time is removing the accumulated set. */
  lemma RemoveOneMore<K, V>(m: map<K, V>, done: set<K>, k: K)
    ensures (m - done) - {k} == m - (done + {k})
  {
  }

  /** Removing a present key shrinks a map by exactly one entry. */
  lemma RemoveOneCount<K, V>(m: map<K, V>, k: K)
    requires k in m
    ensures |m - {k}| == |m| - 1
  {
    assert (m - {k}).Keys == m.Keys - {k};
  }

  /** The keys of a map, each once, in no particular order (a HashMap's `keys()` collected). */
  method KeyList<K, V>(m: map<K, V>) returns (ks: seq<K>)
    ensures |ks| == |m|
    ensures Distinct(ks)
    ensures forall k :: k in ks <==> k in m
  {
    ks := [];
    var todo := m.Keys;
    while todo != {}
      invariant todo <= m.Keys
      invariant |ks| + |todo| == |m|
      invariant forall i :: 0 <= i < |ks| ==> ks[i] in m && ks[i] !in todo
      invariant Distinct(ks)
      invariant forall k :: k in m && k !in todo ==> k in ks
      decreases todo
    {
      var k :| k in todo;
      ks := ks + [k];
      todo := todo - {k};
    }
  }
}
