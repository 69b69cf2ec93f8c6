/** The generic slice and map helpers: Map, Filter and ExtractFromMap. */
module Utils {

  /** Map: a slice of the same length with fn applied to each element, in order. */
  method Map<T, V>(data: seq<T>, fn: T -> V) returns (result: seq<V>)
    ensures |result| == |data|
    ensures forall i :: 0 <= i < |data| ==> result[i] == fn(data[i])
  {
    result := [];
    for i := 0 to |data|
      invariant |result| == i
      invariant forall j :: 0 <= j < i ==> result[j] == fn(data[j])
    {
      result := result + [fn(data[i])];
    }
  }

  /** The elements of data that satisfy fn, in their order, built as Filter builds it. */
  function Filtered<T>(data: seq<T>, fn: T -> bool): seq<T> {
    if data == [] then []
    else
      var last := data[|data| - 1];
      Filtered(data[..|data| - 1], fn) + if fn(last) then [last] else []
  }

  /** Filter: appends, in order, each element of data that satisfies fn. */
  method Filter<T>(data: seq<T>, fn: T -> bool) returns (result: seq<T>)
    ensures result == Filtered(data, fn)
  {
    result := [];
    for i := 0 to |data|
      invariant result == Filtered(data[..i], fn)
    {
      assert data[..i + 1][..i] == data[..i];
      if fn(data[i]) {
        result := result + [data[i]];
      }
    }
    assert data[..|data|] == data;
  }

  /** a occurs in b in order, possibly with other elements of b in between. */
  ghost predicate IsSubsequence<T>(a: seq<T>, b: seq<T>)
    decreases |b|
  {
    a == [] ||
    (b != [] &&
     ((a[|a| - 1] == b[|b| - 1] && IsSubsequence(a[..|a| - 1], b[..|b| - 1])) ||
      IsSubsequence(a, b[..|b| - 1])))
  }

  /** What Filter returns is a subsequence of its input. */
  lemma {:induction false} FilteredIsSubsequence<T>(data: seq<T>, fn: T -> bool)
    ensures IsSubsequence(Filtered(data, fn), data)
  {
    if data != [] {
      var init, last := data[..|data| - 1], data[|data| - 1];
      FilteredIsSubsequence(init, fn);
      var r := Filtered(data, fn);
      if fn(last) {
        assert r[..|r| - 1] == Filtered(init, fn);
      } else {
        assert r == Filtered(init, fn);
        SubsequenceOfPrefix(r, init, last);
      }
    }
  }

  /** A subsequence of a prefix of b is a subsequence of b. */
  lemma {:induction false} SubsequenceOfPrefix<T>(a: seq<T>, init: seq<T>, last: T)
    requires IsSubsequence(a, init)
    ensures IsSubsequence(a, init + [last])
  {
    var b := init + [last];
    assert b[..|b| - 1] == init;
  }

  /**
    What Filter returns is no longer than its input and holds only elements
    that satisfy fn.
  */
  lemma {:induction false} FilteredSatisfies<T>(data: seq<T>, fn: T -> bool)
    ensures |Filtered(data, fn)| <= |data|
    ensures forall x :: x in Filtered(data, fn) ==> fn(x)
  {
    if data != [] {
      FilteredSatisfies(data[..|data| - 1], fn);
    }
  }

  /**
    Filter keeps every element that satisfies fn as often as it occurs in
    data, and no other element.
  */
  lemma {:induction false} FilteredCounts<T>(data: seq<T>, fn: T -> bool)
    ensures forall x :: multiset(Filtered(data, fn))[x] == if fn(x) then multiset(data)[x] else 0
  {
    if data != [] {
      var init, last := data[..|data| - 1], data[|data| - 1];
      FilteredCounts(init, fn);
      assert data == init + [last];
    }
  }

  /** Filtering twice with the same predicate is filtering once. */
  lemma {:induction false} FilteredIsIdempotent<T>(data: seq<T>, fn: T -> bool)
    ensures Filtered(Filtered(data, fn), fn) == Filtered(data, fn)
  {
    if data != [] {
      var init, last := data[..|data| - 1], data[|data| - 1];
      FilteredIsIdempotent(init, fn);
      var r := Filtered(data, fn);
      if fn(last) {
        assert r[..|r| - 1] == Filtered(init, fn);
        assert Filtered(r, fn) == Filtered(Filtered(init, fn), fn) + [last];
      } else {
        assert r == Filtered(init, fn);
      }
    }
  }

  /** A Go map value: a reference that several holders can share and update. */
  class MapRef<K(==), V> {
    var contents: map<K, V>

    constructor (contents: map<K, V>)
      ensures this.contents == contents
    {
      this.contents := contents;
    }
  }

  /** The entries of data whose values satisfy fn. */
  function Selected<K, V>(data: map<K, V>, fn: V -> bool): map<K, V> {
    map k | k in data && fn(data[k]) :: data[k]
  }

  /** prior after every selected entry of data has been written into it. */
  function Extracted<K, V>(prior: map<K, V>, data: map<K, V>, fn: V -> bool): map<K, V> {
    prior + Selected(data, fn)
  }

  /**
    After the extraction every selected key of data holds its value from
    data, every other key of prior keeps its value, and no key is lost.
  */
  lemma ExtractedContents<K, V>(prior: map<K, V>, data: map<K, V>, fn: V -> bool)
    ensures forall k :: k in data && fn(data[k]) ==> k in Extracted(prior, data, fn) && Extracted(prior, data, fn)[k] == data[k]
    ensures forall k :: k in prior && !(k in data && fn(data[k])) ==> Extracted(prior, data, fn)[k] == prior[k]
    ensures Extracted(prior, data, fn).Keys == prior.Keys + Selected(data, fn).Keys
  {
  }

  /** Extracting from a map into itself changes nothing. */
  lemma ExtractedFromSelf<K, V>(m: map<K, V>, fn: V -> bool)
    ensures Extracted(m, m, fn) == m
  {
  }

  /** One more entry of data handled: written when selected, skipped otherwise. */
  lemma ExtractedStep<K, V>(prior: map<K, V>, done: map<K, V>, k: K, v: V, fn: V -> bool)
    requires k !in done
    ensures Extracted(prior, done[k := v], fn) == if fn(v) then Extracted(prior, done, fn)[k := v] else Extracted(prior, done, fn)
  {
    if !fn(v) {
      assert Selected(done[k := v], fn) == Selected(done, fn);
    } else {
      assert Selected(done[k := v], fn) == Selected(done, fn)[k := v];
    }
  }

  /**
    ExtractFromMap: writes into result every entry of data whose value
    satisfies fn. data is left as it was, also when it is result itself.
  */
  method ExtractFromMap<K(==), V>(data: MapRef<K, V>, result: MapRef<K, V>, fn: V -> bool)
    modifies result
    ensures data.contents == old(data.contents)
    ensures result.contents == Extracted(old(result.contents), old(data.contents), fn)
  {
    ghost var source, prior := data.contents, result.contents;
    var pending := data.contents.Keys;
    while pending != {}
      invariant pending <= source.Keys
      invariant data.contents == source
      invariant result.contents == Extracted(prior, source - pending, fn)
      decreases pending
    {
      var k :| k in pending;
      var v := data.contents[k];
      ExtractedStep(prior, source - pending, k, v, fn);
      assert (source - pending)[k := v] == source - (pending - {k});
      if fn(v) {
        if data == result {
          assert result.contents[k := v] == result.contents;
        }
        result.contents := result.contents[k := v];
      }
      pending := pending - {k};
    }
    assert source - {} == source;
  }
}
