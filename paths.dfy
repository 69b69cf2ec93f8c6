/**
  The two path operations of Go's path/filepath that the uploader relies on,
  Base and Ext, for paths whose only separator is '/'.
*/
module Paths {

  const Separator: char := '/'

  /** p with every trailing separator removed. */
  function TrimTrailingSeparators(p: string): (q: string)
    ensures |q| <= |p| && q == p[..|q|]
    ensures forall i :: |q| <= i < |p| ==> p[i] == Separator
    ensures q == [] || q[|q| - 1] != Separator
  {
    if p == [] || p[|p| - 1] != Separator then p
    else TrimTrailingSeparators(p[..|p| - 1])
  }

  /** The longest suffix of q that holds no separator. */
  function LastElement(q: string): (s: string)
    ensures |s| <= |q| && s == q[|q| - |s|..]
    ensures forall i :: 0 <= i < |s| ==> s[i] != Separator
    ensures |s| == |q| || q[|q| - |s| - 1] == Separator
  {
    if q == [] || q[|q| - 1] == Separator then []
    else LastElement(q[..|q| - 1]) + [q[|q| - 1]]
  }

  /**
    filepath.Base: the last element of p once trailing separators are
    dropped; "." for the empty path and "/" for a path of separators only.
  */
  function Base(p: string): (b: string)
    ensures b != []
    ensures p == [] ==> b == "."
    ensures b == [Separator] || forall i :: 0 <= i < |b| ==> b[i] != Separator
    ensures p != [] ==> (b == [Separator] <==> forall i :: 0 <= i < |p| ==> p[i] == Separator)
    ensures p != [] && b != [Separator] ==> b == LastElement(TrimTrailingSeparators(p))
  {
    if p == [] then "."
    else
      var q := TrimTrailingSeparators(p);
      if q == [] then [Separator]
      else
        assert q[|q| - 1] == p[|q| - 1] != Separator;
        LastElement(q)
  }

  /**
    filepath.Ext: the suffix of p that starts at the final '.' of its last
    element, or "" when that element holds no '.'.
  */
  function Ext(p: string): (e: string)
    ensures |e| <= |p| && e == p[|p| - |e|..]
    ensures e == [] || e[0] == '.'
    ensures forall i :: 1 <= i < |e| ==> e[i] != '.' && e[i] != Separator
    ensures e == [] ==> forall i :: 0 <= i < |p| && p[i] == '.' ==> Separator in p[i + 1..]
  {
    if p == [] || p[|p| - 1] == Separator then []
    else if p[|p| - 1] == '.' then "."
    else
      var e := Ext(p[..|p| - 1]);
      if e == [] then [] else e + [p[|p| - 1]]
  }

  /** strings.TrimPrefix(filepath.Ext(p), "."): the extension without its dot. */
  function Extension(p: string): (x: string)
    ensures |x| <= |p| && x == p[|p| - |x|..]
    ensures forall i :: 0 <= i < |x| ==> x[i] != '.' && x[i] != Separator
  {
    var e := Ext(p);
    if e != [] then e[1..] else e
  }

  /** No suffix of q free of separators is longer than LastElement(q). */
  lemma LastElementIsLongest(q: string, n: nat)
    requires n <= |q|
    requires forall i :: |q| - n <= i < |q| ==> q[i] != Separator
    ensures n <= |LastElement(q)|
  {
  }

  /** A single element is its own base name, whatever separators trail it. */
  lemma BaseOfName(name: string, trailing: nat)
    requires name != []
    requires forall i :: 0 <= i < |name| ==> name[i] != Separator
    ensures Base(name + seq(trailing, _ => Separator)) == name
  {
    var p := name + seq(trailing, _ => Separator);
    assert p[..|name|] == name;
    assert TrimTrailingSeparators(p) == name by {
      TrimToPrefix(p, |name|);
    }
    LastElementIsLongest(name, |name|);
  }

  /** Trimming a path whose last n characters are separators, and no more, leaves the rest. */
  lemma {:induction false} TrimToPrefix(p: string, k: nat)
    requires 0 < k <= |p| && p[k - 1] != Separator
    requires forall i :: k <= i < |p| ==> p[i] == Separator
    ensures TrimTrailingSeparators(p) == p[..k]
  {
    if k < |p| {
      TrimToPrefix(p[..|p| - 1], k);
      assert p[..|p| - 1][..k] == p[..k];
    } else {
      assert p[..k] == p;
    }
  }

  /** The base name of a path is its final element, whatever directories precede it. */
  lemma BaseOfEntry(dir: string, name: string)
    requires name != []
    requires forall i :: 0 <= i < |name| ==> name[i] != Separator
    ensures Base(dir + [Separator] + name) == name
  {
    var p := dir + [Separator] + name;
    assert TrimTrailingSeparators(p) == p;
    LastElementIsLongest(p, |name|);
    var s := LastElement(p);
    assert p[|p| - |name| - 1] == Separator;
    assert |s| == |name|;
    assert s == p[|p| - |name|..] == name;
  }

  /** Of two suffixes of one string, the shorter is a suffix of the longer. */
  lemma SuffixOfSuffix(p: string, long: string, short: string)
    requires |short| <= |long| <= |p|
    requires long == p[|p| - |long|..] && short == p[|p| - |short|..]
    ensures long[|long| - |short|..] == short
  {
    forall i | 0 <= i < |short| ensures long[|long| - |short|..][i] == short[i] {
      assert long[|long| - |short| + i] == p[|p| - |short| + i];
    }
  }

  /** Ext(p) lies within the last element of p. */
  lemma ExtInLastElement(p: string)
    ensures |Ext(p)| <= |LastElement(p)|
    ensures LastElement(p)[|LastElement(p)| - |Ext(p)|..] == Ext(p)
  {
    var e := Ext(p);
    forall i | |p| - |e| <= i < |p| ensures p[i] != Separator {
      assert p[i] == e[i - (|p| - |e|)];
    }
    LastElementIsLongest(p, |e|);
    SuffixOfSuffix(p, LastElement(p), e);
  }

  /**
    For a path that does not end in a separator, the extension is the text
    after the last '.' of the base name.
  */
  lemma ExtensionOfBase(p: string)
    requires p != [] && p[|p| - 1] != Separator
    ensures |Extension(p)| < |Base(p)|
    ensures Base(p)[|Base(p)| - |Extension(p)|..] == Extension(p)
    ensures Ext(p) != [] ==> Base(p)[|Base(p)| - |Extension(p)| - 1] == '.'
  {
    assert TrimTrailingSeparators(p) == p;
    var b, e, x := Base(p), Ext(p), Extension(p);
    assert b == LastElement(p);
    ExtInLastElement(p);
    if e != [] {
      assert x == e[1..];
      assert b[|b| - |x| - 1] == b[|b| - |e|..][0] == e[0];
      SuffixOfSuffix(b, e, x);
    }
  }

  /**
    When the last n characters of p hold neither '.' nor a separator and a
    '.' precedes them, Ext gives that '.' and those n characters.
  */
  lemma {:induction false} ExtAfterDot(p: string, n: nat)
    requires n < |p| && p[|p| - n - 1] == '.'
    requires forall i :: |p| - n <= i < |p| ==> p[i] != '.' && p[i] != Separator
    ensures Ext(p) == p[|p| - n - 1..]
  {
    if n > 0 {
      var q := p[..|p| - 1];
      ExtAfterDot(q, n - 1);
      assert q[|q| - n..] + [p[|p| - 1]] == p[|p| - n - 1..];
    }
  }

  /** In the same case the extension without its dot is those n characters. */
  lemma ExtensionAfterDot(p: string, n: nat)
    requires n < |p| && p[|p| - n - 1] == '.'
    requires forall i :: |p| - n <= i < |p| ==> p[i] != '.' && p[i] != Separator
    ensures Extension(p) == p[|p| - n..]
  {
    ExtAfterDot(p, n);
    assert p[|p| - n - 1..][1..] == p[|p| - n..];
  }
}
