/**
  Meta, the metadata a manager passes to every upload: a map whose keys are
  stored lower-cased by Add and looked up lower-cased by Remove.
*/
module Metadata {

  /** unicode.ToLower on one character, for the ASCII letters only. */
  function LowerChar(c: char): char {
    if 'A' <= c <= 'Z' then (c as int - 'A' as int + 'a' as int) as char else c
  }

  /** strings.ToLower: every character lowered, the length kept. */
  function ToLower(s: string): (r: string)
    ensures |r| == |s|
    ensures forall i :: 0 <= i < |s| ==> r[i] == LowerChar(s[i])
  {
    if s == [] then [] else [LowerChar(s[0])] + ToLower(s[1..])
  }

  /** A string with no upper-case ASCII letter. */
  predicate IsLower(s: string) {
    forall i :: 0 <= i < |s| ==> !('A' <= s[i] <= 'Z')
  }

  /** Lowering leaves no upper-case letter, and a lowered string lowers to itself. */
  lemma ToLowerIsLower(s: string)
    ensures IsLower(ToLower(s))
    ensures ToLower(ToLower(s)) == ToLower(s)
    ensures IsLower(s) <==> ToLower(s) == s
  {
    var r := ToLower(s);
    assert forall i :: 0 <= i < |s| ==> ToLower(r)[i] == r[i];
    if IsLower(s) {
      assert forall i :: 0 <= i < |s| ==> r[i] == s[i];
    }
  }

  /** The map Add leaves behind: value stored under the lower-cased key. */
  function Added<V>(m: map<string, V>, key: string, value: V): map<string, V> {
    m[ToLower(key) := value]
  }

  /** The map Remove leaves behind: the lower-cased key gone. */
  function Removed<V>(m: map<string, V>, key: string): map<string, V> {
    m - {ToLower(key)}
  }

  /** All keys of m are lower-case, as they are when only Add has written m. */
  ghost predicate KeysLowerCase<V>(m: map<string, V>) {
    forall k :: k in m ==> IsLower(k)
  }

  class Meta<V> {
    var entries: map<string, V>

    /** Meta{}: no entries. */
    constructor ()
      ensures entries == map[]
    {
      entries := map[];
    }

    /** has: whether key is stored, exactly as given (no lowering). */
    function Has(key: string): (present: bool)
      reads this
      ensures present <==> key in entries
    {
      key in entries
    }

    /** Add stores value under the lower-cased key, replacing any earlier value. */
    method Add(key: string, value: V)
      modifies this
      ensures entries == Added(old(entries), key, value)
      ensures KeysLowerCase(old(entries)) ==> KeysLowerCase(entries)
    {
      var k := ToLower(key);
      entries := entries[k := value];
      ToLowerIsLower(key);
    }

    /** Remove deletes the lower-cased key when it is stored, and does nothing otherwise. */
    method Remove(key: string)
      modifies this
      ensures entries == Removed(old(entries), key)
      ensures KeysLowerCase(old(entries)) ==> KeysLowerCase(entries)
    {
      var k := ToLower(key);
      if Has(k) {
        entries := entries - {k};
      }
    }
  }

  /**
    After Add(key, value) the value sits under the lower-cased key and every
    other key keeps its presence and value.
  */
  lemma AddOverwrites<V>(m: map<string, V>, key: string, value: V)
    ensures ToLower(key) in Added(m, key, value) && Added(m, key, value)[ToLower(key)] == value
    ensures forall k :: k != ToLower(key) ==> (k in Added(m, key, value) <==> k in m)
    ensures forall k :: k != ToLower(key) && k in m ==> Added(m, key, value)[k] == m[k]
  {
  }

  /** Add keeps every key lower-case. */
  lemma AddKeepsKeysLowerCase<V>(m: map<string, V>, key: string, value: V)
    requires KeysLowerCase(m)
    ensures KeysLowerCase(Added(m, key, value))
  {
    ToLowerIsLower(key);
  }

  /**
    After Remove(key) the lower-cased key is gone and every other key keeps
    its presence and value; with the key absent, Remove changes nothing.
  */
  lemma RemoveDeletes<V>(m: map<string, V>, key: string)
    ensures ToLower(key) !in Removed(m, key)
    ensures forall k :: k != ToLower(key) ==> (k in Removed(m, key) <==> k in m)
    ensures forall k :: k in Removed(m, key) ==> Removed(m, key)[k] == m[k]
    ensures ToLower(key) !in m ==> Removed(m, key) == m
  {
  }

  /** Removing a key twice is removing it once. */
  lemma RemoveIsIdempotent<V>(m: map<string, V>, key: string)
    ensures Removed(Removed(m, key), key) == Removed(m, key)
  {
  }

  /**
    Remove undoes Add for any spelling of the key that lowers alike: what is
    left is the original map without that key.
  */
  lemma RemoveUndoesAdd<V>(m: map<string, V>, added: string, removed: string, value: V)
    requires ToLower(added) == ToLower(removed)
    ensures Removed(Added(m, added, value), removed) == Removed(m, added)
    ensures ToLower(added) !in Removed(Added(m, added, value), removed)
  {
  }

  /** Add("Foo", v) followed by Remove("FOO") leaves no "foo" key. */
  lemma AddFooRemoveUpperFoo<V>(m: map<string, V>, value: V)
    ensures "foo" !in Removed(Added(m, "Foo", value), "FOO")
    ensures "foo" in Added(m, "Foo", value) && "Foo" !in Added(map[], "Foo", value)
  {
    assert ToLower("Foo") == "foo";
    assert ToLower("FOO") == "foo";
  }
}
