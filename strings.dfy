/** String behaviour of the Rust standard library that the client relies on:
    the ordering of `String` (which orders every `BTreeMap` key), `str::contains`
    and `str::split` on a single character. */
module Strings {

  import opened Wrappers

  /** Rust's `Ord` for `String`: lexicographic on the characters (UTF-8 byte
      order coincides with code-point order), a proper prefix is smaller. */
  predicate LexLess(a: string, b: string)
    decreases |a|
  {
    if a == [] then b != []
    else if b == [] then false
    else if a[0] != b[0] then a[0] < b[0]
    else LexLess(a[1..], b[1..])
  }

  lemma {:induction false} LexLessIrreflexive(a: string)
    ensures !LexLess(a, a)
    decreases |a|
  {
    if a != [] { LexLessIrreflexive(a[1..]); }
  }

  lemma {:induction false} LexLessTransitive(a: string, b: string, c: string)
    requires LexLess(a, b) && LexLess(b, c)
    ensures LexLess(a, c)
    decreases |a|
  {
    if a != [] && b != [] && c != [] && a[0] == b[0] && b[0] == c[0] {
      LexLessTransitive(a[1..], b[1..], c[1..]);
    }
  }

  lemma {:induction false} LexLessTotal(a: string, b: string)
    ensures a == b || LexLess(a, b) || LexLess(b, a)
    decreases |a|
  {
    if a != [] && b != [] && a[0] == b[0] {
      LexLessTotal(a[1..], b[1..]);
      if a[1..] == b[1..] {
        assert a == [a[0]] + a[1..] && b == [b[0]] + b[1..];
      }
    }
  }

  /** `haystack.contains(needle)` for a string needle. */
  predicate Contains(haystack: string, needle: string)
    decreases |haystack|
  {
    |needle| <= |haystack| &&
    (haystack[..|needle|] == needle || Contains(haystack[1..], needle))
  }

  /** The needle occurs in the haystack at offset `i`. */
  predicate OccursAt(haystack: string, needle: string, i: int) {
    0 <= i && i + |needle| <= |haystack| && haystack[i..i + |needle|] == needle
  }

  /** The reference meaning of `Contains`: the needle occurs at some offset. */
  lemma {:induction false} ContainsMeansOccurs(haystack: string, needle: string)
    ensures Contains(haystack, needle) <==> exists i :: OccursAt(haystack, needle, i)
    decreases |haystack|
  {
    if |needle| <= |haystack| {
      if haystack[..|needle|] == needle {
        assert OccursAt(haystack, needle, 0);
      } else {
        var tail := haystack[1..];
        ContainsMeansOccurs(tail, needle);
        forall i | OccursAt(haystack, needle, i) ensures OccursAt(tail, needle, i - 1) {
          assert i != 0;
          assert tail[i - 1..i - 1 + |needle|] == haystack[i..i + |needle|];
        }
        forall j | OccursAt(tail, needle, j) ensures OccursAt(haystack, needle, j + 1) {
          assert tail[j..j + |needle|] == haystack[j + 1..j + 1 + |needle|];
        }
      }
    }
  }

  /** Every character of a needle found in a haystack occurs in the haystack. */
  lemma ContainsChar(haystack: string, needle: string, c: char)
    requires Contains(haystack, needle) && c in needle
    ensures c in haystack
  {
    ContainsMeansOccurs(haystack, needle);
    var i :| OccursAt(haystack, needle, i);
    var k :| 0 <= k < |needle| && needle[k] == c;
    assert haystack[i + k] == haystack[i..i + |needle|][k];
  }

  /** `s.split(c)` collected into a vector: the pieces between occurrences of
      `c`, always at least one (the empty string splits into one empty piece). */
  function Split(s: string, c: char): (pieces: seq<string>)
    ensures |pieces| >= 1
    ensures forall k :: 0 <= k < |pieces| ==> c !in pieces[k]
    decreases |s|
  {
    if s == [] then [""]
    else if s[0] == c then [""] + Split(s[1..], c)
    else
      var rest := Split(s[1..], c);
      [[s[0]] + rest[0]] + rest[1..]
  }

  /** A string without the separator splits into itself alone. */
  lemma {:induction false} SplitWithoutSeparator(s: string, c: char)
    requires c !in s
    ensures Split(s, c) == [s]
    decreases |s|
  {
    if s != [] {
      assert c !in s[1..];
      SplitWithoutSeparator(s[1..], c);
      assert [s[0]] + s[1..] == s;
    }
  }

  /** A piece free of the separator, then the separator, splits off that piece. */
  lemma {:induction false} SplitAfterPiece(p: string, rest: string, c: char)
    requires c !in p
    ensures Split(p + [c] + rest, c) == [p] + Split(rest, c)
    decreases |p|
  {
    var s := p + [c] + rest;
    if p == [] {
      assert s[1..] == rest;
    } else {
      assert c !in p[1..];
      SplitAfterPiece(p[1..], rest, c);
      assert s[0] == p[0] && s[1..] == p[1..] + [c] + rest;
      assert [p[0]] + p[1..] == p;
    }
  }

  /** `pieces.join(c)`: the inverse of `Split`. */
  function Join(pieces: seq<string>, c: char): string
    requires |pieces| >= 1
    decreases |pieces|
  {
    if |pieces| == 1 then pieces[0] else pieces[0] + [c] + Join(pieces[1..], c)
  }

  lemma {:induction false} JoinSplit(s: string, c: char)
    ensures Join(Split(s, c), c) == s
    decreases |s|
  {
    if s != [] {
      JoinSplit(s[1..], c);
      var rest := Split(s[1..], c);
      if s[0] != c {
        var pieces := [[s[0]] + rest[0]] + rest[1..];
        assert pieces[1..] == rest[1..];
        if |rest| == 1 {
          assert s == [s[0]] + s[1..];
        } else {
          assert Join(rest, c) == rest[0] + [c] + Join(rest[1..], c);
          assert s == [s[0]] + s[1..];
        }
      } else {
        assert ([""] + rest)[1..] == rest;
        assert s == [s[0]] + s[1..];
      }
    }
  }

  lemma {:induction false} SplitJoin(pieces: seq<string>, c: char)
    requires |pieces| >= 1
    requires forall k :: 0 <= k < |pieces| ==> c !in pieces[k]
    ensures Split(Join(pieces, c), c) == pieces
    decreases |pieces|, |pieces[0]|
  {
    var p := pieces[0];
    if p == [] {
      if |pieces| > 1 {
        SplitJoin(pieces[1..], c);
        var s := Join(pieces, c);
        assert s == [c] + Join(pieces[1..], c);
        assert s[1..] == Join(pieces[1..], c);
        assert [""] + pieces[1..] == pieces;
      }
    } else {
      var tail := [p[1..]] + pieces[1..];
      assert tail[1..] == pieces[1..];
      assert forall k :: 0 <= k < |tail| ==> c !in tail[k];
      SplitJoin(tail, c);
      var s := Join(pieces, c);
      if |pieces| == 1 {
        assert s == [p[0]] + Join(tail, c);
      } else {
        assert Join(tail, c) == p[1..] + [c] + Join(pieces[1..], c);
        assert s == [p[0]] + Join(tail, c);
      }
      assert s[0] == p[0] && s[1..] == Join(tail, c);
      assert [p[0]] + p[1..] == p;
      assert [[s[0]] + tail[0]] + tail[1..] == pieces;
    }
  }

  /** A `BTreeMap<String, String>`, represented by what iterating it yields:
      its entries in ascending key order (so the keys are distinct). */
  predicate KeysAscending(entries: seq<(string, string)>) {
    forall i, j :: 0 <= i < j < |entries| ==> LexLess(entries[i].0, entries[j].0)
  }

  type StringMap = entries: seq<(string, string)> | KeysAscending(entries)

  /** `map.get(key)`. */
  function Get(entries: seq<(string, string)>, key: string): (r: Option<string>)
    ensures r.Some? <==> exists i :: 0 <= i < |entries| && entries[i].0 == key
    ensures r.Some? ==> exists i :: 0 <= i < |entries| && entries[i] == (key, r.value)
    decreases |entries|
  {
    if entries == [] then None
    else if entries[0].0 == key then Some(entries[0].1)
    else Get(entries[1..], key)
  }

  /** In a `BTreeMap` a key has one entry, so `get` yields exactly that entry's value. */
  lemma {:induction false} GetUnique(entries: StringMap, i: nat)
    requires i < |entries|
    ensures Get(entries, entries[i].0) == Some(entries[i].1)
  {
    var key := entries[i].0;
    var r := Get(entries, key);
    assert r.Some?;
    var j :| 0 <= j < |entries| && entries[j] == (key, r.value);
    if j != i {
      if j < i { assert LexLess(entries[j].0, entries[i].0); }
      else { assert LexLess(entries[i].0, entries[j].0); }
      LexLessIrreflexive(key);
    }
  }

}
