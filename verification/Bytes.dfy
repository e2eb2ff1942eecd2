/**
 Byte-string keys of the ordered stores: lexicographic order, the order in which a
 forward or a reverse iterator meets the keys, and the exclusive end of a prefix range.
 */
module Bytes {
  import opened Wrappers

  newtype byte = x: int | 0 <= x < 256
  type Key = seq<byte>

  /** Lexicographic order, a proper prefix coming first. */
  predicate Less(a: seq<byte>, b: seq<byte>)
  {
    |b| > 0 && (|a| == 0 || a[0] < b[0] || (a[0] == b[0] && Less(a[1..], b[1..])))
  }

  lemma {:induction false} LessIrreflexive(a: seq<byte>)
    ensures !Less(a, a)
  {
    if |a| > 0 {
      LessIrreflexive(a[1..]);
    }
  }

  lemma {:induction false} LessTransitive(a: seq<byte>, b: seq<byte>, c: seq<byte>)
    requires Less(a, b) && Less(b, c)
    ensures Less(a, c)
  {
    if |a| > 0 && a[0] == b[0] && b[0] == c[0] {
      LessTransitive(a[1..], b[1..], c[1..]);
    }
  }

  lemma {:induction false} LessTotal(a: seq<byte>, b: seq<byte>)
    ensures a == b || Less(a, b) || Less(b, a)
  {
    if |a| > 0 && |b| > 0 && a[0] == b[0] {
      LessTotal(a[1..], b[1..]);
      assert a == [a[0]] + a[1..] && b == [b[0]] + b[1..];
    }
  }

  /** The order in which an iterator meets two keys. */
  predicate Before(reverse: bool, a: Key, b: Key)
  {
    if reverse then Less(b, a) else Less(a, b)
  }

  lemma BeforeTransitive(reverse: bool, a: Key, b: Key, c: Key)
    requires Before(reverse, a, b) && Before(reverse, b, c)
    ensures Before(reverse, a, c)
  {
    if reverse { LessTransitive(c, b, a); } else { LessTransitive(a, b, c); }
  }

  lemma BeforeAsymmetric(reverse: bool, a: Key, b: Key)
    requires Before(reverse, a, b)
    ensures !Before(reverse, b, a) && a != b
  {
    LessIrreflexive(a);
    if Before(reverse, b, a) {
      BeforeTransitive(reverse, a, b, a);
    }
  }

  /** `f` is met before every other key of `s`. */
  predicate IsFirst(reverse: bool, s: set<Key>, f: Key)
  {
    f in s && forall x :: x in s && x != f ==> Before(reverse, f, x)
  }

  lemma {:induction false} FirstExists(reverse: bool, s: set<Key>)
    requires s != {}
    ensures exists k :: IsFirst(reverse, s, k)
  {
    var k :| k in s;
    var rest := s - {k};
    if rest == {} {
      assert s == {k};
      assert IsFirst(reverse, s, k);
    } else {
      FirstExists(reverse, rest);
      var f :| IsFirst(reverse, rest, f);
      LessTotal(k, f);
      if Before(reverse, k, f) {
        forall x | x in s && x != k ensures Before(reverse, k, x) {
          if x != f {
            assert x in rest;
            BeforeTransitive(reverse, k, f, x);
          }
        }
        assert IsFirst(reverse, s, k);
      } else {
        assert IsFirst(reverse, s, f);
      }
    }
  }

  lemma FirstIsUnique(reverse: bool, s: set<Key>, f: Key, g: Key)
    requires IsFirst(reverse, s, f) && IsFirst(reverse, s, g)
    ensures f == g
  {
    if f != g {
      BeforeAsymmetric(reverse, f, g);
    }
  }

  /** Where an iterator over the keys `s` opens; None when it is not valid. */
  function First(reverse: bool, s: set<Key>): (r: Option<Key>)
    ensures r.None? <==> s == {}
    ensures r.Some? ==> r.value in s && forall x :: x in s && x != r.value ==> Before(reverse, r.value, x)
  {
    if s == {} then None
    else
      FirstExists(reverse, s);
      assert forall f, g :: IsFirst(reverse, s, f) && IsFirst(reverse, s, g) ==> f == g by {
        forall f, g | IsFirst(reverse, s, f) && IsFirst(reverse, s, g) ensures f == g {
          FirstIsUnique(reverse, s, f, g);
        }
      }
      var k :| k in s && IsFirst(reverse, s, k);
      Some(k)
  }

  /** Where an iterator standing at `k` moves: the first of the live keys beyond `k`, which need not be live itself. */
  function Next(reverse: bool, s: set<Key>, k: Key): (r: Option<Key>)
    ensures r.None? <==> forall x :: x in s ==> !Before(reverse, k, x)
    ensures r.Some? ==> r.value in s && Before(reverse, k, r.value)
    ensures r.Some? ==> forall x :: x in s && Before(reverse, k, x) && x != r.value ==> Before(reverse, r.value, x)
  {
    var beyond := set x | x in s && Before(reverse, k, x);
    assert beyond == {} <==> forall x :: x in s ==> !Before(reverse, k, x) by {
      assert forall x :: x in s && Before(reverse, k, x) ==> x in beyond;
    }
    First(reverse, beyond)
  }

  /** The keys `s` in the order an iterator meets them. */
  ghost function Visit(reverse: bool, s: set<Key>): seq<Key>
    decreases |s|
  {
    if s == {} then [] else
      var k := First(reverse, s).value;
      [k] + Visit(reverse, s - {k})
  }

  lemma {:induction false} VisitsOnceInOrder(reverse: bool, s: set<Key>)
    ensures |Visit(reverse, s)| == |s|
    ensures forall k :: k in Visit(reverse, s) <==> k in s
    ensures forall i, j :: 0 <= i < j < |s| ==> Before(reverse, Visit(reverse, s)[i], Visit(reverse, s)[j])
    ensures forall i, j :: 0 <= i < j < |s| ==> Visit(reverse, s)[i] != Visit(reverse, s)[j]
    decreases |s|
  {
    if s != {} {
      var k := First(reverse, s).value;
      var rest := s - {k};
      VisitsOnceInOrder(reverse, rest);
      var v := Visit(reverse, rest);
      var all := [k] + v;
      assert Visit(reverse, s) == all;
      forall i | 0 < i < |all| ensures all[i] in rest && Before(reverse, k, all[i]) && all[i] != k {
        assert all[i] == v[i - 1] && v[i - 1] in v;
      }
    }
  }

  /** The place at which a key is visited. */
  lemma PlaceOf(reverse: bool, s: set<Key>, k: Key) returns (j: nat)
    requires k in s
    ensures j < |Visit(reverse, s)| && Visit(reverse, s)[j] == k
  {
    VisitsOnceInOrder(reverse, s);
    assert k in Visit(reverse, s);
    j :| 0 <= j < |Visit(reverse, s)| && Visit(reverse, s)[j] == k;
  }

  /** A cursor walks through exactly the visiting order. */
  lemma NextVisit(reverse: bool, s: set<Key>, i: nat)
    requires i < |Visit(reverse, s)|
    ensures First(reverse, s) == Some(Visit(reverse, s)[0])
    ensures Next(reverse, s, Visit(reverse, s)[i]) ==
            if i + 1 < |Visit(reverse, s)| then Some(Visit(reverse, s)[i + 1]) else None
  {
    var v := Visit(reverse, s);
    VisitsOnceInOrder(reverse, s);
    assert v[0] in v;
    var n := Next(reverse, s, v[i]);
    if i + 1 < |v| {
      assert v[i + 1] in v && Before(reverse, v[i], v[i + 1]);
    }
    if n.Some? {
      var j := PlaceOf(reverse, s, n.value);
      BeforeAsymmetric(reverse, v[i], v[j]);
      assert j > i;
      if j > i + 1 {
        assert Before(reverse, v[i + 1], v[j]);
        BeforeAsymmetric(reverse, v[i + 1], v[j]);
      }
    }
  }

  /** The half-open key range of an iterator; an absent bound is open. */
  predicate InRange(k: Key, low: Key, high: Option<Key>)
  {
    !Less(k, low) && (high.None? || Less(k, high.value))
  }

  /** PrefixEndBytes: the exclusive end of the range of keys that start with `p`. */
  function PrefixEnd(p: Key): Option<Key>
  {
    if |p| == 0 then None
    else
      var front, last := p[..|p| - 1], p[|p| - 1];
      if last != 255 then Some(front + [last + 1]) else PrefixEnd(front)
  }

  /** The same bound computed from the front of the prefix. */
  lemma {:induction false} PrefixEndFromFront(c: byte, q: Key)
    ensures PrefixEnd([c] + q) ==
            match PrefixEnd(q)
            case Some(e) => Some([c] + e)
            case None => if c != 255 then Some([c + 1]) else None
    decreases |q|
  {
    var p := [c] + q;
    if |q| == 0 {
      assert p == [c] && p[..0] == [];
      assert PrefixEnd(p[..0]) == None;
      if c != 255 { assert p[..0] + [p[0] + 1] == [c + 1]; }
    } else {
      var n := |q|;
      assert p[..n] == [c] + q[..n - 1] && p[n] == q[n - 1];
      if q[n - 1] != 255 {
        assert p[..n] + [p[n] + 1] == [c] + (q[..n - 1] + [q[n - 1] + 1]);
      } else {
        PrefixEndFromFront(c, q[..n - 1]);
        assert PrefixEnd(p) == PrefixEnd(p[..n]);
        assert PrefixEnd(q) == PrefixEnd(q[..n - 1]);
      }
    }
  }

  /** [p, PrefixEnd(p)) is exactly the set of keys starting with p, whatever bytes p ends in. */
  lemma {:induction false} PrefixRangeIsExact(p: Key, k: Key)
    ensures InRange(k, p, PrefixEnd(p)) <==> p <= k
  {
    if |p| > 0 {
      var c, q := p[0], p[1..];
      assert p == [c] + q;
      PrefixEndFromFront(c, q);
      if |k| > 0 {
        PrefixRangeIsExact(q, k[1..]);
        assert k == [k[0]] + k[1..];
        if k[0] == c {
          assert p <= k <==> q <= k[1..];
          var e := PrefixEnd(q);
          if e.Some? {
            assert ([c] + e.value)[1..] == e.value;
          }
        } else {
          assert !(p <= k);
          var e := PrefixEnd(q);
          if e.Some? {
            assert PrefixEnd(p) == Some([c] + e.value);
          } else if c != 255 {
            assert [c + 1][1..] == [];
            assert !Less(k[1..], []);
          }
        }
      }
    }
  }
}
