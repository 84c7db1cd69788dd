/**
  The keys of the bolt appraisal store (bolt/appraisal_db.go): an
  appraisal's database ID is its numeric ID as 8 big-endian bytes, so the
  byte-wise key order of bolt's cursors is the numeric order of the IDs.
  This module holds the byte encoding, the byte-wise order (`bytes.Compare`)
  and the enumeration of a key set from the largest key down, which is what
  a cursor walking backwards with Last/Prev sees.
*/
module DBKeys {
  import Collections

  newtype byte = b: int | 0 <= b < 256

  type Key = seq<byte>

  const Uint64Range: nat := 0x1_0000_0000_0000_0000

  type uint64 = x: int | 0 <= x < 0x1_0000_0000_0000_0000

  // ---- big-endian encoding ----

  function Pow256(n: nat): (r: nat)
    ensures r > 0
  {
    if n == 0 then 1 else 256 * Pow256(n - 1)
  }

  lemma Pow256Eight()
    ensures Pow256(8) == Uint64Range
  {
  }

  lemma MulMono(a: int, b: int, p: int)
    requires a <= b && p >= 0
    ensures a * p <= b * p
  {
    assert b * p - a * p == (b - a) * p;
  }

  lemma DivBelow(x: int, p: int, k: int)
    requires p > 0 && 0 <= x < k * p
    ensures 0 <= x / p < k
  {
    if x / p >= k {
      MulMono(k, x / p, p);
      assert false;
    }
  }

  lemma DivModUnique(q: int, r: int, p: int)
    requires p > 0 && 0 <= r < p
    ensures (q * p + r) / p == q && (q * p + r) % p == r
  {
    var x := q * p + r;
    var q', r' := x / p, x % p;
    var d := q - q';
    assert d * p == q * p - q' * p;
    if d >= 1 {
      MulMono(1, d, p);
      assert false;
    } else if d <= -1 {
      MulMono(d, -1, p);
      assert false;
    }
  }

  /** `binary.BigEndian.PutUint64`, for any width `n`: the most significant byte first. */
  function ToBytes(x: nat, n: nat): (r: Key)
    requires x < Pow256(n)
    ensures |r| == n
  {
    if n == 0 then []
    else
      DivBelow(x, Pow256(n - 1), 256);
      [(x / Pow256(n - 1)) as byte] + ToBytes(x % Pow256(n - 1), n - 1)
  }

  /** `binary.BigEndian.Uint64`, for any width. */
  function FromBytes(b: Key): (r: nat)
    ensures r < Pow256(|b|)
  {
    if b == [] then 0
    else
      var p := Pow256(|b| - 1);
      var rest := FromBytes(b[1..]);
      MulMono(b[0] as int, 255, p);
      assert Pow256(|b|) == 256 * p;
      b[0] as int * p + rest
  }

  /** Decoding an encoded number gives the number back. */
  lemma {:induction false} FromToBytes(x: nat, n: nat)
    requires x < Pow256(n)
    ensures FromBytes(ToBytes(x, n)) == x
  {
    if n > 0 {
      var p := Pow256(n - 1);
      FromToBytes(x % p, n - 1);
      assert ToBytes(x, n)[1..] == ToBytes(x % p, n - 1);
    }
  }

  /** Encoding a decoded key at its own width gives the key back. */
  lemma {:induction false} ToFromBytes(b: Key)
    ensures ToBytes(FromBytes(b), |b|) == b
  {
    if b != [] {
      var p := Pow256(|b| - 1);
      var rest := FromBytes(b[1..]);
      DivModUnique(b[0] as int, rest, p);
      ToFromBytes(b[1..]);
    }
  }

  /** The 8-byte database ID of a numeric ID (`EncodeDBIDFromUint64`). */
  function EncodeUint64(x: uint64): (r: Key)
    ensures |r| == 8
  {
    Pow256Eight();
    ToBytes(x, 8)
  }

  /** The numeric ID read from the first 8 bytes of a key (`binary.BigEndian.Uint64`). */
  function DecodeUint64(b: Key): (r: uint64)
    requires |b| >= 8
  {
    Pow256Eight();
    FromBytes(b[..8])
  }

  /** The 8-byte encoding is a bijection between uint64 and 8-byte keys. */
  lemma Uint64RoundTrip(x: uint64, b: Key)
    ensures DecodeUint64(EncodeUint64(x)) == x
    ensures |b| == 8 ==> EncodeUint64(DecodeUint64(b)) == b
  {
    Pow256Eight();
    FromToBytes(x, 8);
    assert EncodeUint64(x)[..8] == EncodeUint64(x);
    if |b| == 8 {
      assert b[..8] == b;
      ToFromBytes(b);
    }
  }

  // ---- byte-wise order ----

  /** `bytes.Compare(a, b) < 0`: the first differing byte decides; a proper prefix is smaller. */
  predicate Less(a: Key, b: Key)
  {
    if a == [] then b != []
    else b != [] && (a[0] < b[0] || (a[0] == b[0] && Less(a[1..], b[1..])))
  }

  lemma {:induction false} LessIrreflexive(a: Key)
    ensures !Less(a, a)
  {
    if a != [] {
      LessIrreflexive(a[1..]);
    }
  }

  lemma {:induction false} LessTransitive(a: Key, b: Key, c: Key)
    requires Less(a, b) && Less(b, c)
    ensures Less(a, c)
  {
    if a != [] && a[0] == b[0] && b[0] == c[0] {
      LessTransitive(a[1..], b[1..], c[1..]);
    }
  }

  lemma {:induction false} LessTotal(a: Key, b: Key)
    ensures a == b || Less(a, b) || Less(b, a)
  {
    if a != [] && b != [] && a[0] == b[0] {
      LessTotal(a[1..], b[1..]);
      if a[1..] == b[1..] {
        assert a == [a[0]] + a[1..] && b == [b[0]] + b[1..];
      }
    }
  }

  lemma LessAsymmetric(a: Key, b: Key)
    requires Less(a, b)
    ensures !Less(b, a)
  {
    if Less(b, a) {
      LessTransitive(a, b, a);
      LessIrreflexive(a);
    }
  }

  /** A common prefix does not change the order. */
  lemma {:induction false} LessCommonPrefix(p: Key, a: Key, b: Key)
    ensures Less(p + a, p + b) <==> Less(a, b)
  {
    if p == [] {
      assert p + a == a && p + b == b;
    } else {
      assert (p + a)[1..] == p[1..] + a;
      assert (p + b)[1..] == p[1..] + b;
      LessCommonPrefix(p[1..], a, b);
    }
  }

  lemma {:induction false} DivModOrder(x: nat, y: nat, p: nat)
    requires p > 0
    ensures x < y <==> (x / p < y / p || (x / p == y / p && x % p < y % p))
  {
    var qx, qy := x / p, y / p;
    assert x == qx * p + x % p && y == qy * p + y % p;
    if qx < qy {
      MulMono(qx + 1, qy, p);
      assert (qx + 1) * p == qx * p + p;
    } else if qx > qy {
      MulMono(qy + 1, qx, p);
      assert (qy + 1) * p == qy * p + p;
    }
  }

  /** The big-endian encoding orders keys as their numbers. */
  lemma {:induction false} ToBytesOrder(x: nat, y: nat, n: nat)
    requires x < Pow256(n) && y < Pow256(n)
    ensures x < y <==> Less(ToBytes(x, n), ToBytes(y, n))
  {
    if n > 0 {
      var p := Pow256(n - 1);
      DivBelow(x, p, 256);
      DivBelow(y, p, 256);
      DivModOrder(x, y, p);
      ToBytesOrder(x % p, y % p, n - 1);
      assert ToBytes(x, n)[1..] == ToBytes(x % p, n - 1);
      assert ToBytes(y, n)[1..] == ToBytes(y % p, n - 1);
    }
  }

  /** Database IDs sort as the numeric IDs they encode. */
  lemma EncodeUint64Order(x: uint64, y: uint64)
    ensures x < y <==> Less(EncodeUint64(x), EncodeUint64(y))
  {
    Pow256Eight();
    ToBytesOrder(x, y, 8);
  }

  // ---- walking a key set from the last key down ----

  predicate IsMax(m: Key, s: set<Key>)
  {
    m in s && forall k :: k in s ==> k == m || Less(k, m)
  }

  lemma {:induction false} MaxExists(s: set<Key>)
    requires s != {}
    ensures exists m :: IsMax(m, s)
    decreases |s|
  {
    var x := Collections.MemberOf(s);
    var rest := s - {x};
    if rest == {} {
      assert s == {x};
      assert IsMax(x, s);
    } else {
      MaxExists(rest);
      var m :| IsMax(m, rest);
      LessTotal(x, m);
      if Less(x, m) {
        assert IsMax(m, s);
      } else {
        forall k | k in s
          ensures k == x || Less(k, x)
        {
          if k != x && k != m {
            LessTransitive(k, m, x);
          }
        }
        assert IsMax(x, s);
      }
    }
  }

  lemma MaxUnique(a: Key, b: Key, s: set<Key>)
    requires IsMax(a, s) && IsMax(b, s)
    ensures a == b
  {
    if a != b {
      LessAsymmetric(a, b);
    }
  }

  /** The largest key of a non-empty set: where Last (or Prev past a bigger key) lands. */
  ghost function Max(s: set<Key>): (m: Key)
    requires s != {}
    ensures IsMax(m, s)
  {
    MaxExists(s);
    var m :| IsMax(m, s);
    m
  }

  /** The keys of `s` from the largest down: the order a backward cursor visits them. */
  ghost function Descending(s: set<Key>): (r: seq<Key>)
    decreases s
  {
    if s == {} then [] else [Max(s)] + Descending(s - {Max(s)})
  }

  /** The backward walk visits every key of the set once. */
  lemma {:induction false} DescendingMembers(s: set<Key>)
    ensures |Descending(s)| == |s|
    ensures forall k :: k in s <==> k in Descending(s)
    decreases s
  {
    if s != {} {
      DescendingMembers(s - {Max(s)});
    }
  }

  /** Each key the backward walk visits is below the one before. */
  lemma {:induction false} DescendingSorted(s: set<Key>)
    ensures forall i, j :: 0 <= i < j < |Descending(s)| ==> Less(Descending(s)[j], Descending(s)[i])
    decreases s
  {
    if s != {} {
      var m := Max(s);
      var rest := s - {m};
      DescendingSorted(rest);
      DescendingMembers(rest);
      var d := Descending(s);
      assert d == [m] + Descending(rest);
      forall i, j | 0 <= i < j < |d|
        ensures Less(d[j], d[i])
      {
        if i == 0 {
          assert d[j] == Descending(rest)[j - 1];
          assert d[j] in rest;
        } else {
          assert d[j] == Descending(rest)[j - 1] && d[i] == Descending(rest)[i - 1];
        }
      }
    }
  }

  /** A step of the walk: the largest key found is the head of the descending order. */
  lemma DescendingStep(s: set<Key>, m: Key)
    requires IsMax(m, s)
    ensures Descending(s) == [m] + Descending(s - {m})
  {
    MaxUnique(m, Max(s), s);
  }
}
