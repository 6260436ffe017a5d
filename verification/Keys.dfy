/** Byte keys of the database: big-endian numbers, their order, and the order a bbolt cursor visits keys in. */
module Keys {
  import opened Wrappers
  import opened Numbers

  type Key = seq<byte>

  function Pow256(n: nat): nat { if n == 0 then 1 else 256 * Pow256(n - 1) }

  /** `binary.BigEndian.PutUint64` and `PutUint32`. */
  function BigEndian(x: nat, n: nat): (k: Key)
    ensures |k| == n
  {
    if n == 0 then [] else BigEndian(x / 256, n - 1) + [x % 256]
  }

  /** `binary.BigEndian.Uint32`. */
  function FromBigEndian(k: Key): nat
  {
    if k == [] then 0 else 256 * FromBigEndian(k[..|k| - 1]) + k[|k| - 1]
  }

  /** The order of `bytes.Compare`. */
  predicate Less(a: Key, b: Key)
  {
    b != [] && (a == [] || a[0] < b[0] || (a[0] == b[0] && Less(a[1..], b[1..])))
  }

  lemma {:induction false} BigEndianInverse(x: nat, n: nat)
    requires x < Pow256(n)
    ensures FromBigEndian(BigEndian(x, n)) == x
  {
    if n > 0 {
      BigEndianInverse(x / 256, n - 1);
    }
  }

  lemma {:induction false} FromBigEndianBound(k: Key)
    ensures FromBigEndian(k) < Pow256(|k|) && BigEndian(FromBigEndian(k), |k|) == k
  {
    if k != [] {
      var front, last := k[..|k| - 1], k[|k| - 1];
      FromBigEndianBound(front);
      assert FromBigEndian(k) / 256 == FromBigEndian(front) && FromBigEndian(k) % 256 == last;
    }
  }

  lemma {:induction false} LessSnoc(a: Key, b: Key, x: byte, y: byte)
    requires |a| == |b|
    ensures Less(a + [x], b + [y]) <==> Less(a, b) || (a == b && x < y)
  {
    if a == [] {
      assert [x][1..] == [] == [y][1..];
    } else {
      LessSnoc(a[1..], b[1..], x, y);
      assert (a + [x])[1..] == a[1..] + [x] && (b + [y])[1..] == b[1..] + [y];
      assert a == b <==> a[0] == b[0] && a[1..] == b[1..];
    }
  }

  /** Big-endian keys of one width are ordered like the numbers. */
  lemma {:induction false} BigEndianOrder(x: nat, y: nat, n: nat)
    requires x < Pow256(n) && y < Pow256(n)
    ensures Less(BigEndian(x, n), BigEndian(y, n)) <==> x < y
    ensures BigEndian(x, n) == BigEndian(y, n) <==> x == y
  {
    BigEndianInverse(x, n);
    BigEndianInverse(y, n);
    if n > 0 {
      BigEndianOrder(x / 256, y / 256, n - 1);
      LessSnoc(BigEndian(x / 256, n - 1), BigEndian(y / 256, n - 1), x % 256, y % 256);
    }
  }

  // ---------- a strict total order ----------

  lemma {:induction false} LessTotal(a: Key, b: Key)
    ensures a != b ==> Less(a, b) || Less(b, a)
    ensures !(Less(a, b) && Less(b, a)) && !Less(a, a)
  {
    if a != [] && b != [] {
      LessTotal(a[1..], b[1..]);
      if a[0] == b[0] && a[1..] == b[1..] {
        assert a == [a[0]] + a[1..] == b;
      }
    }
    if a != [] {
      LessTotal(a[1..], a[1..]);
    }
  }

  lemma {:induction false} LessTransitive(a: Key, b: Key, c: Key)
    requires Less(a, b) && Less(b, c)
    ensures Less(a, c)
  {
    if a != [] && a[0] == b[0] == c[0] {
      LessTransitive(a[1..], b[1..], c[1..]);
    }
  }

  predicate Ascending(ks: seq<Key>) { forall i, j :: 0 <= i < j < |ks| ==> Less(ks[i], ks[j]) }

  /** The keys of a bucket in the order of its cursor. */
  ghost predicate IsCursor(ks: seq<Key>, keys: set<Key>)
  {
    Ascending(ks) && forall k :: k in ks <==> k in keys
  }

  lemma {:induction false} LeastExists(s: set<Key>) returns (k: Key)
    requires s != {}
    ensures k in s && forall x :: x in s ==> x == k || Less(k, x)
    decreases s
  {
    var a :| a in s;
    if s == {a} {
      k := a;
    } else {
      var m := LeastExists(s - {a});
      LessTotal(a, m);
      if Less(a, m) {
        k := a;
        forall x | x in s && x != a ensures Less(a, x) {
          if x != m {
            LessTransitive(a, m, x);
          }
        }
      } else {
        k := m;
      }
    }
  }

  /** The cursor of bbolt over a key set. */
  ghost function Cursor(s: set<Key>): (ks: seq<Key>)
    ensures IsCursor(ks, s)
  {
    if s == {} then []
    else
      assert exists k :: k in s && forall x :: x in s ==> x == k || Less(k, x) by { var k := LeastExists(s); }
      var k :| k in s && forall x :: x in s ==> x == k || Less(k, x);
      [k] + Cursor(s - {k})
  }

  /** A cursor order is unique. */
  lemma {:induction false} CursorUnique(a: seq<Key>, b: seq<Key>, s: set<Key>)
    requires IsCursor(a, s) && IsCursor(b, s)
    ensures a == b
    decreases |a|
  {
    hide Less;
    var first := if b == [] then [] else b[0];
    assert b == [] || first in b;
    if a == [] {
      assert first !in s;
    } else {
      assert a[0] in s && a[0] in b;
      var i :| 0 <= i < |b| && b[i] == a[0];
      assert b[0] in s && b[0] in a;
      var j :| 0 <= j < |a| && a[j] == b[0];
      LessTotal(a[0], b[0]);
      assert a[0] == b[0];
      TailCursor(a, s);
      TailCursor(b, s);
      CursorUnique(a[1..], b[1..], s - {a[0]});
      assert a == [a[0]] + a[1..] && b == [b[0]] + b[1..];
    }
  }

  lemma TailCursor(a: seq<Key>, s: set<Key>)
    requires IsCursor(a, s) && a != []
    ensures IsCursor(a[1..], s - {a[0]})
  {
    hide Less;
    forall k | k in a[1..] ensures k in s && k != a[0] {
      var i :| 0 <= i < |a[1..]| && a[1..][i] == k;
      LessTotal(a[0], a[i + 1]);
    }
    forall k | k in s && k != a[0] ensures k in a[1..] {
      var i :| 0 <= i < |a| && a[i] == k;
      assert a[1..][i - 1] == k;
    }
  }
}
