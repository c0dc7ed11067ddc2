/** The order of startup ids in a QMap (bytewise lexicographic), and walks over a set of ids
    in that order. */
module IdOrder {

  type Id = string

  /** QByteArray::operator<. */
  predicate Less(a: Id, b: Id) {
    if b == [] then false
    else if a == [] then true
    else if a[0] != b[0] then (a[0] as int) < (b[0] as int)
    else Less(a[1..], b[1..])
  }

  lemma {:induction false} LessTotal(a: Id, b: Id)
    ensures a == b || Less(a, b) || Less(b, a)
    ensures !(Less(a, b) && Less(b, a))
    ensures !Less(a, a)
  {
    if a != [] {
      LessTotal(a[1..], a[1..]);
    }
    if a != [] && b != [] && a[0] == b[0] {
      LessTotal(a[1..], b[1..]);
      assert a == [a[0]] + a[1..] && b == [b[0]] + b[1..];
    }
  }

  lemma {:induction false} LessTransitive(a: Id, b: Id, c: Id)
    requires Less(a, b) && Less(b, c)
    ensures Less(a, c)
  {
    if a != [] && a[0] == b[0] && b[0] == c[0] {
      LessTransitive(a[1..], b[1..], c[1..]);
    }
  }

  lemma SameFirst(a: Id, b: Id, k: nat)
    requires k <= |a| && k <= |b| && a[..k] == b[..k]
    ensures k > 0 ==> a[0] == b[0]
  {
    if k > 0 {
      assert a[..k][0] == b[..k][0];
    }
  }

  /** What the order is: the first difference decides, and a proper prefix comes first. */
  lemma {:induction false} LessExactly(a: Id, b: Id)
    ensures Less(a, b)
            <==> exists k: nat :: k <= |a| && k < |b| && a[..k] == b[..k] && (k == |a| || (a[k] as int) < (b[k] as int))
  {
    if a == [] || b == [] {
      if b != [] {
        assert a[..0] == b[..0];
      }
    } else if a[0] != b[0] {
      if (a[0] as int) < (b[0] as int) {
        assert a[..0] == b[..0];
      }
      forall k: nat | k <= |a| && k < |b| && a[..k] == b[..k] ensures k == 0 {
        SameFirst(a, b, k);
      }
    } else {
      LessExactly(a[1..], b[1..]);
      if k: nat :| k <= |a[1..]| && k < |b[1..]| && a[1..][..k] == b[1..][..k]
                   && (k == |a[1..]| || (a[1..][k] as int) < (b[1..][k] as int)) {
        assert a[..k + 1] == [a[0]] + a[1..][..k] && b[..k + 1] == [b[0]] + b[1..][..k];
        assert a[..k + 1] == b[..k + 1];
      }
      if k: nat :| k <= |a| && k < |b| && a[..k] == b[..k] && (k == |a| || (a[k] as int) < (b[k] as int)) {
        if k > 0 {
          assert a[1..][..k - 1] == a[..k][1..] && b[1..][..k - 1] == b[..k][1..];
        }
      }
    }
  }

  predicate IsLeast(k: Id, s: set<Id>) {
    k in s && forall j :: j in s ==> j == k || Less(k, j)
  }

  lemma LeastExists(s: set<Id>)
    requires s != {}
    ensures exists k :: k in s && IsLeast(k, s)
  {
    var x :| x in s;
    var t := s - {x};
    if t == {} {
      assert forall j :: j in s ==> j == x || j in t;
      assert IsLeast(x, s);
    } else {
      LeastExists(t);
      var m :| m in t && IsLeast(m, t);
      LessTotal(x, m);
      if Less(x, m) {
        forall j | j in s ensures j == x || Less(x, j) {
          if j != x && j != m {
            assert j in t;
            LessTransitive(x, m, j);
          }
        }
        assert IsLeast(x, s);
      } else {
        assert forall j :: j in s ==> j == x || j in t;
        assert IsLeast(m, s);
      }
    }
  }

  lemma LeastIsUnique(a: Id, b: Id, s: set<Id>)
    requires IsLeast(a, s) && IsLeast(b, s)
    ensures a == b
  {
    LessTotal(a, b);
  }

  /** The first id of a walk over s. */
  ghost function Least(s: set<Id>): (k: Id)
    requires s != {}
    ensures IsLeast(k, s)
  {
    LeastExists(s);
    var k :| IsLeast(k, s);
    k
  }

  /** The ids of s in the order a walk visits them. */
  ghost function Sorted(s: set<Id>): (r: seq<Id>)
    ensures forall k :: k in r <==> k in s
    ensures forall i, j :: 0 <= i < j < |r| ==> Less(r[i], r[j])
  {
    if s == {} then []
    else
      var k := Least(s);
      var rest := Sorted(s - {k});
      assert forall j :: j in rest ==> Less(k, j);
      [k] + rest
  }

  lemma SortedStep(s: set<Id>, k: Id)
    requires IsLeast(k, s)
    ensures Sorted(s) == [k] + Sorted(s - {k})
  {
    LeastIsUnique(k, Least(s), s);
  }
}
