/** The code-unit order of texts: what `ORDER BY id`, `localeCompare` on ids and SQLite's text comparison use. */
module TextOrder {

  predicate Less(a: string, b: string) {
    if b == "" then false
    else if a == "" then true
    else a[0] < b[0] || (a[0] == b[0] && Less(a[1..], b[1..]))
  }

  lemma {:induction false} Irreflexive(a: string)
    ensures !Less(a, a)
  {
    if a != "" {
      Irreflexive(a[1..]);
    }
  }

  lemma {:induction false} Transitive(a: string, b: string, c: string)
    requires Less(a, b) && Less(b, c)
    ensures Less(a, c)
  {
    if a != "" && a[0] == b[0] == c[0] {
      Transitive(a[1..], b[1..], c[1..]);
    }
  }

  lemma {:induction false} Total(a: string, b: string)
    ensures Less(a, b) || a == b || Less(b, a)
  {
    if a != "" && b != "" && a[0] == b[0] {
      Total(a[1..], b[1..]);
      assert a == [a[0]] + a[1..] && b == [b[0]] + b[1..];
    }
  }

  /** Equally long heads decide first, then the tails: why fixed-width fields compare field by field. */
  lemma {:induction false} LessConcat(a: string, b: string, c: string, d: string)
    requires |a| == |c|
    ensures Less(a + b, c + d) <==> Less(a, c) || (a == c && Less(b, d))
  {
    if a == "" {
      assert a + b == b && c + d == d;
    } else {
      assert (a + b)[1..] == a[1..] + b && (c + d)[1..] == c[1..] + d;
      assert a == [a[0]] + a[1..] && c == [c[0]] + c[1..];
      LessConcat(a[1..], b, c[1..], d);
    }
  }

  predicate Ascending(xs: seq<string>) {
    forall i, j :: 0 <= i < j < |xs| ==> Less(xs[i], xs[j])
  }

  predicate IsLeast(m: string, keys: set<string>) {
    m in keys && forall k :: k in keys ==> k == m || Less(m, k)
  }

  lemma {:induction false} LeastExists(keys: set<string>)
    requires keys != {}
    ensures exists m :: IsLeast(m, keys)
  {
    var x :| x in keys;
    if keys == {x} {
      assert IsLeast(x, keys);
    } else {
      LeastExists(keys - {x});
      var m :| IsLeast(m, keys - {x});
      Total(m, x);
      if Less(x, m) {
        forall k | k in keys && k != x
          ensures Less(x, k)
        {
          if k != m { Transitive(x, m, k); }
        }
        assert IsLeast(x, keys);
      } else {
        assert IsLeast(m, keys);
      }
    }
  }

  /** There is one ascending listing of a set, so an `ORDER BY id` result is fixed by its members. */
  lemma {:induction false} AscendingUnique(xs: seq<string>, ys: seq<string>)
    requires Ascending(xs) && Ascending(ys)
    requires forall k :: k in xs <==> k in ys
    ensures xs == ys
  {
    if xs == [] {
      assert forall i :: 0 <= i < |ys| ==> ys[i] in ys;
    } else {
      assert xs[0] in ys;
      assert ys[0] in xs;
      var i :| 0 <= i < |ys| && ys[i] == xs[0];
      var j :| 0 <= j < |xs| && xs[j] == ys[0];
      if i > 0 && j > 0 {
        Transitive(xs[0], xs[j], xs[0]);
        Irreflexive(xs[0]);
      }
      assert xs[0] == ys[0];
      forall k
        ensures k in xs[1..] <==> k in ys[1..]
      {
        Irreflexive(xs[0]);
        assert xs == [xs[0]] + xs[1..] && ys == [ys[0]] + ys[1..];
        if k in xs[1..] {
          var a :| 0 <= a < |xs[1..]| && xs[1..][a] == k;
          assert Less(xs[0], xs[a + 1]) && k in ys;
        }
        if k in ys[1..] {
          var a :| 0 <= a < |ys[1..]| && ys[1..][a] == k;
          assert Less(ys[0], ys[a + 1]) && k in xs;
        }
      }
      AscendingUnique(xs[1..], ys[1..]);
      assert xs == [xs[0]] + xs[1..] && ys == [ys[0]] + ys[1..];
    }
  }
}
