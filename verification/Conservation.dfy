/** Sums of multisets over the entries of a sequence: what all CPUs hold together,
    or what all threads hold together. */
module Conservation {

  ghost function Sum<T>(ss: seq<seq<T>>): multiset<T> {
    if ss == [] then multiset{} else multiset(ss[0]) + Sum(ss[1..])
  }

  /** Replacing one entry moves the sum by the difference. */
  lemma {:induction false} SumUpdate<T>(ss: seq<seq<T>>, i: nat, x: seq<T>)
    requires i < |ss|
    ensures Sum(ss[i := x]) + multiset(ss[i]) == Sum(ss) + multiset(x)
  {
    if i > 0 {
      SumUpdate(ss[1..], i - 1, x);
      assert ss[i := x][1..] == ss[1..][i - 1 := x];
      assert Sum(ss[i := x]) + multiset(ss[i])
          == multiset(ss[0]) + (Sum(ss[1..][i - 1 := x]) + multiset(ss[1..][i - 1]));
      assert Sum(ss) + multiset(x) == multiset(ss[0]) + (Sum(ss[1..]) + multiset(x));
    } else {
      assert ss[i := x][1..] == ss[1..];
      assert Sum(ss[i := x]) == multiset(x) + Sum(ss[1..]);
    }
  }

  /** Moving elements between a CPU's share and a thread's share conserves the total. */
  lemma Transfer<T>(a: seq<seq<T>>, b: seq<seq<T>>, i: nat, j: nat, x: seq<T>, z: seq<T>)
    requires i < |a| && j < |b| && multiset(x) + multiset(z) == multiset(a[i]) + multiset(b[j])
    ensures Sum(a[i := x]) + Sum(b[j := z]) == Sum(a) + Sum(b)
  {
    SumUpdate(a, i, x);
    SumUpdate(b, j, z);
    var (a', b') := (Sum(a[i := x]), Sum(b[j := z]));
    CancelMoved(a' + multiset(a[i]), b' + multiset(b[j]), a' + b', Sum(a) + Sum(b), multiset(x) + multiset(z)) by {
      Regroup(a', multiset(a[i]), b', multiset(b[j]));
      Regroup(Sum(a), multiset(x), Sum(b), multiset(z));
    }
  }

  lemma Regroup<T>(a: multiset<T>, x: multiset<T>, b: multiset<T>, z: multiset<T>)
    ensures (a + x) + (b + z) == (a + b) + (x + z)
  {
  }

  lemma CancelMoved<T>(p: multiset<T>, q: multiset<T>, l: multiset<T>, r: multiset<T>, moved: multiset<T>)
    requires p + q == l + moved && p + q == r + moved
    ensures l == r
  {
    assert l == (l + moved) - moved;
    assert r == (r + moved) - moved;
  }

  lemma {:induction false} SumContains<T>(ss: seq<seq<T>>, i: nat)
    requires i < |ss|
    ensures multiset(ss[i]) <= Sum(ss)
  {
    if i > 0 {
      SumContains(ss[1..], i - 1);
    }
  }

  /** Two different entries never share an element that occurs once in the sum. */
  lemma {:induction false} SumDisjoint<T>(ss: seq<seq<T>>, i: nat, j: nat, e: T)
    requires i < |ss| && j < |ss| && i != j && e in ss[i] && e in ss[j]
    ensures Sum(ss)[e] >= 2
  {
    if i == 0 {
      SumContains(ss[1..], j - 1);
    } else if j == 0 {
      SumContains(ss[1..], i - 1);
    } else {
      SumDisjoint(ss[1..], i - 1, j - 1, e);
    }
  }

  lemma {:induction false} SumElement<T>(ss: seq<seq<T>>, e: T) returns (i: nat)
    requires e in Sum(ss)
    ensures i < |ss| && e in ss[i]
  {
    if e in ss[0] {
      i := 0;
    } else {
      i := SumElement(ss[1..], e);
      i := i + 1;
    }
  }

  /** Nothing is in a CPU's share and in a thread's share at once, when every
      element exists once. */
  lemma Exclusive<T>(a: seq<seq<T>>, b: seq<seq<T>>, all: set<T>, i: nat, j: nat, e: T)
    requires Sum(a) + Sum(b) == multiset(all)
    requires i < |a| && j < |b| && e in b[j]
    ensures e in all && e !in a[i]
  {
    SumContains(a, i);
    SumContains(b, j);
    assert multiset(b[j])[e] >= 1;
    assert multiset(a[i])[e] + multiset(b[j])[e] <= multiset(all)[e] <= 1;
    assert e !in multiset(a[i]);
  }

  ghost function Total(q: seq<int>): int {
    if q == [] then 0 else q[0] + Total(q[1..])
  }

  /** Adding k to one entry adds k to the total. */
  lemma {:induction false} TotalUpdate(q: seq<int>, i: nat, k: int)
    requires i < |q|
    ensures Total(q[i := q[i] + k]) == Total(q) + k
  {
    if i > 0 {
      TotalUpdate(q[1..], i - 1, k);
      assert q[i := q[i] + k][1..] == q[1..][i - 1 := q[1..][i - 1] + k];
    } else {
      assert q[i := q[i] + k][1..] == q[1..];
    }
  }

  lemma {:induction false} TotalZero(q: seq<int>)
    requires forall i :: 0 <= i < |q| ==> q[i] == 0
    ensures Total(q) == 0
  {
    if q != [] {
      TotalZero(q[1..]);
    }
  }

  ghost predicate Distinct<T>(q: seq<T>) {
    forall i, j :: 0 <= i < j < |q| ==> q[i] != q[j]
  }

  lemma CountsTwice<T>(q: seq<T>, i: nat, j: nat)
    requires i < j < |q| && q[i] == q[j]
    ensures multiset(q)[q[i]] >= 2
  {
    assert q == q[..i] + [q[i]] + q[i + 1..];
    assert q[j] == q[i + 1..][j - i - 1];
  }

  /** When every element exists once, no share holds an element twice and no two
      shares meet. */
  lemma SharesAreDisjoint<T>(a: seq<seq<T>>, b: seq<seq<T>>, all: set<T>)
    requires Sum(a) + Sum(b) == multiset(all)
    ensures forall i :: 0 <= i < |a| ==> Distinct(a[i])
    ensures forall i, j, e :: 0 <= i < |a| && 0 <= j < |a| && i != j && e in a[i] ==> e !in a[j]
  {
    forall i | 0 <= i < |a| ensures Distinct(a[i]) {
      SumContains(a, i);
      forall k, l | 0 <= k < l < |a[i]| ensures a[i][k] != a[i][l] {
        assert multiset(all)[a[i][k]] <= 1;
        if a[i][k] == a[i][l] { CountsTwice(a[i], k, l); }
      }
    }
    forall i, j, e | 0 <= i < |a| && 0 <= j < |a| && i != j && e in a[i] ensures e !in a[j] {
      assert multiset(all)[e] <= 1;
      if e in a[j] { SumDisjoint(a, i, j, e); }
    }
  }

  /** Empty shares have nothing between them. */
  lemma {:induction false} SumOfEmpty<T>(shares: seq<seq<T>>)
    requires forall t :: 0 <= t < |shares| ==> shares[t] == []
    ensures Sum(shares) == multiset{}
  {
    if shares != [] {
      SumOfEmpty(shares[1..]);
    }
  }
}
