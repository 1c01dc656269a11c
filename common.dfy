/** Small helpers shared by the scanner model: an Option type and the
    "append if not already present" log discipline used both for the
    per-page link list and for the scanner-wide discovery log. */
module Common {

  datatype Option<+T> = None | Some(value: T)

  /** No element occurs twice. */
  predicate NoDup<T(==)>(s: seq<T>) {
    forall i, j | 0 <= i < j < |s| :: s[i] != s[j]
  }

  /** Index of the first occurrence of `x` in `s`. */
  function FirstIndex<T(==)>(s: seq<T>, x: T): (k: nat)
    requires x in s
    ensures k < |s| && s[k] == x
    ensures forall j | 0 <= j < k :: s[j] != x
  {
    if s[0] == x then 0 else 1 + FirstIndex(s[1..], x)
  }

  /** Appends each element of `cs`, in order, unless it is already present:
      the linear-scan-then-append pattern of the link extractor. */
  function AddAll<T(==)>(xs: seq<T>, cs: seq<T>): seq<T>
    decreases |cs|
  {
    if cs == [] then xs
    else AddAll(if cs[0] in xs then xs else xs + [cs[0]], cs[1..])
  }

  /** The distinct elements of `cs`, in order of first occurrence. */
  function Dedup<T(==)>(cs: seq<T>): seq<T> {
    AddAll([], cs)
  }

  /** The log only grows by appending: the old log is a prefix of the new one,
      and everything appended comes from `cs` and was not in the old log. */
  lemma {:induction false} AddAllExtends<T>(xs: seq<T>, cs: seq<T>)
    ensures |AddAll(xs, cs)| >= |xs| && AddAll(xs, cs)[..|xs|] == xs
    ensures forall i | |xs| <= i < |AddAll(xs, cs)| ::
              AddAll(xs, cs)[i] in cs && AddAll(xs, cs)[i] !in xs
    decreases |cs|
  {
    if cs != [] {
      var ys := if cs[0] in xs then xs else xs + [cs[0]];
      AddAllExtends(ys, cs[1..]);
      var r := AddAll(ys, cs[1..]);
      assert r[..|ys|] == ys;
      assert r[..|xs|] == ys[..|xs|];
      forall i | |xs| <= i < |r| ensures r[i] in cs && r[i] !in xs {
        if i < |ys| {
          assert r[i] == ys[i] == cs[0];
        } else {
          assert r[i] in cs[1..] && r[i] !in ys;
        }
      }
    }
  }

  /** Membership: the new log holds exactly the old entries and the offered ones. */
  lemma {:induction false} AddAllMembers<T>(xs: seq<T>, cs: seq<T>, x: T)
    ensures x in AddAll(xs, cs) <==> x in xs || x in cs
    decreases |cs|
  {
    if cs != [] {
      var ys := if cs[0] in xs then xs else xs + [cs[0]];
      AddAllMembers(ys, cs[1..], x);
      assert cs == [cs[0]] + cs[1..];
    }
  }

  /** A duplicate-free log stays duplicate-free, because membership is checked
      before every append. */
  lemma {:induction false} AddAllNoDup<T>(xs: seq<T>, cs: seq<T>)
    requires NoDup(xs)
    ensures NoDup(AddAll(xs, cs))
    decreases |cs|
  {
    if cs != [] {
      var ys := if cs[0] in xs then xs else xs + [cs[0]];
      assert NoDup(ys);
      AddAllNoDup(ys, cs[1..]);
    }
  }

  /** Offering `a` and then `b` is the same as offering `a + b`. */
  lemma {:induction false} AddAllAppend<T>(xs: seq<T>, a: seq<T>, b: seq<T>)
    ensures AddAll(xs, a + b) == AddAll(AddAll(xs, a), b)
    decreases |a|
  {
    if a != [] {
      assert (a + b)[0] == a[0] && (a + b)[1..] == a[1..] + b;
      var ys := if a[0] in xs then xs else xs + [a[0]];
      AddAllAppend(ys, a[1..], b);
    } else {
      assert a + b == b;
    }
  }

  /** The entries appended to the log appear in the order of their first
      occurrence among the offered elements. */
  lemma {:induction false} AddAllOrder<T>(xs: seq<T>, cs: seq<T>, i: nat, j: nat)
    requires |xs| <= i < j < |AddAll(xs, cs)|
    ensures AddAll(xs, cs)[i] in cs && AddAll(xs, cs)[j] in cs
    ensures FirstIndex(cs, AddAll(xs, cs)[i]) < FirstIndex(cs, AddAll(xs, cs)[j])
    decreases |cs|
  {
    AddAllExtends(xs, cs);
    var r := AddAll(xs, cs);
    var ys := if cs[0] in xs then xs else xs + [cs[0]];
    var t := cs[1..];
    assert r == AddAll(ys, t);
    AddAllExtends(ys, t);
    if cs[0] in xs {
      assert r[i] != cs[0] && r[j] != cs[0];
      AddAllOrder(ys, t, i, j);
      assert FirstIndex(cs, r[i]) == 1 + FirstIndex(t, r[i]);
      assert FirstIndex(cs, r[j]) == 1 + FirstIndex(t, r[j]);
    } else if i == |xs| {
      assert r[i] == ys[i] == cs[0];
      assert r[j] !in ys;
      assert FirstIndex(cs, r[j]) == 1 + FirstIndex(t, r[j]);
    } else {
      assert r[i] !in ys && r[j] !in ys;
      AddAllOrder(ys, t, i, j);
      assert FirstIndex(cs, r[i]) == 1 + FirstIndex(t, r[i]);
      assert FirstIndex(cs, r[j]) == 1 + FirstIndex(t, r[j]);
    }
  }

  /** Dedup keeps exactly the distinct elements, each once, in order of first
      occurrence. */
  lemma DedupSpec<T>(cs: seq<T>)
    ensures NoDup(Dedup(cs))
    ensures forall x :: x in Dedup(cs) <==> x in cs
    ensures forall i, j | 0 <= i < j < |Dedup(cs)| ::
              FirstIndex(cs, Dedup(cs)[i]) < FirstIndex(cs, Dedup(cs)[j])
  {
    AddAllNoDup([], cs);
    forall x ensures x in Dedup(cs) <==> x in cs {
      AddAllMembers([], cs, x);
    }
    forall i, j | 0 <= i < j < |Dedup(cs)|
      ensures FirstIndex(cs, Dedup(cs)[i]) < FirstIndex(cs, Dedup(cs)[j])
    {
      AddAllOrder([], cs, i, j);
    }
  }
}
