/** One lattice cell: the stack of unit charges it holds (class ChargeStack of
    FluidDiffusion/lattice_model.py). */
module ChargeStacks {
  import opened Wrappers

  /** A charge as the constructor draws it from the list [1, -1]. */
  predicate IsUnit(q: int) {
    q == 1 || q == -1
  }

  predicate AllUnit(s: seq<int>) {
    forall i :: 0 <= i < |s| ==> IsUnit(s[i])
  }

  /** Python's `sum` over a list of integers. */
  function Sum(s: seq<int>): int {
    if s == [] then 0 else s[0] + Sum(s[1..])
  }

  /** The charges held by one lattice cell. The source keeps them in a mutable
      list; here the list is a value and a cell is updated by replacing it. */
  datatype ChargeStack = ChargeStack(charges: seq<int>) {

    /** total_charge(): the sum of the charges. */
    function TotalCharge(): (t: int)
      ensures AllUnit(charges) ==> t == (multiset(charges)[1] as int) - multiset(charges)[-1]
    {
      if AllUnit(charges) then SumOfUnits(charges); Sum(charges) else Sum(charges)
    }

    /** population(): the number of charges. */
    function Population(): (n: nat)
      ensures n == 0 <==> charges == []
    {
      |charges|
    }
  }

  /** The list `np.random.choice([1, -1], n)` returns when the i-th draw of the
      cell's stream, `coin(start + i)`, picks the first entry (1) or the second (-1). */
  function Signs(coin: nat -> bool, start: nat, n: nat): (r: seq<int>)
    ensures |r| == n && AllUnit(r)
    ensures forall i :: 0 <= i < n ==> (r[i] == 1 <==> coin(start + i))
  {
    seq(n, i requires 0 <= i < n => if coin(start + i) then 1 else -1)
  }

  /** Two consecutive batches of draws are one longer batch. */
  lemma SignsSplit(coin: nat -> bool, start: nat, a: nat, b: nat)
    ensures Signs(coin, start, a) + Signs(coin, start + a, b) == Signs(coin, start, a + b)
  {
    var lhs, rhs := Signs(coin, start, a) + Signs(coin, start + a, b), Signs(coin, start, a + b);
    assert |lhs| == |rhs|;
    forall i | 0 <= i < a + b
      ensures lhs[i] == rhs[i]
    {
      if i < a {
        assert lhs[i] == Signs(coin, start, a)[i];
      } else {
        assert lhs[i] == Signs(coin, start + a, b)[i - a];
        assert start + a + (i - a) == start + i;
      }
    }
  }

  /** `np.random.choice` refuses a negative sample size. */
  datatype StackError = NegativeSampleSize(size: int)

  /** The occupancies for which the second draw asks for a negative sample size. */
  predicate Unsampleable(positive: int, negative: int) {
    negative > 0 && positive < 0
  }

  /** What `ChargeStack(positive_occupancy, negative_occupancy)` produces, as written:
      the second batch is drawn with `positive_occupancy` again, and a
      non-positive `negative_occupancy` empties the stack. */
  function InitialStack(positive: int, negative: int, coin: nat -> bool): (r: Result<ChargeStack, StackError>)
    ensures r.Failure? <==> Unsampleable(positive, negative)
    ensures r.Failure? ==> r.error == NegativeSampleSize(positive)
    ensures r.Success? ==> AllUnit(r.value.charges)
    ensures r.Success? ==> r.value.Population() == if positive > 0 && negative > 0 then 2 * positive else 0
    ensures negative <= 0 ==> r == Success(ChargeStack([]))
  {
    if negative <= 0 then Success(ChargeStack([]))
    else if positive < 0 then Failure(NegativeSampleSize(positive))
    else Success(ChargeStack(Signs(coin, 0, 2 * positive)))
  }

  /** ChargeStack.__init__: builds the charge list by successive reassignment. */
  method NewChargeStack(positive: int, negative: int, coin: nat -> bool) returns (r: Result<ChargeStack, StackError>)
    ensures r == InitialStack(positive, negative, coin)
  {
    var charges: seq<int> := [];
    var drawn: nat := 0;
    if positive > 0 {
      charges := charges + Signs(coin, drawn, positive);
      drawn := drawn + positive;
    }
    assert charges == Signs(coin, 0, drawn);
    if negative > 0 {
      if positive < 0 {
        return Failure(NegativeSampleSize(positive));
      }
      // the second batch is sized by the positive occupancy
      charges := charges + Signs(coin, drawn, positive);
      SignsSplit(coin, 0, drawn, positive);
    } else {
      charges := [];
    }
    r := Success(ChargeStack(charges));
  }

  /** A stack of unit charges: |total_charge| <= population, with equal parity. */
  lemma {:induction false} ChargeBounds(c: ChargeStack)
    requires AllUnit(c.charges)
    ensures -(c.Population() as int) <= c.TotalCharge() <= c.Population()
    ensures (c.TotalCharge() + c.Population()) % 2 == 0
    decreases |c.charges|
  {
    if c.charges != [] {
      var rest := ChargeStack(c.charges[1..]);
      assert AllUnit(rest.charges) by {
        forall i | 0 <= i < |rest.charges| ensures IsUnit(rest.charges[i]) {
          assert rest.charges[i] == c.charges[i + 1];
        }
      }
      ChargeBounds(rest);
      assert c.TotalCharge() == c.charges[0] + rest.TotalCharge();
      assert IsUnit(c.charges[0]);
    }
  }

  lemma {:induction false} SumAppend(a: seq<int>, b: seq<int>)
    ensures Sum(a + b) == Sum(a) + Sum(b)
  {
    if a == [] {
      assert a + b == b;
    } else {
      assert (a + b)[1..] == a[1..] + b;
      SumAppend(a[1..], b);
    }
  }

  /** Taking the i-th element out of a list. */
  lemma SumRemove(b: seq<int>, i: nat)
    requires i < |b|
    ensures Sum(b) == b[i] + Sum(b[..i] + b[i + 1..])
  {
    var left, right := b[..i], b[i + 1..];
    SplitAt(b, i);
    SumAppend(left, [b[i]] + right);
    SumAppend(left, right);
    SumCons(b[i], right);
  }

  lemma SplitAt(b: seq<int>, i: nat)
    requires i < |b|
    ensures b == b[..i] + ([b[i]] + b[i + 1..])
  {
  }

  lemma SumCons(q: int, s: seq<int>)
    ensures Sum([q] + s) == q + Sum(s)
  {
    assert ([q] + s)[1..] == s;
  }

  lemma MultisetRemove(b: seq<int>, i: nat)
    requires i < |b|
    ensures multiset(b) == multiset{b[i]} + multiset(b[..i] + b[i + 1..])
  {
    assert b == b[..i] + [b[i]] + b[i + 1..];
  }

  /** `sum` does not depend on the order of the list: equal multisets have equal sums. */
  lemma {:induction false} SumOfMultiset(a: seq<int>, b: seq<int>)
    requires multiset(a) == multiset(b)
    ensures Sum(a) == Sum(b)
    decreases |a|
  {
    if a == [] {
      assert |b| == |multiset(b)| == 0;
    } else {
      assert a[0] in multiset(b);
      var i :| 0 <= i < |b| && b[i] == a[0];
      var rest := b[..i] + b[i + 1..];
      MultisetRemove(b, i);
      assert a == [a[0]] + a[1..];
      assert multiset(a[1..]) == multiset(rest) by {
        forall v ensures multiset(a[1..])[v] == multiset(rest)[v] {
          assert (multiset{a[0]} + multiset(a[1..]))[v] == (multiset{a[0]} + multiset(rest))[v];
        }
      }
      SumOfMultiset(a[1..], rest);
      SumRemove(b, i);
    }
  }

  /** For unit charges the sum is fixed by the multiset: (#+1) - (#-1). */
  lemma {:induction false} SumOfUnits(s: seq<int>)
    requires AllUnit(s)
    ensures Sum(s) == (multiset(s)[1] as int) - multiset(s)[-1]
  {
    if s != [] {
      assert s == [s[0]] + s[1..];
      assert multiset(s) == multiset{s[0]} + multiset(s[1..]);
      assert AllUnit(s[1..]) by {
        forall i | 0 <= i < |s[1..]| ensures IsUnit(s[1..][i]) {
          assert s[1..][i] == s[i + 1];
        }
      }
      SumOfUnits(s[1..]);
      assert IsUnit(s[0]);
    }
  }
}
