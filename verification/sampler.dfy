/** The postal codes probed for one prefix ("raiz"): the dense sample of the
    detailed scan and of the older stream (the first three codes of every block
    of ten) and the sparse sample of the fast scan (one code per hundred). */
module Sampler {
  import opened Digits
  import opened Seqs

  /** The suffix of the `k`-th dense code: block `k / 3`, offset `k % 3`. */
  function DenseSuffix(k: nat): nat {
    10 * (k / 3) + k % 3
  }

  /** Within the first `m` blocks the suffix stays below `10 * m`. */
  lemma DenseSuffixBound(k: nat, m: nat)
    requires k < 3 * m
    ensures DenseSuffix(k) < 10 * m && DenseSuffix(k) % 10 == k % 3
  {
    var b, i := k / 3, k % 3;
    assert k == 3 * b + i && 0 <= i < 3;
    assert b < m;
    assert DenseSuffix(k) == 10 * b + i;
    TensDigit(b, i);
  }

  lemma TensDigit(b: nat, i: nat)
    requires i < 10
    ensures (10 * b + i) % 10 == i && (10 * b + i) / 10 == b
  {
  }

  /** Three positions on is one block of ten on. */
  lemma DenseSuffixStep(k: nat)
    requires k >= 3
    ensures DenseSuffix(k) == 10 + DenseSuffix(k - 3)
  {
    var b, i := k / 3, k % 3;
    assert k == 3 * b + i;
    assert k - 3 == 3 * (b - 1) + i;
    assert (k - 3) / 3 == b - 1 && (k - 3) % 3 == i;
  }

  /** Position `3 * b + i` holds offset `i` of block `b`. */
  lemma DenseSuffixOf(b: nat, i: nat)
    requires i < 3
    ensures DenseSuffix(3 * b + i) == 10 * b + i
  {
    var k := 3 * b + i;
    assert k / 3 == b && k % 3 == i;
  }

  /** Later dense positions carry larger suffixes. */
  lemma DenseSuffixIncreasing(i: nat, j: nat)
    requires i < j
    ensures DenseSuffix(i) < DenseSuffix(j)
  {
    if i / 3 == j / 3 {
      assert i % 3 < j % 3;
    } else {
      assert i / 3 < j / 3;
      assert 10 * (i / 3) + 10 <= 10 * (j / 3);
    }
  }

  /** `for d in range(10 * block, 1000, 10) for i in range(3)`: the suffixes
      `d + i`, block by block. */
  function DenseSuffixesFrom(block: nat): (r: seq<nat>)
    requires block <= 100
    ensures |r| == 3 * (100 - block)
    ensures forall k :: 0 <= k < |r| ==> r[k] == 10 * block + DenseSuffix(k) < 1000
    decreases 100 - block
  {
    if block == 100 then []
    else
      var d := 10 * block;
      var rest := DenseSuffixesFrom(block + 1);
      var r := [d, d + 1, d + 2] + rest;
      forall k | 0 <= k < |r|
        ensures r[k] == 10 * block + DenseSuffix(k) < 1000
      {
        if k >= 3 {
          DenseSuffixStep(k);
          assert r[k] == rest[k - 3];
        } else {
          DenseSuffixOf(0, k);
        }
      }
      r
  }

  /** The 300 codes of the detailed scan (distance_calc) for a prefix:
      `raiz + f"{d+i:03d}"` for each suffix. */
  function Dense(raiz: string): (r: seq<string>)
    ensures |r| == 300
    ensures forall k :: 0 <= k < 300 ==> DenseSuffix(k) < 1000 && r[k] == raiz + Pad3(DenseSuffix(k))
  {
    var ds := DenseSuffixesFrom(0);
    seq(300, k requires 0 <= k < 300 => raiz + Pad3(ds[k]))
  }

  /** A code is sampled exactly when it is the prefix followed by three digits
      whose last digit is 0, 1 or 2. */
  lemma DenseMembers(raiz: string, n: nat)
    requires n < 1000
    ensures raiz + Pad3(n) in Dense(raiz) <==> n % 10 < 3
  {
    if n % 10 < 3 {
      DenseHas(raiz, n);
    } else if raiz + Pad3(n) in Dense(raiz) {
      DenseOnly(raiz, n);
    }
  }

  lemma DenseHas(raiz: string, n: nat)
    requires n < 1000 && n % 10 < 3
    ensures raiz + Pad3(n) in Dense(raiz)
  {
    var b, i := n / 10, n % 10;
    assert n == 10 * b + i && b < 100;
    var k := 3 * b + i;
    DenseSuffixOf(b, i);
    var r := Dense(raiz);
    assert k < 300;
    assert r[k] == raiz + Pad3(DenseSuffix(k));
    assert DenseSuffix(k) == n;
  }

  lemma DenseOnly(raiz: string, n: nat)
    requires n < 1000 && raiz + Pad3(n) in Dense(raiz)
    ensures n % 10 < 3
  {
    var r := Dense(raiz);
    var k :| 0 <= k < 300 && r[k] == raiz + Pad3(n);
    var m := DenseSuffix(k);
    assert Pad3(m) == Pad3(n) by {
      assert (raiz + Pad3(m))[|raiz|..] == Pad3(m);
      assert (raiz + Pad3(n))[|raiz|..] == Pad3(n);
    }
    Pad3Injective(m, n);
    DenseSuffixBound(k, 100);
  }

  /** The dense codes are in strictly increasing string order, hence distinct. */
  lemma DenseIncreasing(raiz: string)
    ensures forall i, j :: 0 <= i < j < 300 ==> StrLess(Dense(raiz)[i], Dense(raiz)[j])
    ensures NoDuplicates(Dense(raiz))
  {
    var r := Dense(raiz);
    forall i, j | 0 <= i < j < 300
      ensures StrLess(r[i], r[j]) && r[i] != r[j]
    {
      DenseSuffixIncreasing(i, j);
      Pad3Ordered(DenseSuffix(i), DenseSuffix(j));
      StrLessCommonPrefix(raiz, Pad3(DenseSuffix(i)), Pad3(DenseSuffix(j)));
      Pad3Injective(DenseSuffix(i), DenseSuffix(j));
      assert r[i][|raiz|..] == Pad3(DenseSuffix(i));
      assert r[j][|raiz|..] == Pad3(DenseSuffix(j));
    }
  }

  /** `for h in range(start, 1000, 100)`: the codes `raiz + f"{h:03d}"`. */
  function SparseFrom(raiz: string, start: nat): (r: seq<string>)
    requires start <= 1000 && start % 100 == 0
    ensures 100 * |r| == 1000 - start
    ensures forall k :: 0 <= k < |r| ==> start + 100 * k < 1000 && r[k] == raiz + Pad3(start + 100 * k)
    decreases 1000 - start
  {
    if start == 1000 then []
    else
      var rest := SparseFrom(raiz, start + 100);
      var r := [raiz + Pad3(start)] + rest;
      forall k | 0 <= k < |r|
        ensures start + 100 * k < 1000 && r[k] == raiz + Pad3(start + 100 * k)
      {
        if k > 0 {
          assert r[k] == rest[k - 1];
          assert start + 100 + 100 * (k - 1) == start + 100 * k;
        }
      }
      r
  }

  /** The 10 codes of the fast scan: suffixes 000, 100, ..., 900 in order. */
  function Sparse(raiz: string): (r: seq<string>)
    ensures |r| == 10
    ensures forall k :: 0 <= k < 10 ==> r[k] == raiz + Pad3(100 * k)
  {
    SparseFrom(raiz, 0)
  }

  /** The sparse codes increase strictly. */
  lemma SparseIncreasing(raiz: string)
    ensures forall i, j :: 0 <= i < j < 10 ==> StrLess(Sparse(raiz)[i], Sparse(raiz)[j])
  {
    var r := Sparse(raiz);
    forall i, j | 0 <= i < j < 10
      ensures StrLess(r[i], r[j])
    {
      Pad3Ordered(100 * i, 100 * j);
      StrLessCommonPrefix(raiz, Pad3(100 * i), Pad3(100 * j));
    }
  }

  /** Every sparse code is also a dense code. */
  lemma SparseWithinDense(raiz: string)
    ensures forall k :: 0 <= k < 10 ==> Sparse(raiz)[k] in Dense(raiz)
  {
    forall k | 0 <= k < 10
      ensures Sparse(raiz)[k] in Dense(raiz)
    {
      var n := 100 * k;
      assert n % 10 == 0;
      DenseHas(raiz, n);
    }
  }

  /** The older stream's codes: `str(raiz)` followed by `str(d + i).zfill(3)`. */
  function LegacyCodes(raiz: int): (r: seq<string>)
    ensures |r| == 300
    ensures forall k :: 0 <= k < 300 ==>
              DenseSuffix(k) < 1000 && r[k] == IntToString(raiz) + ZFill(NatToString(DenseSuffix(k)), 3)
  {
    var r := Dense(IntToString(raiz));
    forall k | 0 <= k < 300
      ensures r[k] == IntToString(raiz) + ZFill(NatToString(DenseSuffix(k)), 3)
    {
      Pad3IsZFill(DenseSuffix(k));
    }
    r
  }

  /** Because the prefix is rebuilt from an integer, a prefix written with a
      leading zero loses it: "01310" probes seven-character codes such as "1310000". */
  lemma LegacyLeadingZero()
    ensures LegacyCodes(1310)[0] == "1310000"
    ensures |LegacyCodes(1310)[0]| == 7
    ensures Dense("01310")[0] == "01310000"
  {
    LegacyFirstCode();
    DenseFirstCode();
  }

  lemma LegacyFirstCode()
    ensures LegacyCodes(1310)[0] == "1310000"
  {
    assert DenseSuffix(0) == 0;
    PadZero();
    FourDigits();
    ConcatLiterals();
    assert LegacyCodes(1310)[0] == IntToString(1310) + Pad3(0);
  }

  lemma DenseFirstCode()
    ensures Dense("01310")[0] == "01310000"
  {
    assert DenseSuffix(0) == 0;
    PadZero();
    ConcatLiterals();
    assert Dense("01310")[0] == "01310" + Pad3(0);
  }

  lemma PadZero()
    ensures Pad3(0) == "000"
  {
    assert DigitChar(0) == '0';
  }

  lemma ConcatLiterals()
    ensures "1310" + "000" == "1310000"
    ensures "01310" + "000" == "01310000"
  {
  }

  lemma FourDigits()
    ensures NatToString(1310) == "1310"
  {
    assert DigitChar(0) == '0' && DigitChar(1) == '1' && DigitChar(3) == '3';
    assert NatToString(1) == "1";
    assert NatToString(13) == "13";
    assert NatToString(131) == "131";
  }
}
