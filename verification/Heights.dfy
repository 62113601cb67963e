/** Arithmetic of the store tree: rows shrink by the fan-out, and kinds name the levels. */
module Heights {
  import opened Base
  import opened Text
  import opened Decode
  import opened Stories
  import opened Indirect

  lemma KindLength(prefix: Bytes, level: nat)
    requires |prefix| == 3
    ensures |prefix + Decimal(level)| == 4 <==> level < 10
  {
  }

  /** A three-byte prefix and a digit name no chunk but an indirect one. */
  lemma LevelKind(prefix: Bytes, level: nat)
    requires |prefix| == 3 && level < 10
    ensures HandlerOf(prefix + Decimal(level)) in {IndHandler, Unsupported}
  {
    var kind := prefix + Decimal(level);
    assert kind[3] == Digit(level);
    assert "back"[3] == 'k' && "node"[3] == 'e' && "dir "[3] == ' ' && "null"[3] == 'l' && "blob"[3] == 'b';
  }

  /** The walker handles exactly the first four levels of files and the first three of directories. */
  lemma HandledLevels(level: nat)
    requires level < 10
    ensures HandlerOf("ind" + Decimal(level)).IndHandler? <==> level < 4
    ensures HandlerOf("dir" + Decimal(level)).IndHandler? <==> level < 3
    ensures !HandlerOf("ind" + Decimal(level)).IndHandler? ==> HandlerOf("ind" + Decimal(level)).Unsupported?
    ensures !HandlerOf("dir" + Decimal(level)).IndHandler? ==> HandlerOf("dir" + Decimal(level)).Unsupported?
  {
    LevelKind("ind", level);
    LevelKind("dir", level);
    var a, b := "ind" + Decimal(level), "dir" + Decimal(level);
    assert a[0] == 'i' && a[3] == Digit(level) && b[0] == 'd' && b[3] == Digit(level);
    assert "dir0"[0] == 'd' && "dir1"[0] == 'd' && "dir2"[0] == 'd';
    assert "ind0"[0] == 'i' && "ind1"[0] == 'i' && "ind2"[0] == 'i' && "ind3"[0] == 'i';
    assert "dir0"[3] == '0' && "dir1"[3] == '1' && "dir2"[3] == '2';
    assert "ind0"[3] == '0' && "ind1"[3] == '1' && "ind2"[3] == '2' && "ind3"[3] == '3';
    if level == 0 { assert a == "ind0" && b == "dir0"; }
    else if level == 1 { assert a == "ind1" && b == "dir1"; }
    else if level == 2 { assert a == "ind2" && b == "dir2"; }
    else if level == 3 { assert a == "ind3"; }
  }

  // ---- sizes of rows -----------------------------------------------------------------------

  lemma {:induction false} CarryCount(f: Family, level: nat, us: seq<OID>)
    requires f.k >= 1
    ensures |us| == f.k * |f.Carry(level, us)| + |f.Last(us)|
    decreases |us|
  {
    if |us| > f.k {
      CarryCount(f, level, us[f.k..]);
      MulSucc(f.k, |f.Carry(level, us[f.k..])|);
    }
  }

  lemma MulSucc(k: nat, c: nat)
    ensures k * (c + 1) == k * c + k
  {
  }

  lemma UpCount(f: Family, level: nat, us: seq<OID>)
    requires f.k >= 1
    ensures |f.Up(level, us)| == Ceil(|us|, f.k)
  {
    CarryCount(f, level, us);
    if us != [] {
      CeilOf(f.k, |f.Carry(level, us)|, |f.Last(us)|);
    } else {
      CeilOf(f.k, 0, 0);
    }
  }

  /** Each block of a row holds the next k identifiers of the row below, and the last one those that are left. */
  lemma {:induction false} UpAt(f: Family, level: nat, us: seq<OID>, i: nat)
    requires f.k >= 1 && i < |f.Up(level, us)|
    ensures f.k * i < |us|
    ensures var from := us[f.k * i..];
      f.Up(level, us)[i] == f.hash(f.prefix + Decimal(level), Flatten(if |from| <= f.k then from else from[..f.k]))
    decreases |us|
  {
    if |us| <= f.k {
      assert f.Up(level, us) == [f.Block(level, us)];
    } else {
      var rest := us[f.k..];
      assert f.Up(level, us) == [f.Block(level, us[..f.k])] + f.Up(level, rest);
      if i > 0 {
        UpAt(f, level, rest, i - 1);
        MulSucc(f.k, i - 1);
        assert rest[f.k * (i - 1)..] == us[f.k * i..];
      }
    }
  }

  /** One identifier is its own root; up to k of them are the contents of one indirect chunk of level 0. */
  lemma SmallRoot(f: Family, us: seq<OID>)
    requires f.k >= 2 && 1 <= |us| <= f.k
    ensures f.Root(0, us) == if |us| == 1 then us[0] else f.hash(f.prefix + "0", Flatten(us))
  {
    if |us| > 1 {
      assert f.Up(0, us) == [f.Block(0, us)];
      assert Decimal(0) == "0";
    }
  }

  lemma CeilOf(k: nat, q: nat, r: nat)
    requires k >= 1 && r <= k
    ensures Ceil(k * q + r, k) == if r == 0 then q else q + 1
  {
    if r == 0 {
      DivUnique(k, q, k - 1);
    } else {
      MulSucc(k, q);
      DivUnique(k, q + 1, r - 1);
    }
  }

  lemma DivUnique(k: nat, q: nat, s: nat)
    requires s < k
    ensures (k * q + s) / k == q
  {
    var d, e := (k * q + s) / k, (k * q + s) % k;
    assert k * d + e == k * q + s;
    MulDistance(k, q, d);
  }

  lemma MulDistance(k: nat, a: nat, b: nat)
    ensures a < b ==> k * b >= k * a + k
    ensures b < a ==> k * a >= k * b + k
  {
    if a < b {
      MulMono(k, a + 1, b);
    } else if b < a {
      MulMono(k, b + 1, a);
    }
  }

  /** More identifiers than this in a row entering at `level` would carry to level 10. */
  function TooMany(k: nat, level: nat): nat {
    if level >= 10 then 1 else Pow(k, 10 - level)
  }

  lemma TooManyUp(f: Family, level: nat, us: seq<OID>)
    requires f.k >= 1 && us != [] && |f.Carry(level, us)| >= TooMany(f.k, level + 1)
    ensures |us| > TooMany(f.k, level)
  {
    CarryCount(f, level, us);
    var c := |f.Carry(level, us)|;
    if level < 10 {
      assert TooMany(f.k, level + 1) == Pow(f.k, 9 - level);
      assert TooMany(f.k, level) == f.k * Pow(f.k, 9 - level);
      MulMono(f.k, Pow(f.k, 9 - level), c);
    } else {
      MulMono(f.k, 1, c);
    }
  }

  // ---- heights and counts ------------------------------------------------------------------

  /** How often a row of n must be replaced by its blocks until one is left. */
  function Height(k: nat, n: nat): nat
    requires k >= 2
    decreases n
  {
    if n <= 1 then 0 else CeilShrinks(k, n); 1 + Height(k, Ceil(n, k))
  }

  lemma CeilShrinks(k: nat, n: nat)
    requires k >= 2 && n >= 2
    ensures 1 <= Ceil(n, k) < n
  {
    CeilBound(k, n, n - 1);
    CeilBound(k, n, 0);
    MulMonoLeft(2, k, n - 1);
  }

  lemma MulMonoLeft(a: nat, b: nat, k: nat)
    requires a <= b
    ensures a * k <= b * k
  {
  }

  lemma CeilBound(k: nat, n: nat, m: nat)
    requires k >= 1
    ensures Ceil(n, k) <= m <==> n <= k * m
  {
    var c := Ceil(n, k);
    var r := (n + k - 1) % k;
    assert k * c + r == n + k - 1;
    MulDistance(k, m, c);
    MulDistance(k, c, m);
  }

  /** The height is the least h with n <= k^h. */
  lemma {:induction false} HeightLeast(k: nat, n: nat, h: nat)
    requires k >= 2 && n >= 1
    ensures n <= Pow(k, h) <==> Height(k, n) <= h
    decreases h
  {
    PowPositive(k, h);
    if n >= 2 {
      CeilShrinks(k, n);
      if h > 0 {
        CeilBound(k, n, Pow(k, h - 1));
        HeightLeast(k, Ceil(n, k), h - 1);
      }
    }
  }

  lemma {:induction false} PowSum(k: nat, a: nat, b: nat)
    ensures Pow(k, a) * Pow(k, b) == Pow(k, a + b)
  {
    if a > 0 {
      PowSum(k, a - 1, b);
      assert Pow(k, a) * Pow(k, b) == k * (Pow(k, a - 1) * Pow(k, b)) by {
        MulAssoc(k, Pow(k, a - 1), Pow(k, b));
      }
    }
  }

  lemma MulAssoc(a: nat, b: nat, c: nat)
    ensures (a * b) * c == a * (b * c)
  {
  }

  lemma {:induction false} PowMono(k: nat, a: nat, b: nat)
    requires k >= 1 && a <= b
    ensures Pow(k, a) <= Pow(k, b)
  {
    if a < b {
      PowMono(k, a, b - 1);
      PowPositive(k, b - 1);
      MulMonoLeft(1, k, Pow(k, b - 1));
    }
  }

  /** A row at some level has ceil(n / k^level) identifiers. */
  lemma {:induction false} RowCount(f: Family, level: nat, leaves: seq<OID>)
    requires f.k >= 1
    ensures Pow(f.k, level) >= 1 && |f.Row(level, leaves)| == Ceil(|leaves|, Pow(f.k, level))
  {
    PowPositive(f.k, level);
    if level > 0 {
      RowCount(f, level - 1, leaves);
      UpCount(f, level - 1, f.Row(level - 1, leaves));
      CeilCeil(|leaves|, Pow(f.k, level - 1), f.k);
    }
  }

  lemma CeilCeil(n: nat, a: nat, b: nat)
    requires a >= 1 && b >= 1
    ensures b * a >= 1 && Ceil(Ceil(n, a), b) == Ceil(n, b * a)
  {
    MulMono(b, 1, a);
    var p, q := Ceil(Ceil(n, a), b), Ceil(n, b * a);
    CeilBound(b, Ceil(n, a), q);
    CeilBound(a, n, b * q);
    CeilBound(b * a, n, q);
    MulSwap(a, b, q);
    CeilBound(b, Ceil(n, a), p);
    CeilBound(a, n, b * p);
    CeilBound(b * a, n, p);
    MulSwap(a, b, p);
  }

  lemma MulSwap(a: nat, b: nat, c: nat)
    ensures a * (b * c) == (b * a) * c
  {
  }

  /** While rows have two identifiers or more, the height counts them. */
  lemma {:induction false} RowHeight(f: Family, done: nat, leaves: seq<OID>)
    requires f.k >= 2 && forall i :: 0 <= i < done ==> |f.Row(i, leaves)| >= 2
    ensures Height(f.k, |leaves|) == done + Height(f.k, |f.Row(done, leaves)|)
  {
    if done > 0 {
      RowHeight(f, done - 1, leaves);
      UpCount(f, done - 1, f.Row(done - 1, leaves));
    }
  }

  /** Two identifiers left at a level mean more leaves than that level's power. */
  lemma ManyLeaves(f: Family, done: nat, leaves: seq<OID>, m: nat)
    requires f.k >= 1 && |f.Row(done, leaves)| > m
    ensures |leaves| > Pow(f.k, done) * m
  {
    RowCount(f, done, leaves);
    CeilBound(Pow(f.k, done), |leaves|, m);
  }

  /** The sum of ceil(n / k^i) over i = 1..h. */
  function CeilSum(k: nat, n: nat, h: nat): nat
    requires k >= 1
  {
    if h == 0 then 0 else PowPositive(k, h); CeilSum(k, n, h - 1) + Ceil(n, Pow(k, h))
  }

  lemma {:induction false} RowsMadeSum(f: Family, done: nat, leaves: seq<OID>)
    requires f.k >= 1
    ensures f.RowsMade(done, leaves) == CeilSum(f.k, |leaves|, done)
  {
    if done > 0 {
      RowsMadeSum(f, done - 1, leaves);
      RowCount(f, done, leaves);
    }
  }
}
