/** What walking a finished root yields, and up to how many leaves (src/store/indirect.go against the
    handler table of src/store/decode.go). */
module Capacity {
  import opened Base
  import opened Text
  import opened Pool
  import opened Decode
  import opened Stories
  import opened Indirect
  import opened Heights

  lemma StoryAllOne(r: Repo, oid: OID)
    requires Closed(r)
    ensures StoryAll(r, [oid]) == Story(r, oid)
  {
    assert [oid][1..] == [];
    assert Story(r, oid) + [] == Story(r, oid);
  }

  lemma BlockStory(f: Family, r: Repo, level: nat, us: seq<OID>)
    requires Closed(r) && f.BlockIn(r.store, true, level, us) && HandlerOf(f.KindName(level)).IndHandler?
    ensures Story(r, f.Block(level, us)) == StoryAll(r, us)
  {
    StoryOfInd(r, f.Block(level, us), us);
  }

  /** A row of blocks tells the same story as the row below it. */
  lemma {:induction false} UpStory(f: Family, r: Repo, level: nat, us: seq<OID>)
    requires f.k >= 1 && us != [] && Closed(r) && f.BlocksIn(r.store, true, level, us)
    requires HandlerOf(f.KindName(level)).IndHandler?
    ensures StoryAll(r, f.Up(level, us)) == StoryAll(r, us)
    decreases |us|
  {
    hide HandlerOf, Story, StoryAll, Closed;
    if |us| <= f.k {
      BlockStory(f, r, level, us);
      StoryAllOne(r, f.Block(level, us));
      assert f.Up(level, us) == [f.Block(level, us)];
    } else {
      var first, rest := us[..f.k], us[f.k..];
      BlockStory(f, r, level, first);
      UpStory(f, r, level, rest);
      assert f.Up(level, us) == [f.Block(level, first)] + f.Up(level, rest);
      StoryAllAppend(r, [f.Block(level, first)], f.Up(level, rest));
      StoryAllOne(r, f.Block(level, first));
      assert us == first + rest;
      StoryAllAppend(r, first, rest);
    }
  }

  lemma {:induction false} RootStory(f: Family, r: Repo, level: nat, us: seq<OID>)
    requires f.k >= 2 && us != [] && Closed(r) && f.TreeIn(r.store, true, level, us)
    requires forall l :: level <= l < level + Height(f.k, |us|) ==> HandlerOf(f.KindName(l)).IndHandler?
    ensures Story(r, f.Root(level, us)) == StoryAll(r, us)
    decreases |us|
  {
    if |us| == 1 {
      assert us == [us[0]];
      StoryAllOne(r, us[0]);
    } else {
      var up := f.Up(level, us);
      UpCount(f, level, us);
      UpStory(f, r, level, us);
      RootStory(f, r, level + 1, up);
    }
  }

  lemma {:induction false} RootKind(f: Family, r: Repo, level: nat, us: seq<OID>)
    requires f.k >= 2 && |us| >= 2 && f.TreeIn(r.store, true, level, us)
    ensures Height(f.k, |us|) >= 1 && f.Root(level, us) in r.store
    ensures r.store[f.Root(level, us)].kind == f.KindName(level + Height(f.k, |us|) - 1)
    decreases |us|
  {
    var up := f.Up(level, us);
    UpCount(f, level, us);
    if |us| <= f.k {
      assert up == [f.Block(level, us)];
      assert f.Root(level + 1, up) == up[0];
    } else {
      CeilBound(f.k, |us|, 1);
      RootKind(f, r, level + 1, up);
    }
  }

  /** The leaves below which every level has a handler. */
  function Limit(k: nat, prefix: Bytes): nat {
    if prefix == "ind" then Pow(k, 4) else Pow(k, 3)
  }

  /** Far below the size at which chunk kinds stop having four characters. */
  lemma LimitFar(k: nat, prefix: Bytes)
    requires k >= 1
    ensures Limit(k, prefix) <= Pow(k, 10)
  {
    hide Pow;
    PowMono(k, 3, 10);
    PowMono(k, 4, 10);
  }

  lemma BelowCapacity(f: Family, r: Repo, leaves: seq<OID>)
    requires f.k >= 2 && leaves != [] && f.prefix in {"ind", "dir"} && |leaves| <= Limit(f.k, f.prefix)
    requires Closed(r) && f.TreeIn(r.store, true, 0, leaves)
    ensures Story(r, f.Root(0, leaves)) == StoryAll(r, leaves)
  {
    HeightLeast(f.k, |leaves|, 4);
    HeightLeast(f.k, |leaves|, 3);
    forall l | 0 <= l < Height(f.k, |leaves|) ensures HandlerOf(f.KindName(l)).IndHandler? {
      HandledLevels(l);
    }
    RootStory(f, r, 0, leaves);
  }

  lemma AboveCapacity(f: Family, r: Repo, leaves: seq<OID>)
    requires f.k >= 2 && f.prefix in {"ind", "dir"} && 2 <= |leaves| && Limit(f.k, f.prefix) < |leaves| <= Pow(f.k, 10)
    requires Closed(r) && f.TreeIn(r.store, true, 0, leaves)
    ensures f.Root(0, leaves) in r.store && HandlerOf(r.store[f.Root(0, leaves)].kind).Unsupported?
  {
    hide HandlerOf, Family.KindName, Family.Root, Family.TreeIn, Height;
    HeightRange(f.k, |leaves|, if f.prefix == "ind" then 4 else 3, 10);
    RootKind(f, r, 0, leaves);
    TopUnsupported(f, Height(f.k, |leaves|) - 1);
  }

  lemma TopUnsupported(f: Family, level: nat)
    requires f.prefix in {"ind", "dir"} && level < 10 && (if f.prefix == "ind" then level >= 4 else level >= 3)
    ensures HandlerOf(f.KindName(level)).Unsupported?
  {
    HandledLevels(level);
    if f.prefix == "ind" {
      assert f.KindName(level) == "ind" + Decimal(level);
    } else {
      assert f.KindName(level) == "dir" + Decimal(level);
    }
  }

  lemma HeightRange(k: nat, n: nat, a: nat, b: nat)
    requires k >= 2 && Pow(k, a) < n <= Pow(k, b)
    ensures a < Height(k, n) <= b && n >= 2
  {
    PowPositive(k, a);
    HeightLeast(k, n, a);
    HeightLeast(k, n, b);
  }

  /** Exact capacity: up to k^4 identifiers of a file, or k^3 of a directory, the root tells the stories of the
      leaves in order; above that, up to k^10, the walk reads the root chunk, finds no handler and goes no further. */
  lemma RootCapacity(f: Family, r: Repo, leaves: seq<OID>)
    requires f.k >= 2 && leaves != [] && |leaves| <= Pow(f.k, 10) && f.prefix in {"ind", "dir"}
    requires Closed(r) && Ranked(r) && f.TreeIn(r.store, true, 0, leaves)
    ensures Story(r, f.Root(0, leaves)) == if |leaves| <= Limit(f.k, f.prefix) then StoryAll(r, leaves) else []
    ensures var root := f.Root(0, leaves);
      |leaves| > Limit(f.k, f.prefix) ==> root in r.store && HandlerScript(r, root) == []
  {
    if |leaves| <= Limit(f.k, f.prefix) {
      BelowCapacity(f, r, leaves);
    } else {
      PowPositive(f.k, 3);
      PowPositive(f.k, 4);
      AboveCapacity(f, r, leaves);
      StoryOfNull(r, f.Root(0, leaves));
    }
  }

  /** Rows below the height have two identifiers or more. */
  lemma {:induction false} RowsLong(f: Family, level: nat, leaves: seq<OID>)
    requires f.k >= 2 && level <= Height(f.k, |leaves|)
    ensures forall i :: 0 <= i < level ==> |f.Row(i, leaves)| >= 2
  {
    if level > 0 {
      RowsLong(f, level - 1, leaves);
      RowHeight(f, level - 1, leaves);
    }
  }

  /** Without failures, all Adds and Finalize together insert the sum of ceil(n / k^i), i = 1..h, indirect chunks. */
  lemma TotalInserts(f: Family, leaves: seq<OID>)
    requires f.k >= 2 && leaves != []
    ensures f.Made(0, []) == 0
    ensures f.Made(Height(f.k, |leaves|), leaves) == CeilSum(f.k, |leaves|, Height(f.k, |leaves|))
  {
    var h := Height(f.k, |leaves|);
    var row := f.Row(h, leaves);
    RowsMadeSum(f, h, leaves);
    RowsLong(f, h, leaves);
    RowHeight(f, h, leaves);
    assert |row| <= 1;
    assert f.Carry(h, row) == [] && f.Work(h + 1, []) == 0;
  }

  // ---- the level buffers between two Adds --------------------------------------------------

  /** The root of the complete k-ary tree over exactly k^level leaves. */
  function Perfect(f: Family, level: nat, ls: seq<OID>): OID
    requires f.k >= 1 && |ls| == Pow(f.k, level)
    decreases level, 0
  {
    if level == 0 then ls[0] else PowPositive(f.k, level - 1); f.Block(level - 1, PerfectRow(f, level - 1, f.k, ls))
  }

  /** The roots over n consecutive runs of k^level leaves. */
  function PerfectRow(f: Family, level: nat, n: nat, ls: seq<OID>): (r: seq<OID>)
    requires f.k >= 1 && |ls| == n * Pow(f.k, level)
    ensures |r| == n
    decreases level, n
  {
    if n == 0 then []
    else
      var p := Pow(f.k, level);
      MulMonoLeft(1, n, p); MulLess(n, p);
      [Perfect(f, level, ls[..p])] + PerfectRow(f, level, n - 1, ls[p..])
  }

  lemma MulLess(n: nat, p: nat)
    requires n >= 1
    ensures n * p == p + (n - 1) * p
  {
  }

  lemma {:induction false} RowSplit(f: Family, level: nat, a: nat, b: nat, ls: seq<OID>)
    requires f.k >= 1 && |ls| == (a + b) * Pow(f.k, level)
    ensures a * Pow(f.k, level) + b * Pow(f.k, level) == |ls| && a * Pow(f.k, level) >= 0
    ensures PerfectRow(f, level, a + b, ls)[..a] == PerfectRow(f, level, a, ls[..a * Pow(f.k, level)])
    ensures PerfectRow(f, level, a + b, ls)[a..] == PerfectRow(f, level, b, ls[a * Pow(f.k, level)..])
    decreases a
  {
    var p := Pow(f.k, level);
    MulSum(a, b, p);
    if a == 0 {
      assert ls[0 * p..] == ls;
    } else {
      MulLess(a, p);
      MulLess(a + b, p);
      RowSplit(f, level, a - 1, b, ls[p..]);
      var x := a * p;
      assert ls[..x][..p] == ls[..p] && ls[..x][p..] == ls[p..][..x - p];
      assert ls[p..][x - p..] == ls[x..];
      var row := PerfectRow(f, level, a + b, ls);
      assert row == [Perfect(f, level, ls[..p])] + PerfectRow(f, level, a + b - 1, ls[p..]);
      assert row[..a] == [row[0]] + row[1..][..a - 1] && row[a..] == row[1..][a - 1..];
    }
  }

  lemma MulSum(a: nat, b: nat, p: nat)
    ensures (a + b) * p == a * p + b * p && a * p >= 0 && b * p >= 0
  {
  }

  /** The last subtrees of a row stay, over the leaves from m on; the others become larger ones over the first m. */
  ghost predicate Carried(f: Family, level: nat, n: nat, ls: seq<OID>, m: nat)
    requires f.k >= 1 && |ls| == n * Pow(f.k, level)
  {
    var us := PerfectRow(f, level, n, ls);
    var last, carry := f.Last(us), f.Carry(level, us);
    && m <= |ls| && m == |carry| * Pow(f.k, level + 1) && |ls| - m == |last| * Pow(f.k, level)
    && last == PerfectRow(f, level, |last|, ls[m..])
    && carry == PerfectRow(f, level + 1, |carry|, ls[..m])
  }

  /** Carrying a row of complete subtrees makes complete subtrees of the next size. */
  lemma {:induction false} CarryPerfect(f: Family, level: nat, n: nat, ls: seq<OID>) returns (m: nat)
    requires f.k >= 1 && n >= 1 && |ls| == n * Pow(f.k, level)
    ensures Carried(f, level, n, ls, m)
    decreases n
  {
    hide PerfectRow, Perfect, Carried;
    if n <= f.k {
      m := 0;
      CarryNone(f, level, n, ls);
    } else {
      var p := Pow(f.k, level + 1);
      assert p == f.k * Pow(f.k, level);
      hide Pow;
      RowSplit(f, level, f.k, n - f.k, ls);
      var below := CarryPerfect(f, level, n - f.k, ls[p..]);
      m := p + below;
      CarryStep(f, level, n, ls, p, below);
    }
  }

  lemma CarryNone(f: Family, level: nat, n: nat, ls: seq<OID>)
    requires f.k >= 1 && 1 <= n <= f.k && |ls| == n * Pow(f.k, level)
    ensures Carried(f, level, n, ls, 0)
  {
    assert ls[0..] == ls && ls[..0] == [];
    MulSum(0, 0, Pow(f.k, level + 1));
  }

  lemma CarryStep(f: Family, level: nat, n: nat, ls: seq<OID>, p: nat, below: nat)
    requires f.k >= 1 && n > f.k && |ls| == n * Pow(f.k, level) && p == Pow(f.k, level + 1) == f.k * Pow(f.k, level)
    requires p <= |ls| && |ls| - p == (n - f.k) * Pow(f.k, level)
    requires PerfectRow(f, level, n, ls)[..f.k] == PerfectRow(f, level, f.k, ls[..p])
    requires PerfectRow(f, level, n, ls)[f.k..] == PerfectRow(f, level, n - f.k, ls[p..])
    requires Carried(f, level, n - f.k, ls[p..], below)
    ensures Carried(f, level, n, ls, p + below)
  {
    var us, vs := PerfectRow(f, level, n, ls), PerfectRow(f, level, n - f.k, ls[p..]);
    var m, q := p + below, |f.Carry(level, vs)|;
    assert f.Last(us) == f.Last(vs) && f.Carry(level, us) == [f.Block(level, us[..f.k])] + f.Carry(level, vs);
    MulLess(q + 1, p);
    assert ls[m..] == ls[p..][below..];
    var lead := ls[..m];
    assert lead[..p] == ls[..p] && lead[p..] == ls[p..][..below];
    assert Perfect(f, level + 1, ls[..p]) == f.Block(level, us[..f.k]);
    assert PerfectRow(f, level + 1, q + 1, lead)
        == [Perfect(f, level + 1, lead[..p])] + PerfectRow(f, level + 1, q, lead[p..]);
  }

  /** Level buffers as numerals in bijective base k: `level` upwards, every buffer holds c = 1..k identifiers, each
      the root of a complete k-ary tree of k^level leaves; the highest level has the first leaves. */
  ghost predicate Describes(f: Family, level: nat, t: seq<Bytes>, ls: seq<OID>)
    requires f.k >= 1
    decreases |t|
  {
    if t == [] then ls == []
    else
      var c, p := |t[0]| / OID_LEN, Pow(f.k, level);
      MulSum(c, 0, p);
      && 1 <= c <= f.k && c * p <= |ls|
      && t[0] == Flatten(PerfectRow(f, level, c, ls[|ls| - c * p..]))
      && Describes(f, level + 1, t[1..], ls[..|ls| - c * p])
  }

  lemma DescribesCons(f: Family, level: nat, last: seq<OID>, above: seq<Bytes>, ls: seq<OID>, m: nat)
    requires f.k >= 1 && 1 <= |last| <= f.k && m <= |ls| && |ls| - m == |last| * Pow(f.k, level)
    requires last == PerfectRow(f, level, |last|, ls[m..]) && Describes(f, level + 1, above, ls[..m])
    ensures Describes(f, level, [Flatten(last)] + above, ls)
  {
    var t := [Flatten(last)] + above;
    assert t[1..] == above && |t[0]| / OID_LEN == |last|;
    assert |ls| - |last| * Pow(f.k, level) == m;
  }

  lemma {:induction false} LevelsDescribed(f: Family, level: nat, n: nat, ls: seq<OID>)
    requires f.k >= 1 && |ls| == n * Pow(f.k, level)
    ensures Describes(f, level, f.Levels(level, PerfectRow(f, level, n, ls)), ls)
    decreases n
  {
    var us := PerfectRow(f, level, n, ls);
    if n >= 1 {
      var m := CarryPerfect(f, level, n, ls);
      LevelsDescribed(f, level + 1, |f.Carry(level, us)|, ls[..m]);
      DescribesCons(f, level, f.Last(us), f.Levels(level + 1, f.Carry(level, us)), ls, m);
    } else {
      MulSum(0, 0, Pow(f.k, level));
    }
  }

  lemma {:induction false} PerfectLeaves(f: Family, ls: seq<OID>)
    requires f.k >= 1
    ensures PerfectRow(f, 0, |ls|, ls) == ls
  {
    if ls != [] {
      PerfectLeaves(f, ls[1..]);
      assert ls == [ls[0]] + ls[1..];
    }
  }

  /** Between two Adds: the levels are the bijective base-k numeral of the number of leaves, made of complete
      trees, and read from the top level down to level 0 they give the leaves in order. */
  lemma BuffersDescribed(f: Family, leaves: seq<OID>)
    requires f.k >= 1
    ensures Describes(f, 0, f.Levels(0, leaves), leaves)
  {
    PerfectLeaves(f, leaves);
    LevelsDescribed(f, 0, |leaves|, leaves);
  }
}
