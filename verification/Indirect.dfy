/** Indirect chunks (src/store/indirect.go): what the online writer computes, as a closed form of the
    identifiers added to it, and as the result of an offline algorithm. */
module Indirect {
  import opened Base
  import opened Chunks
  import opened Text
  import opened Pool
  import opened Stories

  /** Fan-out, hash and prefix of a family of indirect chunks. */
  datatype Family = Family(k: nat, hash: Hash, prefix: Bytes) {
    /** `kindName`. */
    function KindName(level: nat): Bytes {
      prefix + Decimal(level)
    }

    /** The identifier of the chunk holding some identifiers of a level. */
    function Block(level: nat, oids: seq<OID>): OID {
      hash(KindName(level), Flatten(oids))
    }

    /** Blocks for all but the last 1..k identifiers of a row. */
    function Carry(level: nat, us: seq<OID>): (r: seq<OID>)
      requires k >= 1
      ensures us != [] ==> |r| < |us|
      ensures us != [] && k >= 2 && |us| >= 2 ==> |r| + 1 < |us|
    {
      if |us| <= k then [] else [Block(level, us[..k])] + Carry(level, us[k..])
    }

    /** The last 1..k identifiers of a row. */
    function Last(us: seq<OID>): (r: seq<OID>)
      requires k >= 1
      ensures |r| <= k && (us != [] ==> r != [])
    {
      if |us| <= k then us else Last(us[k..])
    }

    /** Blocks for a whole row, the last one perhaps short. */
    function Up(level: nat, us: seq<OID>): seq<OID>
      requires k >= 1
    {
      if us == [] then [] else Carry(level, us) + [Block(level, Last(us))]
    }

    /** The level buffers between two Adds, for a row of identifiers entering at `level`. */
    function Levels(level: nat, us: seq<OID>): seq<Bytes>
      requires k >= 1
      decreases |us|
    {
      if us == [] then [] else [Flatten(Last(us))] + Levels(level + 1, Carry(level, us))
    }

    /** The offline algorithm: replace a row by its blocks until one identifier is left. */
    function Root(level: nat, us: seq<OID>): OID
      requires us != [] && k >= 1 && (k >= 2 || |us| == 1)
      decreases |us|
    {
      if |us| == 1 then us[0] else Root(level + 1, Up(level, us))
    }

    /** The row at a level, when every row below was replaced by its blocks. */
    function Row(level: nat, leaves: seq<OID>): seq<OID>
      requires k >= 1
    {
      if level == 0 then leaves else Up(level - 1, Row(level - 1, leaves))
    }

    /** Chunks written for the rows between two Adds. */
    function Work(level: nat, us: seq<OID>): nat
      requires k >= 1
      decreases |us|
    {
      if us == [] then 0 else |Carry(level, us)| + Work(level + 1, Carry(level, us))
    }

    /** Chunks written when the first `done` rows are complete and the others as between two Adds. */
    function Made(done: nat, leaves: seq<OID>): nat
      requires k >= 1
    {
      RowsMade(done, leaves) + Work(done, Row(done, leaves))
    }

    function RowsMade(done: nat, leaves: seq<OID>): nat
      requires k >= 1
    {
      if done == 0 then 0 else RowsMade(done - 1, leaves) + |Row(done, leaves)|
    }

    // ---- what the pool holds of it ---------------------------------------------------------

    ghost predicate BlockIn(store: map<OID, Content>, exact: bool, level: nat, oids: seq<OID>) {
      && |KindName(level)| == 4
      && Block(level, oids) in store
      && (exact ==> store[Block(level, oids)] == Content(KindName(level), Flatten(oids)))
    }

    ghost predicate CarriesIn(store: map<OID, Content>, exact: bool, level: nat, us: seq<OID>)
      requires k >= 1
    {
      |us| <= k || (BlockIn(store, exact, level, us[..k]) && CarriesIn(store, exact, level, us[k..]))
    }

    ghost predicate BlocksIn(store: map<OID, Content>, exact: bool, level: nat, us: seq<OID>)
      requires k >= 1
    {
      CarriesIn(store, exact, level, us) && BlockIn(store, exact, level, Last(us))
    }

    ghost predicate AllIn(store: map<OID, Content>, oids: seq<OID>) {
      forall i :: 0 <= i < |oids| ==> oids[i] in store
    }

    ghost predicate LevelsIn(store: map<OID, Content>, exact: bool, level: nat, us: seq<OID>)
      requires k >= 1
      decreases |us|
    {
      us == [] ||
      (AllIn(store, us) && CarriesIn(store, exact, level, us) && LevelsIn(store, exact, level + 1, Carry(level, us)))
    }

    ghost predicate RowsIn(store: map<OID, Content>, exact: bool, done: nat, leaves: seq<OID>)
      requires k >= 1
    {
      forall i :: 0 <= i < done ==> |Row(i, leaves)| >= 2 && BlocksIn(store, exact, i, Row(i, leaves))
    }

    /** Every chunk of the tree over a row is stored; if `exact`, under no identifier is there another chunk. */
    ghost predicate TreeIn(store: map<OID, Content>, exact: bool, level: nat, us: seq<OID>)
      requires us != [] && k >= 1 && (k >= 2 || |us| == 1)
      decreases |us|
    {
      |us| == 1 || (BlocksIn(store, exact, level, us) && TreeIn(store, exact, level + 1, Up(level, us)))
    }

    // ---- adding one identifier -------------------------------------------------------------

    lemma {:induction false} RowSnoc(level: nat, us: seq<OID>, x: OID)
      requires k >= 1 && us != []
      ensures |Last(us)| < k ==> Last(us + [x]) == Last(us) + [x] && Carry(level, us + [x]) == Carry(level, us)
      ensures |Last(us)| == k ==> Last(us + [x]) == [x] && Carry(level, us + [x]) == Up(level, us)
      decreases |us|
    {
      var vs := us + [x];
      if |us| > k {
        RowSnoc(level, us[k..], x);
        assert vs[..k] == us[..k] && vs[k..] == us[k..] + [x];
        if |Last(us)| == k {
          assert [Block(level, us[..k])] + (Carry(level, us[k..]) + [Block(level, Last(us))]) == Up(level, us);
        }
      } else if |us| == k {
        assert vs[..k] == us && vs[k..] == [x];
        assert Carry(level, [x]) == [];
        assert [Block(level, us)] + [] == [] + [Block(level, us)];
      }
    }

    lemma LevelsSnoc(level: nat, us: seq<OID>, x: OID)
      requires k >= 1
      ensures us == [] ==> Levels(level, us + [x]) == [Flatten([x])]
      ensures us != [] && |Last(us)| < k ==>
        Levels(level, us + [x]) == [Flatten(Last(us)) + x] + Levels(level + 1, Carry(level, us))
      ensures us != [] && |Last(us)| == k ==>
        Levels(level, us + [x]) == [Flatten([x])] + Levels(level + 1, Up(level, us))
    {
      if us == [] {
        assert us + [x] == [x];
        assert Levels(level + 1, []) == [];
      } else {
        RowSnoc(level, us, x);
        FlattenSnoc(Last(us), x);
      }
    }

    lemma {:induction false} CarriesSnoc(store: map<OID, Content>, exact: bool, level: nat, us: seq<OID>, x: OID)
      requires k >= 1 && us != [] && CarriesIn(store, exact, level, us)
      requires |Last(us)| == k ==> BlockIn(store, exact, level, Last(us))
      ensures CarriesIn(store, exact, level, us + [x])
      decreases |us|
    {
      var vs := us + [x];
      if |us| > k {
        CarriesSnoc(store, exact, level, us[k..], x);
        assert vs[..k] == us[..k] && vs[k..] == us[k..] + [x];
      } else if |us| == k {
        assert vs[..k] == us && vs[k..] == [x];
      }
    }

    lemma LevelsInSnoc(store: map<OID, Content>, exact: bool, level: nat, us: seq<OID>, x: OID)
      requires k >= 1 && LevelsIn(store, exact, level, us) && x in store
      requires us != [] && |Last(us)| == k ==>
        BlockIn(store, exact, level, Last(us)) && LevelsIn(store, exact, level + 1, Up(level, us))
      ensures LevelsIn(store, exact, level, us + [x])
    {
      if us == [] {
        assert us + [x] == [x];
        assert Carry(level, [x]) == [];
      } else {
        RowSnoc(level, us, x);
        CarriesSnoc(store, exact, level, us, x);
      }
    }

    lemma {:induction false} BlockInGrows(s: map<OID, Content>, e: bool, t: map<OID, Content>, f: bool,
                                          level: nat, us: seq<OID>)
      requires SubMap(s, t) && (f ==> e) && BlockIn(s, e, level, us)
      ensures BlockIn(t, f, level, us)
    {
    }

    lemma {:induction false} CarriesGrow(s: map<OID, Content>, e: bool, t: map<OID, Content>, f: bool,
                                         level: nat, us: seq<OID>)
      requires k >= 1 && SubMap(s, t) && (f ==> e) && CarriesIn(s, e, level, us)
      ensures CarriesIn(t, f, level, us)
      decreases |us|
    {
      if |us| > k {
        CarriesGrow(s, e, t, f, level, us[k..]);
      }
    }

    lemma {:induction false} LevelsGrow(s: map<OID, Content>, e: bool, t: map<OID, Content>, f: bool,
                                        level: nat, us: seq<OID>)
      requires k >= 1 && SubMap(s, t) && (f ==> e) && LevelsIn(s, e, level, us)
      ensures LevelsIn(t, f, level, us)
      decreases |us|
    {
      if us != [] {
        CarriesGrow(s, e, t, f, level, us);
        LevelsGrow(s, e, t, f, level + 1, Carry(level, us));
      }
    }

    lemma RowsGrow(s: map<OID, Content>, e: bool, t: map<OID, Content>, f: bool, done: nat, leaves: seq<OID>)
      requires k >= 1 && SubMap(s, t) && (f ==> e) && RowsIn(s, e, done, leaves)
      ensures RowsIn(t, f, done, leaves)
    {
      forall i | 0 <= i < done ensures BlocksIn(t, f, i, Row(i, leaves)) {
        CarriesGrow(s, e, t, f, i, Row(i, leaves));
      }
    }

    lemma {:induction false} LevelsCount(level: nat, us: seq<OID>)
      requires k >= 1 && us != []
      ensures Levels(level, us) != []
      ensures |Levels(level, us)| == 1 <==> |us| <= k
    {
      assert us == [] <==> Levels(level, us) == [];
      assert Levels(level + 1, Carry(level, us)) == [] <==> Carry(level, us) == [];
    }

    // ---- the offline algorithm agrees ------------------------------------------------------

    /** Complete rows, each of two or more, up to a row of one: its identifier is the root of the leaves,
        and the whole tree is stored. */
    lemma {:induction false} RootFromRow(store: map<OID, Content>, exact: bool, done: nat, from: nat, leaves: seq<OID>)
      requires k >= 2 && leaves != [] && from <= done && RowsIn(store, exact, done, leaves) && |Row(done, leaves)| == 1
      ensures Row(from, leaves) != [] && Root(from, Row(from, leaves)) == Row(done, leaves)[0]
      ensures TreeIn(store, exact, from, Row(from, leaves))
      decreases done - from
    {
      if from < done {
        RootFromRow(store, exact, done, from + 1, leaves);
        assert BlocksIn(store, exact, from, Row(from, leaves));
      }
    }
  }
}
