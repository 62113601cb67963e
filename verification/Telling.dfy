/** From stored chunks to the traversal of a tree. */
module Telling {
  import opened Base
  import opened Text
  import opened Chunks
  import opened Pool
  import opened Props
  import opened Decode
  import opened Visitors
  import opened Stories
  import opened Files
  import opened Trees
  import opened Indirect
  import opened DirWriters

  lemma {:induction false} StoryEntriesAt(r: Repo, es: seq<Entry>, i: nat)
    requires Closed(r) && i < |es|
    ensures |StoryEntries(r, es)| == |es| && StoryEntries(r, es)[i] == Scope(es[i].name, Story(r, es[i].oid))
  {
    if i > 0 {
      StoryEntriesAt(r, es[1..], i - 1);
    } else if |es| > 1 {
      StoryEntriesAt(r, es[1..], 0);
    } else {
      assert es[1..] == [];
    }
  }

  ghost predicate NodeIn(r: Repo, oid: OID, p: PropertyMap) {
    oid in r.store && r.store[oid] == Content("node", Encoded(p)) && Encodable(p)
  }

  lemma LinkOf(t: Tree, link: OID)
    requires !t.Other?
    ensures NodeLink(LinkedProps(t, link)) == OidText(link) && ParseOid(OidText(link)) == Some(link)
    ensures NodeKindOf(LinkedProps(t, link).kind) == if t.Dir? then DirNode else RegNode
  {
    OidTextRoundTrip(link);
  }

  lemma TellsReg(r: Repo, oid: OID, t: Tree, link: OID, fit: Fit)
    requires Closed(r) && t.Reg? && NodeIn(r, oid, LinkedProps(t, link))
    requires BlobData(Story(r, link)) == Some(Concat(t.pieces)) && fit(link, t)
    ensures Tells(Story(r, oid), t, fit)
  {
    hide LinkedProps, Encoded, Story, BlobData, NodeLink, Decoded, NodeKindOf;
    DecodeEncode(LinkedProps(t, link));
    LinkOf(t, link);
    StoryOfNode(r, oid, LinkedProps(t, link));
    assert Story(r, oid) == [RegStep(t, link, Story(r, link))];
  }

  lemma TellsDir(r: Repo, oid: OID, t: Tree, link: OID, es: seq<Entry>, fit: Fit)
    requires Closed(r) && t.Dir? && NodeIn(r, oid, LinkedProps(t, link))
    requires Story(r, link) == StoryEntries(r, es) && KidsTold(r, es, t.kids, fit)
    ensures Tells(Story(r, oid), t, fit)
  {
    hide LinkedProps, Encoded, Story, StoryEntries, NodeLink, Decoded, NodeKindOf;
    DecodeEncode(LinkedProps(t, link));
    LinkOf(t, link);
    StoryOfNode(r, oid, LinkedProps(t, link));
    KidsTell(r, es, t.kids, fit);
    assert Story(r, oid) == [DirStep(t, link, Story(r, link))];
  }

  lemma TellsOther(r: Repo, oid: OID, t: Tree, fit: Fit)
    requires Closed(r) && t.Other? && NodeIn(r, oid, PropsOf(t))
    ensures Tells(Story(r, oid), t, fit)
  {
    hide Encoded, Story, Decoded;
    DecodeEncode(PropsOf(t));
    StoryOfNode(r, oid, PropsOf(t));
  }

  /** Each entry names its child and tells it. */
  ghost predicate KidsTold(r: Repo, es: seq<Entry>, kids: seq<Child>, fit: Fit)
    requires Closed(r)
  {
    && |es| == |kids|
    && forall i :: 0 <= i < |es| ==>
         es[i].oid in r.store && es[i].name == kids[i].name && Tells(Story(r, es[i].oid), kids[i].node, fit)
  }

  lemma KidsTell(r: Repo, es: seq<Entry>, kids: seq<Child>, fit: Fit)
    requires Closed(r) && KidsTold(r, es, kids, fit)
    ensures TellsKids(StoryEntries(r, es), kids, fit)
  {
    hide Story, StoryEntries, Tells;
    if es == [] {
      NoEntries(r);
    }
    forall i | 0 <= i < |es| ensures
      |StoryEntries(r, es)| == |es| && StoryEntries(r, es)[i] == Scope(es[i].name, Story(r, es[i].oid))
    {
      StoryEntriesAt(r, es, i);
    }
    assert |StoryEntries(r, es)| == |es| by {
      if es != [] {
        StoryEntriesAt(r, es, 0);
      }
    }
  }

  lemma NoEntries(r: Repo)
    requires Closed(r)
    ensures StoryEntries(r, []) == []
  {
  }

  lemma KidsToldGrows(r: Repo, s: Repo, es: seq<Entry>, kids: seq<Child>, fit: Fit)
    requires Closed(r) && Closed(s) && Extends(r, s) && KidsTold(r, es, kids, fit)
    ensures KidsTold(s, es, kids, fit)
  {
    hide Story, Tells;
    forall i | 0 <= i < |es| ensures Story(s, es[i].oid) == Story(r, es[i].oid) && es[i].oid in s.store {
      StoryStable(r, s, es[i].oid);
    }
  }

  lemma KidsToldSnoc(r: Repo, es: seq<Entry>, kids: seq<Child>, e: Entry, fit: Fit)
    requires Closed(r) && |es| < |kids| && KidsTold(r, es, kids[..|es|], fit)
    requires e.oid in r.store && e.name == kids[|es|].name && Tells(Story(r, e.oid), kids[|es|].node, fit)
    ensures KidsTold(r, es + [e], kids[..|es| + 1], fit)
  {
    hide Closed, Story, Tells;
    assert forall i :: 0 <= i < |es| ==> kids[..|es| + 1][i] == kids[..|es|][i];
  }

  // ---- identifiers that depend on the tree alone -------------------------------------------

  function DirFamily(hash: Hash): Family {
    Family(DIR_LIMIT / OID_LEN, hash, "dir")
  }

  /** The identifier under which `writeNode` stores a node. */
  ghost function NodeOid(hash: Hash, p: PropertyMap): OID {
    hash("node", Encoded(p))
  }

  /** The identifier of a node as the hash of its contents, with nothing but the tree to go by. */
  ghost function NodeId(hash: Hash, t: Tree): OID
    decreases t, 1
  {
    match t
    case Reg(_, pieces) => NodeOid(hash, LinkedProps(t, FileRoot(hash, pieces)))
    case Dir(_, kids) => NodeOid(hash, LinkedProps(t, DirRoot(DirFamily(hash), DIR_LIMIT, KidEntries(hash, kids))))
    case Other(_, _, _) => NodeOid(hash, PropsOf(t))
  }

  ghost function KidEntries(hash: Hash, kids: seq<Child>): (es: seq<Entry>)
    ensures |es| == |kids|
    decreases kids, 0
  {
    if kids == [] then [] else [Entry(kids[0].name, NodeId(hash, kids[0].node))] + KidEntries(hash, kids[1..])
  }

  lemma {:induction false} KidEntriesSnoc(hash: Hash, kids: seq<Child>, i: nat)
    requires i < |kids|
    ensures KidEntries(hash, kids[..i + 1]) ==
      KidEntries(hash, kids[..i]) + [Entry(kids[i].name, NodeId(hash, kids[i].node))]
  {
    hide NodeId;
    var a, b, last := kids[..i + 1], kids[..i], [Entry(kids[i].name, NodeId(hash, kids[i].node))];
    if i == 0 {
      assert a == [kids[0]] && a[1..] == [] && b == [];
    } else {
      KidEntriesSnoc(hash, kids[1..], i - 1);
      assert a[1..] == kids[1..][..i] && b[1..] == kids[1..][..i - 1];
      var first := [Entry(kids[0].name, NodeId(hash, kids[0].node))];
      assert first + (KidEntries(hash, b[1..]) + last) == first + KidEntries(hash, b[1..]) + last;
    }
  }
}
