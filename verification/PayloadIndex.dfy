/**
 * The indexed lookups against "list everything and filter". `listByAccount` equals the filtered list exactly when the
 * `account_id` of the visible rows is NULL or the payload's account; `listByGrantIds` when `grant_id` follows the
 * payload too.
 */
module PayloadIndex {
  import opened Wrappers
  import opened PayloadTable
  import Scopes
  import TextOrder

  // Listings are determined by their members

  predicate Sorted(xs: seq<Artifact>) {
    forall i, j :: 0 <= i < j < |xs| ==> TextOrder.Less(xs[i].id, xs[j].id)
  }

  function Ids(xs: seq<Artifact>): (ids: seq<string>)
    ensures |ids| == |xs| && forall i :: 0 <= i < |xs| ==> ids[i] == xs[i].id
  {
    seq(|xs|, i requires 0 <= i < |xs| => xs[i].id)
  }

  lemma IdsOfMembers(xs: seq<Artifact>, ys: seq<Artifact>)
    requires forall a :: a in xs ==> a in ys
    ensures forall id :: id in Ids(xs) ==> id in Ids(ys)
  {
    forall i | 0 <= i < |xs|
      ensures Ids(xs)[i] in Ids(ys)
    {
      assert xs[i] in ys;
      var j :| 0 <= j < |ys| && ys[j] == xs[i];
      assert Ids(ys)[j] == Ids(xs)[i];
    }
  }

  lemma SortedUnique(xs: seq<Artifact>, ys: seq<Artifact>)
    requires Sorted(xs) && Sorted(ys)
    requires forall a :: a in xs <==> a in ys
    ensures xs == ys
  {
    IdsOfMembers(xs, ys);
    IdsOfMembers(ys, xs);
    TextOrder.AscendingUnique(Ids(xs), Ids(ys));
    forall i | 0 <= i < |xs|
      ensures xs[i] == ys[i]
    {
      assert xs[i] in ys;
      var j :| 0 <= j < |ys| && ys[j] == xs[i];
      assert Ids(xs)[i] == Ids(ys)[i] == Ids(ys)[j];
      TextOrder.Irreflexive(xs[i].id);
    }
  }

  ghost predicate IsListed(t: Table, model: string, ids: set<string>, a: Artifact) {
    a.id in ids && Key(model, a.id) in t && a.payload == t[Key(model, a.id)].payload
  }

  lemma ArtifactsSorted(t: Table, model: string, ids: set<string>)
    requires InTable(t, model, OrderBy(ids))
    ensures Sorted(Artifacts(t, model, OrderBy(ids)))
    ensures forall a :: a in Artifacts(t, model, OrderBy(ids)) <==> IsListed(t, model, ids, a)
  {
    var order := OrderBy(ids);
    forall a
      ensures a in Artifacts(t, model, order) <==> IsListed(t, model, ids, a)
    {
      if IsListed(t, model, ids, a) {
        assert a.id in order;
        var i :| 0 <= i < |order| && order[i] == a.id;
        assert Artifacts(t, model, order)[i] == a;
      }
      if a in Artifacts(t, model, order) {
        var i :| 0 <= i < |order| && Artifacts(t, model, order)[i] == a;
        assert order[i] in order;
      }
    }
  }

  lemma {:induction false} FilterSorted(xs: seq<Artifact>, w: Wanted)
    requires Sorted(xs)
    ensures Sorted(Filter(xs, w))
    ensures forall a :: a in Filter(xs, w) <==> a in xs && Wants(w, a)
  {
    hide Wants;
    if xs != [] {
      FilterSorted(xs[1..], w);
      assert xs == [xs[0]] + xs[1..];
      var rest := Filter(xs[1..], w);
      forall i | 0 <= i < |rest|
        ensures TextOrder.Less(xs[0].id, rest[i].id)
      {
        assert rest[i] in xs[1..];
        var j :| 0 <= j < |xs[1..]| && xs[1..][j] == rest[i];
        assert xs[j + 1] == rest[i];
      }
    }
  }

  // By account

  /** NULL, or the account in the payload when the payload has one. */
  predicate LabelOK(row: Row) {
    row.payload.accountId.Text? ==> row.accountId.None? || row.accountId == Some(row.payload.accountId.text)
  }

  ghost predicate WellLabelled(t: Table) {
    forall key :: key in t ==> LabelOK(t[key])
  }

  /** No row the account owns, among those a listing shows, carries another account's label. */
  ghost predicate AccountIndexed(t: Table, model: string, account: string, c: Clock) {
    forall id :: id in Visible(t, model, Everything, c) && t[Key(model, id)].payload.accountId == Text(account) ==>
      LabelOK(t[Key(model, id)])
  }

  lemma ListMembers(t: Table, model: string, c: Clock)
    ensures Sorted(List(t, model, c))
    ensures forall a :: a in List(t, model, c) <==> IsListed(t, model, Visible(t, model, Everything, c), a)
  {
    ArtifactsSorted(t, model, Visible(t, model, Everything, c));
  }

  lemma ListByAccountMembers(t: Table, model: string, account: string, c: Clock)
    ensures Sorted(ListByAccount(t, model, account, c))
    ensures forall a :: a in ListByAccount(t, model, account, c) <==>
      IsListed(t, model, Visible(t, model, OfAccount(account), c), a) && Owns(a, account)
  {
    var ids := Visible(t, model, OfAccount(account), c);
    ArtifactsSorted(t, model, ids);
    FilterSorted(Artifacts(t, model, OrderBy(ids)), OwnedByAccount(account));
  }

  /** The account index answers as the filtered list does, in the same order, if and only if no label misleads it. */
  lemma ListByAccountExact(t: Table, model: string, account: string, c: Clock)
    ensures ListByAccount(t, model, account, c) == OwnedBy(List(t, model, c), account)
      <==> AccountIndexed(t, model, account, c)
  {
    var found, all := ListByAccount(t, model, account, c), OwnedBy(List(t, model, c), account);
    ListByAccountMembers(t, model, account, c);
    ListMembers(t, model, c);
    FilterSorted(List(t, model, c), OwnedByAccount(account));
    if AccountIndexed(t, model, account, c) {
      forall a
        ensures a in found <==> a in all
      {
      }
      SortedUnique(found, all);
    }
    if found == all {
      forall id | id in Visible(t, model, Everything, c) && t[Key(model, id)].payload.accountId == Text(account)
        ensures LabelOK(t[Key(model, id)])
      {
        var a := Artifact(id, t[Key(model, id)].payload);
        assert IsListed(t, model, Visible(t, model, Everything, c), a);
        assert a in all && a in found;
      }
    }
  }

  // By grant

  function Flatten(chunks: seq<seq<string>>): seq<string> {
    if chunks == [] then [] else chunks[0] + Flatten(chunks[1..])
  }

  function Members(xs: seq<string>): (s: set<string>)
    ensures forall x :: x in s <==> x in xs
  {
    set x | x in xs
  }

  /** Every visible row whose payload refers to one of the grants is filed under one of them. */
  ghost predicate GrantsIndexed(t: Table, model: string, grants: set<string>, c: Clock) {
    forall id :: id in Visible(t, model, Everything, c) && Refers(Artifact(id, t[Key(model, id)].payload), grants) ==>
      t[Key(model, id)].grantId.Some? && t[Key(model, id)].grantId.value in grants
  }

  /** What the chunked queries return together. */
  ghost predicate IsReferred(t: Table, model: string, filed: set<string>, wanted: set<string>, c: Clock, a: Artifact) {
    IsListed(t, model, Visible(t, model, OfGrants(filed), c), a) && Refers(a, wanted)
  }

  lemma ChunkMembers(t: Table, model: string, chunk: seq<string>, wanted: set<string>, c: Clock)
    ensures Sorted(ListChunk(t, model, chunk, wanted, c))
    ensures forall a :: a in ListChunk(t, model, chunk, wanted, c) <==>
      IsReferred(t, model, Members(chunk), wanted, c, a)
  {
    var ids := Visible(t, model, OfGrants(Members(chunk)), c);
    assert Members(chunk) == set g | g in chunk;
    ArtifactsSorted(t, model, ids);
    FilterSorted(Artifacts(t, model, OrderBy(ids)), OfAnyGrant(wanted));
  }

  predicate DistinctIds(xs: seq<Artifact>) {
    forall i, j :: 0 <= i < j < |xs| ==> xs[i].id != xs[j].id
  }

  lemma DistinctTail(xs: seq<string>, ys: seq<string>)
    requires Scopes.Distinct(xs + ys)
    ensures Scopes.Distinct(ys)
    ensures forall x :: x in xs ==> x !in ys
  {
    var all := xs + ys;
    assert forall i :: 0 <= i < |ys| ==> ys[i] == all[|xs| + i];
    assert forall i :: 0 <= i < |xs| ==> xs[i] == all[i];
  }

  lemma {:induction false} ChunksMembers(
      t: Table, model: string, chunks: seq<seq<string>>, wanted: set<string>, c: Clock)
    requires Scopes.Distinct(Flatten(chunks))
    ensures DistinctIds(ListChunks(t, model, chunks, wanted, c))
    ensures forall a :: a in ListChunks(t, model, chunks, wanted, c) <==>
      IsReferred(t, model, Members(Flatten(chunks)), wanted, c, a)
  {
    if chunks != [] {
      var xs, ys := ListChunk(t, model, chunks[0], wanted, c), ListChunks(t, model, chunks[1..], wanted, c);
      DistinctTail(chunks[0], Flatten(chunks[1..]));
      ChunksMembers(t, model, chunks[1..], wanted, c);
      ChunkMembers(t, model, chunks[0], wanted, c);
      SortedDistinct(xs);
      forall i, j | 0 <= i < |xs| && 0 <= j < |ys|
        ensures xs[i].id != ys[j].id
      {
        assert xs[i] in xs && ys[j] in ys;
      }
    }
  }

  lemma SortedDistinct(xs: seq<Artifact>)
    requires Sorted(xs)
    ensures DistinctIds(xs)
  {
    forall i, j | 0 <= i < j < |xs|
      ensures xs[i].id != xs[j].id
    {
      TextOrder.Irreflexive(xs[i].id);
    }
  }

  lemma {:induction false} CountOnce(xs: seq<Artifact>, a: Artifact)
    requires DistinctIds(xs)
    ensures multiset(xs)[a] == if a in xs then 1 else 0
  {
    if xs != [] {
      assert xs == [xs[0]] + xs[1..];
      CountOnce(xs[1..], a);
      assert forall j :: 0 <= j < |xs[1..]| ==> xs[1..][j] == xs[j + 1];
    }
  }

  lemma SameMembersSameMultiset(xs: seq<Artifact>, ys: seq<Artifact>)
    requires DistinctIds(xs) && DistinctIds(ys)
    ensures multiset(xs) == multiset(ys) <==> forall a :: a in xs <==> a in ys
  {
    if forall a :: a in xs <==> a in ys {
      forall a
        ensures multiset(xs)[a] == multiset(ys)[a]
      {
        CountOnce(xs, a);
        CountOnce(ys, a);
      }
    } else {
      var a :| (a in xs) != (a in ys);
      CountOnce(xs, a);
      CountOnce(ys, a);
    }
  }

  /**
   * Chunked by any cut of the distinct wanted grants, the grant index returns the artefacts of the filtered list, each
   * as often as the list does, if and only if the rows concerned are filed under a wanted grant.
   */
  lemma ListByGrantsExact(t: Table, model: string, chunks: seq<seq<string>>, c: Clock)
    requires Scopes.Distinct(Flatten(chunks))
    ensures
      multiset(ListChunks(t, model, chunks, Members(Flatten(chunks)), c))
        == multiset(Referring(List(t, model, c), Members(Flatten(chunks))))
      <==> GrantsIndexed(t, model, Members(Flatten(chunks)), c)
  {
    hide ListChunks, List, Referring, GrantsIndexed;
    var wanted := Members(Flatten(chunks));
    var found, all := ListChunks(t, model, chunks, wanted, c), Referring(List(t, model, c), wanted);
    ChunksMembers(t, model, chunks, wanted, c);
    ReferringMembers(t, model, wanted, c);
    SameMembersSameMultiset(found, all);
    if GrantsIndexed(t, model, wanted, c) { IndexedReferred(t, model, wanted, c); }
    if multiset(found) == multiset(all) { ReferredIndexed(t, model, wanted, c); }
  }

  ghost predicate IsWanted(t: Table, model: string, wanted: set<string>, c: Clock, a: Artifact) {
    IsListed(t, model, Visible(t, model, Everything, c), a) && Refers(a, wanted)
  }

  lemma ReferringMembers(t: Table, model: string, wanted: set<string>, c: Clock)
    ensures DistinctIds(Referring(List(t, model, c), wanted))
    ensures forall a :: a in Referring(List(t, model, c), wanted) <==> IsWanted(t, model, wanted, c, a)
  {
    ListMembers(t, model, c);
    FilterSorted(List(t, model, c), OfAnyGrant(wanted));
    SortedDistinct(Referring(List(t, model, c), wanted));
  }

  lemma IndexedReferred(t: Table, model: string, wanted: set<string>, c: Clock)
    requires GrantsIndexed(t, model, wanted, c)
    ensures forall a :: IsReferred(t, model, wanted, wanted, c, a) <==> IsWanted(t, model, wanted, c, a)
  {
    hide SqlLive;
  }

  lemma ReferredIndexed(t: Table, model: string, wanted: set<string>, c: Clock)
    requires forall a :: IsWanted(t, model, wanted, c, a) ==> IsReferred(t, model, wanted, wanted, c, a)
    ensures GrantsIndexed(t, model, wanted, c)
  {
    hide SqlLive;
    forall id | id in Visible(t, model, Everything, c) && Refers(Artifact(id, t[Key(model, id)].payload), wanted)
      ensures t[Key(model, id)].grantId.Some? && t[Key(model, id)].grantId.value in wanted
    {
      assert IsWanted(t, model, wanted, c, Artifact(id, t[Key(model, id)].payload));
    }
  }
}
