/**
 The dictionary-backed product grouper (`ProductGrouper_dict` in utils/product_grouper.py).

 `ProductGrouper_dict` keeps, per relation, a dictionary from identifier to a mutable set object, and
 several identifiers may share (alias) one set object. Here every set object lives in an
 arena, a `seq<set<int>>`, and an identifier holds the arena position of its object, so that
 aliasing is explicit: two identifiers share an object exactly when they hold the same index.
 */
module ProductGrouper {

  /** One relation's dictionary `id_to_set`: `index[x]` is the arena position of x's set object. */
  datatype IdToSet = IdToSet(index: map<int, nat>, arena: seq<set<int>>)

  /** Both dictionaries: `same` for target = True rows, `different` for target = False rows. */
  datatype Grouper = Grouper(same: IdToSet, different: IdToSet)

  /** One input row `(target, id1, id2)`. */
  datatype Observation = Observation(target: bool, id1: int, id2: int)

  const EmptyIdToSet: IdToSet := IdToSet(map[], [])

  /** The state right after `ProductGrouper_dict.__init__`. */
  const EmptyGrouper: Grouper := Grouper(EmptyIdToSet, EmptyIdToSet)

  /** Every identifier refers to an existing set object. */
  ghost predicate Valid(r: IdToSet) {
    forall x :: x in r.index ==> r.index[x] < |r.arena|
  }

  /** The contents of the set object that x currently refers to (`id_to_set[x]`). */
  function GroupOf(r: IdToSet, x: int): set<int>
    requires Valid(r) && x in r.index
  {
    r.arena[r.index[x]]
  }

  /**
   The invariant `insert` keeps: every registered identifier is a member of the object it refers
   to, and every member of every object ever created is a registered identifier.
   */
  ghost predicate WellFormed(r: IdToSet) {
    && Valid(r)
    && (forall x :: x in r.index ==> x in r.arena[r.index[x]])
    && (forall k, y :: 0 <= k < |r.arena| && y in r.arena[k] ==> y in r.index)
  }

  /**
   `insert(id1, id2, target)` restricted to the dictionary `target` selects. The four branches
   are the four combinations of "id1 seen" and "id2 seen". In the merge branch id2's object is
   unioned into id1's object and only id2 is re-pointed: the other identifiers that shared id2's
   old object keep referring to it.
   */
  function InsertInto(r: IdToSet, id1: int, id2: int): (r': IdToSet)
    requires Valid(r)
    ensures Valid(r')
    ensures r'.index.Keys == r.index.Keys + {id1, id2}
    ensures r'.index[id1] == r'.index[id2]
    ensures |r.arena| <= |r'.arena|
    ensures forall k :: 0 <= k < |r.arena| ==> r.arena[k] <= r'.arena[k]
    ensures forall x :: x in r.index && x != id2 ==> r'.index[x] == r.index[x]
  {
    if id1 in r.index && id2 in r.index then
      var k1 := r.index[id1];
      var k2 := r.index[id2];
      IdToSet(r.index[id2 := k1], r.arena[k1 := r.arena[k1] + r.arena[k2]])
    else if id1 in r.index then
      var k1 := r.index[id1];
      IdToSet(r.index[id2 := k1], r.arena[k1 := r.arena[k1] + {id2}])
    else if id2 in r.index then
      var k2 := r.index[id2];
      IdToSet(r.index[id1 := k2], r.arena[k2 := r.arena[k2] + {id1}])
    else
      var k := |r.arena|;
      IdToSet(r.index[id1 := k][id2 := k], r.arena + [{id1, id2}])
  }

  /** The dictionary a row with this target goes to. */
  function Relation(g: Grouper, target: bool): IdToSet {
    if target then g.same else g.different
  }

  ghost predicate ValidGrouper(g: Grouper) {
    Valid(g.same) && Valid(g.different)
  }

  ghost predicate WellFormedGrouper(g: Grouper) {
    WellFormed(g.same) && WellFormed(g.different)
  }

  /** `ProductGrouper_dict.insert`: only the dictionary selected by `target` changes. */
  function Insert(g: Grouper, id1: int, id2: int, target: bool): (g': Grouper)
    requires ValidGrouper(g)
    ensures ValidGrouper(g')
    ensures Relation(g', !target) == Relation(g, !target)
    ensures Relation(g', target).index.Keys == Relation(g, target).index.Keys + {id1, id2}
  {
    if target then Grouper(InsertInto(g.same, id1, id2), g.different)
    else Grouper(g.same, InsertInto(g.different, id1, id2))
  }

  // ---------------------------------------------------------------------------------------
  // Properties of one insertion
  // ---------------------------------------------------------------------------------------

  /** After an insertion both identifiers refer to one object, which contains both of them. */
  lemma InsertJoinsPair(r: IdToSet, id1: int, id2: int)
    requires WellFormed(r)
    ensures var r' := InsertInto(r, id1, id2);
      && WellFormed(r')
      && r'.index[id1] == r'.index[id2]
      && id1 in GroupOf(r', id1) && id2 in GroupOf(r', id1)
  {
    var r' := InsertInto(r, id1, id2);
    forall k, y | 0 <= k < |r'.arena| && y in r'.arena[k]
      ensures y in r'.index
    {
      if k < |r.arena| && id1 in r.index && id2 in r.index && k == r.index[id1] {
        assert y in r.arena[k] || y in r.arena[r.index[id2]];
      }
    }
  }

  /** Neither identifier seen: a fresh object holding exactly {id1, id2} is shared by both. */
  lemma InsertFreshGroup(r: IdToSet, id1: int, id2: int)
    requires Valid(r) && id1 !in r.index && id2 !in r.index
    ensures var r' := InsertInto(r, id1, id2);
      && GroupOf(r', id1) == {id1, id2}
      && r'.arena[..|r.arena|] == r.arena
      && forall x :: x in r.index ==> r'.index[x] != r'.index[id1]
  {
  }

  /** Exactly one identifier seen: the unseen one joins the seen one's object, nothing else moves. */
  lemma InsertJoinsExisting(r: IdToSet, id1: int, id2: int)
    requires Valid(r)
    requires (id1 in r.index) != (id2 in r.index)
    ensures var r' := InsertInto(r, id1, id2);
      var seen := if id1 in r.index then id1 else id2;
      var unseen := if id1 in r.index then id2 else id1;
      && |r'.arena| == |r.arena|
      && r'.index[unseen] == r.index[seen]
      && GroupOf(r', seen) == GroupOf(r, seen) + {unseen}
      && forall x :: x in r.index ==> r'.index[x] == r.index[x]
  {
  }

  /**
   Both identifiers seen: id1's object absorbs id2's old object and id2 is re-pointed to it.
   Every other identifier that shared id2's old object still refers to that old, smaller object,
   whose contents are unchanged.
   */
  lemma InsertMergeRepointsOnlyId2(r: IdToSet, id1: int, id2: int)
    requires Valid(r) && id1 in r.index && id2 in r.index
    ensures var r' := InsertInto(r, id1, id2);
      && |r'.arena| == |r.arena|
      && r'.index[id2] == r.index[id1]
      && GroupOf(r, id2) <= GroupOf(r', id2)
      && GroupOf(r', id1) == GroupOf(r, id1) + GroupOf(r, id2)
      && forall x :: x in r.index && x != id2 && r.index[x] == r.index[id2] ==>
           r'.index[x] == r.index[id2] && (r.index[id1] != r.index[id2] ==> GroupOf(r', x) == GroupOf(r, x))
  {
  }

  /** Re-inserting a pair that already shares one object changes nothing at all. */
  lemma InsertIdempotent(r: IdToSet, id1: int, id2: int)
    requires Valid(r) && id1 in r.index && id2 in r.index && r.index[id1] == r.index[id2]
    ensures InsertInto(r, id1, id2) == r
  {
    var k := r.index[id1];
    assert r.arena[k] + r.arena[k] == r.arena[k];
    assert r.arena[k := r.arena[k]] == r.arena;
    assert r.index[id2 := k] == r.index;
  }

  /** Inserting the same row twice in a row is the same as inserting it once. */
  lemma InsertTwiceIsOnce(r: IdToSet, id1: int, id2: int)
    requires Valid(r)
    ensures InsertInto(InsertInto(r, id1, id2), id1, id2) == InsertInto(r, id1, id2)
  {
    InsertIdempotent(InsertInto(r, id1, id2), id1, id2);
  }

  /**
   The contents an identifier sees never shrink: its object only grows, and when it is
   re-pointed it moves to an object that contains its old one.
   */
  lemma InsertGrowsGroupOf(r: IdToSet, id1: int, id2: int)
    requires Valid(r)
    ensures var r' := InsertInto(r, id1, id2);
      forall x :: x in r.index ==> GroupOf(r, x) <= GroupOf(r', x)
  {
  }

  /**
   Inserting (a, b) and then (b, c) leaves a, b and c referring to one object that holds all
   three, from any state that keeps the invariant.
   */
  lemma InsertChainShares(r: IdToSet, a: int, b: int, c: int)
    requires WellFormed(r)
    ensures var r'' := InsertInto(InsertInto(r, a, b), b, c);
      && r''.index[a] == r''.index[b] == r''.index[c]
      && {a, b, c} <= GroupOf(r'', a)
  {
    var r' := InsertInto(r, a, b);
    InsertJoinsPair(r, a, b);
    InsertJoinsPair(r', b, c);
  }

  // ---------------------------------------------------------------------------------------
  // Extraction: `get_same_product_sets` / `get_different_product_sets`
  // ---------------------------------------------------------------------------------------

  /** The distinct contents of the objects the dictionary's values refer to. */
  function Contents(r: IdToSet): set<set<int>>
    requires Valid(r)
  {
    set x | x in r.index :: GroupOf(r, x)
  }

  /**
   `set(frozenset(v) for v in id_to_set.values())`: one entry per distinct content, however
   many identifiers alias the object. The arena is walked once and an object is collected when
   some identifier refers to it.
   */
  method GetSets(r: IdToSet) returns (groups: set<set<int>>)
    requires Valid(r)
    ensures forall x :: x in r.index ==> GroupOf(r, x) in groups
    ensures forall s :: s in groups ==> exists x :: x in r.index && GroupOf(r, x) == s
  {
    groups := {};
    var k := 0;
    while k < |r.arena|
      invariant 0 <= k <= |r.arena|
      invariant forall x :: x in r.index && r.index[x] < k ==> GroupOf(r, x) in groups
      invariant forall s :: s in groups ==> exists x :: x in r.index && GroupOf(r, x) == s
    {
      if exists x :: x in r.index && r.index[x] == k {
        groups := groups + {r.arena[k]};
      }
      k := k + 1;
    }
  }

  method GetSameProductSets(g: Grouper) returns (groups: set<set<int>>)
    requires ValidGrouper(g)
    ensures groups == Contents(g.same)
  {
    groups := GetSets(g.same);
  }

  method GetDifferentProductSets(g: Grouper) returns (groups: set<set<int>>)
    requires ValidGrouper(g)
    ensures groups == Contents(g.different)
  {
    groups := GetSets(g.different);
  }

  /** Under the invariant the extracted sets cover exactly the registered identifiers. */
  lemma ContentsCoverRegistered(r: IdToSet)
    requires WellFormed(r)
    ensures forall x :: x in r.index ==> exists s :: s in Contents(r) && x in s
    ensures forall s, y :: s in Contents(r) && y in s ==> y in r.index
  {
    forall x | x in r.index
      ensures exists s :: s in Contents(r) && x in s
    {
      assert GroupOf(r, x) in Contents(r);
    }
    forall s, y | s in Contents(r) && y in s
      ensures y in r.index
    {
      var x :| x in r.index && GroupOf(r, x) == s;
      assert y in r.arena[r.index[x]];
    }
  }

  // ---------------------------------------------------------------------------------------
  // `get_product_groups`: a left fold of `insert` over the rows
  // ---------------------------------------------------------------------------------------

  /** The state after inserting every row, in order, into a fresh grouper. */
  function Build(rows: seq<Observation>): (g: Grouper)
    ensures WellFormedGrouper(g)
  {
    if rows == [] then EmptyGrouper
    else
      var g0 := Build(rows[..|rows| - 1]);
      var o := rows[|rows| - 1];
      InsertJoinsPair(Relation(g0, o.target), o.id1, o.id2);
      Insert(g0, o.id1, o.id2, o.target)
  }

  /** The identifiers mentioned by the rows with the given target. */
  function Seen(rows: seq<Observation>, target: bool): set<int> {
    if rows == [] then {}
    else
      var o := rows[|rows| - 1];
      Seen(rows[..|rows| - 1], target) + (if o.target == target then {o.id1, o.id2} else {})
  }

  /** The identifiers registered in each dictionary are exactly those the rows mention. */
  lemma {:induction false} BuildRegistersSeen(rows: seq<Observation>, target: bool)
    ensures Relation(Build(rows), target).index.Keys == Seen(rows, target)
  {
    if rows != [] {
      BuildRegistersSeen(rows[..|rows| - 1], target);
    }
  }

  /** Both ids of a row are related in its dictionary: each is in the other's object. */
  ghost predicate Related(r: IdToSet, a: int, b: int) {
    Valid(r) && a in r.index && b in r.index && b in GroupOf(r, a) && a in GroupOf(r, b)
  }

  /**
   Every row's pair stays related in its dictionary after all later rows: the object an identifier
   refers to only grows (even though two related identifiers may end up referring to different
   objects).
   */
  lemma {:induction false} BuildRelatesEveryRow(rows: seq<Observation>)
    ensures forall i :: 0 <= i < |rows| ==>
      Related(Relation(Build(rows), rows[i].target), rows[i].id1, rows[i].id2)
  {
    if rows != [] {
      var prefix := rows[..|rows| - 1];
      var o := rows[|rows| - 1];
      var g0 := Build(prefix);
      BuildRelatesEveryRow(prefix);
      InsertJoinsPair(Relation(g0, o.target), o.id1, o.id2);
      InsertGrowsGroupOf(Relation(g0, o.target), o.id1, o.id2);
      forall i | 0 <= i < |rows|
        ensures Related(Relation(Build(rows), rows[i].target), rows[i].id1, rows[i].id2)
      {
        if i < |rows| - 1 {
          assert rows[i] == prefix[i];
        }
      }
    }
  }

  /** The loop of `get_product_groups`: insert every row, in order, into a fresh grouper. */
  method InsertAll(rows: seq<Observation>) returns (g: Grouper)
    ensures g == Build(rows)
    ensures forall i :: 0 <= i < |rows| ==>
      Related(Relation(g, rows[i].target), rows[i].id1, rows[i].id2)
  {
    g := EmptyGrouper;
    var i := 0;
    while i < |rows|
      invariant 0 <= i <= |rows|
      invariant g == Build(rows[..i])
    {
      assert rows[..i + 1][..i] == rows[..i];
      g := Insert(g, rows[i].id1, rows[i].id2, rows[i].target);
      i := i + 1;
    }
    assert rows[..i] == rows;
    BuildRelatesEveryRow(rows);
  }

  /** Some extracted set of the relation holds both identifiers. */
  ghost predicate Together(r: IdToSet, a: int, b: int)
    requires Valid(r)
  {
    exists s :: s in Contents(r) && a in s && b in s
  }

  /** Every related pair lies together in some extracted set. */
  lemma RelatedPairExtracted(r: IdToSet, a: int, b: int)
    requires WellFormed(r) && Related(r, a, b)
    ensures Together(r, a, b)
  {
    assert GroupOf(r, a) in Contents(r) && a in GroupOf(r, a);
  }

  /** After the fold, every row's pair lies together in some extracted set of its relation. */
  lemma BuildExtractsEveryPair(rows: seq<Observation>)
    ensures forall i :: 0 <= i < |rows| ==>
      Together(Relation(Build(rows), rows[i].target), rows[i].id1, rows[i].id2)
  {
    BuildRelatesEveryRow(rows);
    forall i | 0 <= i < |rows|
      ensures Together(Relation(Build(rows), rows[i].target), rows[i].id1, rows[i].id2)
    {
      RelatedPairExtracted(Relation(Build(rows), rows[i].target), rows[i].id1, rows[i].id2);
    }
  }

  /** After the fold, the extracted sets of a relation cover exactly the ids its rows mention. */
  lemma BuildExtractsSeen(rows: seq<Observation>, target: bool)
    ensures forall y :: y in Seen(rows, target) ==> exists s :: s in Contents(Relation(Build(rows), target)) && y in s
    ensures forall s, y :: s in Contents(Relation(Build(rows), target)) && y in s ==> y in Seen(rows, target)
  {
    BuildRegistersSeen(rows, target);
    ContentsCoverRegistered(Relation(Build(rows), target));
  }

  /**
   `get_product_groups`: insert every row, then extract both relations. Each row's pair lies
   together in some set of its relation, and the sets hold exactly the identifiers the rows mention.
   */
  method GetProductGroups(rows: seq<Observation>) returns (same: set<set<int>>, different: set<set<int>>)
    ensures same == Contents(Relation(Build(rows), true))
    ensures different == Contents(Relation(Build(rows), false))
  {
    var g := InsertAll(rows);
    same := GetSameProductSets(g);
    different := GetDifferentProductSets(g);
  }

  // ---------------------------------------------------------------------------------------
  // The extracted sets are not a partition
  // ---------------------------------------------------------------------------------------

  /**
   Rows (True, 1, 2), (True, 3, 4), (True, 1, 3): the merge re-points 3 but not 4, so 4 still
   refers to the old object {3, 4}, and the same-product sets come out as {1, 2, 3, 4} and
   {3, 4}, which overlap.
   */
  lemma StaleAliasOverlaps()
    ensures var rows := [Observation(true, 1, 2), Observation(true, 3, 4), Observation(true, 1, 3)];
      var same := Contents(Build(rows).same);
      && {1, 2, 3, 4} in same && {3, 4} in same
  {
    var o1, o2, o3 := Observation(true, 1, 2), Observation(true, 3, 4), Observation(true, 1, 3);
    var rows := [o1, o2, o3];
    assert [o1][..0] == [];
    assert [o1, o2][..1] == [o1];
    assert rows[..2] == [o1, o2];
    assert Build([o1]) == Insert(Build([]), 1, 2, true);
    var r1 := Build([o1]).same;
    assert r1 == InsertInto(EmptyIdToSet, 1, 2);
    assert r1 == IdToSet(map[1 := 0, 2 := 0], [{1, 2}]);
    var r2 := Build([o1, o2]).same;
    assert r2 == InsertInto(r1, 3, 4);
    assert r2 == IdToSet(map[1 := 0, 2 := 0, 3 := 1, 4 := 1], [{1, 2}, {3, 4}]);
    var r3 := Build(rows).same;
    assert r3 == InsertInto(r2, 1, 3);
    assert GroupOf(r3, 1) == {1, 2, 3, 4};
    assert GroupOf(r3, 4) == {3, 4};
  }
}
