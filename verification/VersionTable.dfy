/** The table of stored versions and the pruning of all but the newest of one file. */
module VersionTables {
  import opened Prelude
  import Worlds

  datatype RowId = RowId(number: int)

  /** created has a granularity of one second, so rows can share it. */
  datatype VersionRow = VersionRow(job: int, path: string, stored: string, created: int)

  /** The rows of one file. */
  function VersionsOf(rows: map<RowId, VersionRow>, job: int, path: string): set<RowId> {
    set id | id in rows && rows[id].job == job && rows[id].path == path
  }

  predicate Distinct(ids: seq<RowId>) {
    forall i, j :: 0 <= i < j < |ids| ==> ids[i] != ids[j]
  }

  /** What an ORDER BY created_at DESC may return: newest first, rows of the same time in any order. */
  ghost predicate NewestFirst(rows: map<RowId, VersionRow>, ids: set<RowId>, order: seq<RowId>) {
    && (forall id :: id in order <==> id in ids)
    && Distinct(order)
    && (forall i, j :: 0 <= i < j < |order| && order[i] in rows && order[j] in rows ==>
          rows[order[i]].created >= rows[order[j]].created)
  }

  function Elems(ids: seq<RowId>): set<RowId> {
    set i | 0 <= i < |ids| :: ids[i]
  }

  lemma {:induction false} DistinctCount(ids: seq<RowId>)
    requires Distinct(ids)
    ensures |Elems(ids)| == |ids|
  {
    if ids == [] {
    } else {
      var init, last := ids[..|ids| - 1], ids[|ids| - 1];
      DistinctCount(init);
      assert Elems(ids) == Elems(init) + {last} by {
        forall x | x in Elems(ids)
          ensures x in Elems(init) + {last}
        {
          var i :| 0 <= i < |ids| && ids[i] == x;
          if i < |init| { assert init[i] == x; }
        }
        forall x | x in Elems(init)
          ensures x in Elems(ids)
        {
          var i :| 0 <= i < |init| && init[i] == x;
          assert ids[i] == x;
        }
        assert ids[|ids| - 1] == last;
      }
      assert last !in Elems(init);
    }
  }

  /** How many of n versions a limit keeps. */
  function Kept(keep: int, n: nat): nat {
    if keep <= 0 then n else Min(keep, n)
  }

  class VersionTable {
    var rows: map<RowId, VersionRow>

    constructor ()
      ensures rows == map[]
    {
      rows := map[];
    }

    /**
     * Deletes the versions of a file beyond the newest keep (zero or less keeps all), given the order in
     * which the database lists them; returns the stored files to delete.
     */
    method PruneFileVersions(job: int, path: string, keep: int, order: seq<RowId>) returns (removed: seq<string>)
      requires NewestFirst(rows, VersionsOf(rows, job, path), order)
      modifies this
      ensures rows == old(rows) - Elems(order[Kept(keep, |order|)..])
      ensures var had := |VersionsOf(old(rows), job, path)|;
              |VersionsOf(rows, job, path)| == if keep <= 0 || had <= keep then had else keep
      ensures forall d, k :: d in VersionsOf(old(rows), job, path) && d !in rows && k in VersionsOf(rows, job, path) ==>
                old(rows)[d].created <= rows[k].created
      ensures forall id :: id in old(rows) && id !in VersionsOf(old(rows), job, path) ==> id in rows
      ensures |removed| == |order| - Kept(keep, |order|)
      ensures forall i :: 0 <= i < |removed| ==>
                order[Kept(keep, |order|) + i] in old(rows) && removed[i] == old(rows)[order[Kept(keep, |order|) + i]].stored
    {
      hide VersionsOf, NewestFirst, Elems;
      KeptVersions(rows, job, path, Kept(keep, |order|), order);
      InRows(rows, job, path);
      var tail := order[Kept(keep, |order|)..];
      if keep <= 0 {
        NoElems();
        return [];
      }
      forall i | 0 <= i < |tail|
        ensures tail[i] in rows
      {
        ElemOf(tail, tail[i]);
      }
      var toDelete := Collect(tail);
      removed := DeleteAll(toDelete, tail);
      assert forall d :: d in old(rows) && d !in rows ==> d in Elems(tail);
      assert VersionsOf(rows, job, path) == Elems(order[..Kept(keep, |order|)]);
      InRows(rows, job, path);
    }

    /** Reads the rows to delete, before any of them goes. */
    method Collect(ids: seq<RowId>) returns (toDelete: seq<(RowId, string)>)
      requires forall i :: 0 <= i < |ids| ==> ids[i] in rows
      ensures |toDelete| == |ids| && forall i :: 0 <= i < |ids| ==> toDelete[i] == (ids[i], rows[ids[i]].stored)
    {
      toDelete := [];
      for i := 0 to |ids|
        invariant |toDelete| == i
        invariant forall k :: 0 <= k < i ==> toDelete[k] == (ids[k], rows[ids[k]].stored)
      {
        toDelete := toDelete + [(ids[i], rows[ids[i]].stored)];
      }
    }

    method DeleteAll(toDelete: seq<(RowId, string)>, ghost ids: seq<RowId>) returns (removed: seq<string>)
      requires |toDelete| == |ids| && forall i :: 0 <= i < |ids| ==> toDelete[i].0 == ids[i]
      modifies this
      ensures rows == old(rows) - Elems(ids)
      ensures |removed| == |ids| && forall i :: 0 <= i < |ids| ==> removed[i] == toDelete[i].1
    {
      hide Elems;
      NoElems();
      removed := [];
      for i := 0 to |toDelete|
        invariant rows == old(rows) - Elems(ids[..i])
        invariant |removed| == i && forall k :: 0 <= k < i ==> removed[k] == toDelete[k].1
      {
        rows := rows - {toDelete[i].0};
        removed := removed + [toDelete[i].1];
        ElemsSnoc(ids, i);
      }
      assert ids[..|ids|] == ids;
    }
  }

  lemma NoElems()
    ensures Elems([]) == {}
  {
  }

  lemma ElemsSnoc(ids: seq<RowId>, i: nat)
    requires i < |ids|
    ensures Elems(ids[..i + 1]) == Elems(ids[..i]) + {ids[i]}
  {
    forall x | x in Elems(ids[..i]) + {ids[i]}
      ensures x in Elems(ids[..i + 1])
    {
      if x == ids[i] {
        assert ids[..i + 1][i] == x;
      } else {
        var k :| 0 <= k < i && ids[..i][k] == x;
        assert ids[..i + 1][k] == x;
      }
    }
  }

  lemma SameElems(order: seq<RowId>, ids: set<RowId>)
    requires forall id :: id in order <==> id in ids
    ensures Elems(order) == ids
  {
    forall x | x in ids
      ensures x in Elems(order)
    {
      assert x in order;
    }
    forall x | x in Elems(order)
      ensures x in ids
    {
      assert x in order;
    }
  }

  lemma ElemOf(ids: seq<RowId>, id: RowId)
    ensures id in Elems(ids) <==> id in ids
  {
    if id in ids {
      var i :| 0 <= i < |ids| && ids[i] == id;
      assert id in Elems(ids);
    }
  }

  lemma HeadOrTail(order: seq<RowId>, m: nat, x: RowId)
    requires m <= |order| && Distinct(order)
    ensures x in order <==> x in order[..m] || x in order[m..]
    ensures !(x in order[..m] && x in order[m..])
  {
    assert order == order[..m] + order[m..];
    forall i, j | 0 <= i < m && 0 <= j < |order| - m
      ensures order[..m][i] != order[m..][j]
    {
      assert order[m..][j] == order[m + j];
    }
  }

  lemma InRows(rows: map<RowId, VersionRow>, job: int, path: string)
    ensures forall x :: x in VersionsOf(rows, job, path) ==> x in rows
  {
  }

  lemma Remaining(rows: map<RowId, VersionRow>, job: int, path: string, head: set<RowId>, tail: set<RowId>)
    requires forall x :: x in VersionsOf(rows, job, path) <==> x in head || x in tail
    requires forall x :: !(x in head && x in tail)
    ensures VersionsOf(rows - tail, job, path) == head
  {
    forall x
      ensures x in VersionsOf(rows - tail, job, path) <==> x in head
    {
      assert x in VersionsOf(rows - tail, job, path) <==> x in VersionsOf(rows, job, path) && x !in tail;
    }
  }

  /** What remains when all but the first keep of the order are dropped. */
  lemma KeptVersions(rows: map<RowId, VersionRow>, job: int, path: string, keep: nat, order: seq<RowId>)
    requires NewestFirst(rows, VersionsOf(rows, job, path), order)
    ensures |order| == |VersionsOf(rows, job, path)|
    ensures forall x :: x in Elems(order[Min(keep, |order|)..]) ==> x in VersionsOf(rows, job, path)
    ensures var kept := rows - Elems(order[Min(keep, |order|)..]);
            VersionsOf(kept, job, path) == Elems(order[..Min(keep, |order|)])
    ensures |Elems(order[..Min(keep, |order|)])| == Min(keep, |order|)
    ensures forall d, k :: d in Elems(order[Min(keep, |order|)..]) && k in Elems(order[..Min(keep, |order|)]) ==>
              d in rows && k in rows && rows[d].created <= rows[k].created
  {
    hide VersionsOf, Elems;
    InRows(rows, job, path);
    var m := Min(keep, |order|);
    var ids := VersionsOf(rows, job, path);
    var head, tail := order[..m], order[m..];
    SameElems(order, ids);
    DistinctCount(order);
    DistinctCount(head);
    forall x
      ensures x in Elems(head) <==> x in head
      ensures x in Elems(tail) <==> x in tail
    {
      ElemOf(head, x);
      ElemOf(tail, x);
    }
    forall x
      ensures x in ids <==> x in head || x in tail
      ensures !(x in head && x in tail)
    {
      HeadOrTail(order, m, x);
    }
    Remaining(rows, job, path, Elems(head), Elems(tail));
  }

  /** The rows of a file that are at least as new as one of them, itself included. */
  function AtLeastAsNew(rows: map<RowId, VersionRow>, ids: set<RowId>, id: RowId): set<RowId>
    requires id in rows
  {
    set k | k in ids && k in rows && rows[k].created >= rows[id].created
  }

  /** A row with few enough rows at least as new survives, whatever the order among equals. */
  lemma FewNewerSurvives(rows: map<RowId, VersionRow>, ids: set<RowId>, keep: nat, id: RowId, order: seq<RowId>)
    requires ids <= rows.Keys && id in ids && NewestFirst(rows, ids, order)
    requires |AtLeastAsNew(rows, ids, id)| <= keep
    ensures id in order[..Min(keep, |order|)]
  {
    var i :| 0 <= i < |order| && order[i] == id;
    var upTo := order[..i + 1];
    DistinctCount(upTo);
    forall x | x in Elems(upTo)
      ensures x in AtLeastAsNew(rows, ids, id)
    {
      var k :| 0 <= k < |upTo| && upTo[k] == x;
      assert order[k] == x;
    }
    Smaller(Elems(upTo), AtLeastAsNew(rows, ids, id));
    assert order[..Min(keep, |order|)][i] == id;
  }

  lemma {:induction false} Smaller(a: set<RowId>, b: set<RowId>)
    requires a <= b
    ensures |a| <= |b|
  {
    if |a| > 0 {
      var x :| x in a;
      Smaller(a - {x}, b - {x});
    }
  }

  /** A finite set has a newest row. */
  lemma {:induction false} Newest(rows: map<RowId, VersionRow>, ids: set<RowId>) returns (id: RowId)
    requires ids <= rows.Keys && |ids| > 0
    ensures id in ids && forall k :: k in ids ==> rows[k].created <= rows[id].created
  {
    id :| id in ids;
    if |ids - {id}| > 0 {
      var other := Newest(rows, ids - {id});
      if rows[other].created > rows[id].created { id := other; }
    }
  }

  /** Every set of rows can be listed newest first. */
  lemma {:induction false} SomeOrder(rows: map<RowId, VersionRow>, ids: set<RowId>) returns (order: seq<RowId>)
    requires ids <= rows.Keys
    ensures NewestFirst(rows, ids, order)
    decreases ids
  {
    if |ids| > 0 {
      var top := Newest(rows, ids);
      var rest := SomeOrder(rows, ids - {top});
      order := [top] + rest;
    } else {
      order := [];
    }
  }

  /** Some listing puts a row after all the others that are as new. */
  lemma LateOrder(rows: map<RowId, VersionRow>, ids: set<RowId>, id: RowId) returns (order: seq<RowId>)
    requires ids <= rows.Keys && id in ids
    ensures NewestFirst(rows, ids, order)
    ensures 0 < |AtLeastAsNew(rows, ids, id)| <= |order| && order[|AtLeastAsNew(rows, ids, id)| - 1] == id
  {
    var newer := AtLeastAsNew(rows, ids, id);
    assert id in newer;
    var before := SomeOrder(rows, newer - {id});
    var after := SomeOrder(rows, ids - newer);
    order := before + [id] + after;
    DistinctCount(before);
    SameElems(before, newer - {id});
    JoinedInOrder(rows, before, id, after);
    forall x | x in ids
      ensures x in order
    {
      assert x in before || x == id || x in after;
    }
  }

  lemma JoinedInOrder(rows: map<RowId, VersionRow>, before: seq<RowId>, id: RowId, after: seq<RowId>)
    requires id in rows && id !in before && id !in after && Distinct(before) && Distinct(after)
    requires forall x :: x in before ==> x in rows && x !in after && rows[x].created >= rows[id].created
    requires forall x :: x in after ==> x in rows && rows[x].created < rows[id].created
    requires forall i, j :: 0 <= i < j < |before| && before[i] in rows && before[j] in rows ==>
               rows[before[i]].created >= rows[before[j]].created
    requires forall i, j :: 0 <= i < j < |after| && after[i] in rows && after[j] in rows ==>
               rows[after[i]].created >= rows[after[j]].created
    ensures Distinct(before + [id] + after)
    ensures var order := before + [id] + after;
            forall i, j :: 0 <= i < j < |order| && order[i] in rows && order[j] in rows ==>
              rows[order[i]].created >= rows[order[j]].created
  {
    var order := before + [id] + after;
    forall i, j | 0 <= i < j < |order|
      ensures order[i] != order[j]
      ensures order[i] in rows && order[j] in rows ==> rows[order[i]].created >= rows[order[j]].created
    {
      assert i < |before| ==> order[i] == before[i];
      assert j < |before| ==> order[j] == before[j];
      assert i > |before| ==> order[i] == after[i - |before| - 1];
      assert j > |before| ==> order[j] == after[j - |before| - 1];
    }
  }

  /**
   * A version is safe from pruning exactly when no more than keep rows, itself included, are at least as
   * new. So the row just created is safe only if fewer than keep others carry the same second.
   */
  lemma SafeIff(rows: map<RowId, VersionRow>, ids: set<RowId>, keep: nat, id: RowId)
    requires ids <= rows.Keys && id in ids
    ensures (forall order :: NewestFirst(rows, ids, order) ==> id in order[..Min(keep, |order|)])
            <==> |AtLeastAsNew(rows, ids, id)| <= keep
  {
    hide NewestFirst;
    if |AtLeastAsNew(rows, ids, id)| <= keep {
      forall order | NewestFirst(rows, ids, order)
        ensures id in order[..Min(keep, |order|)]
      {
        FewNewerSurvives(rows, ids, keep, id, order);
      }
    } else {
      var order := LateOrder(rows, ids, id);
      PlacedOnce(rows, ids, order, |AtLeastAsNew(rows, ids, id)| - 1, Min(keep, |order|));
    }
  }

  lemma PlacedOnce(rows: map<RowId, VersionRow>, ids: set<RowId>, order: seq<RowId>, at: nat, m: nat)
    requires NewestFirst(rows, ids, order) && m <= at < |order|
    ensures order[at] !in order[..m]
  {
  }

  /** The ids of a file's versions, oldest first, with a different time each. */
  ghost predicate OldestFirst(rows: map<RowId, VersionRow>, history: seq<RowId>) {
    && (forall id :: id in history ==> id in rows)
    && (forall i, j :: 0 <= i < j < |history| ==>
          history[i] in rows && history[j] in rows && rows[history[i]].created < rows[history[j]].created)
  }

  lemma Below(rows: map<RowId, VersionRow>, history: seq<RowId>, k: nat, part: seq<RowId>, newer: bool)
    requires OldestFirst(rows, history) && k < |history| && Distinct(part)
    requires forall id :: id in part ==> id in history && id in rows && id != history[k]
    requires forall id :: id in part && id in rows ==>
               if newer then rows[id].created >= rows[history[k]].created else rows[id].created <= rows[history[k]].created
    ensures |part| <= if newer then |history| - k - 1 else k
  {
    var side := if newer then history[k + 1..] else history[..k];
    DistinctCount(part);
    assert Distinct(side);
    DistinctCount(side);
    forall x | x in Elems(part)
      ensures x in Elems(side)
    {
      var i :| 0 <= i < |part| && part[i] == x;
      assert x in part;
      var h :| 0 <= h < |history| && history[h] == x;
      assert if newer then h > k && side[h - k - 1] == x else h < k && side[h] == x;
    }
    Smaller(Elems(part), Elems(side));
  }

  lemma SameLength(rows: map<RowId, VersionRow>, history: seq<RowId>, order: seq<RowId>)
    requires OldestFirst(rows, history) && NewestFirst(rows, Elems(history), order)
    ensures |order| == |history|
  {
    assert Distinct(history);
    DistinctCount(history);
    DistinctCount(order);
    SameElems(order, Elems(history));
  }

  /** At most the newer rows come before a row, and at most the older ones after it. */
  lemma PositionForced(rows: map<RowId, VersionRow>, history: seq<RowId>, order: seq<RowId>, k: nat, i: nat)
    requires OldestFirst(rows, history) && NewestFirst(rows, Elems(history), order)
    requires k < |history| && i < |order| && order[i] == history[k]
    ensures i <= |history| - k - 1 && |order| - i - 1 <= k
  {
    hide Elems;
    forall id | id in order
      ensures id in history
    {
      ElemOf(history, id);
    }
    var before, after := order[..i], order[i + 1..];
    assert forall j :: 0 <= j < |after| ==> after[j] == order[i + 1 + j];
    Below(rows, history, k, before, true);
    Below(rows, history, k, after, false);
  }

  /** When all times differ the order is forced, and pruning keeps exactly the last keep versions created. */
  lemma DistinctTimesKeepTheLast(rows: map<RowId, VersionRow>, history: seq<RowId>, keep: nat, order: seq<RowId>, k: nat)
    requires OldestFirst(rows, history) && NewestFirst(rows, Elems(history), order) && k < |history|
    ensures |order| == |history| && order[|history| - 1 - k] == history[k]
    ensures history[k] in order[..Min(keep, |order|)] <==> k >= |history| - keep
  {
    hide OldestFirst, Elems;
    SameLength(rows, history, order);
    ElemOf(history, history[k]);
    assert history[k] in order;
    var i :| 0 <= i < |order| && order[i] == history[k];
    PositionForced(rows, history, order, k, i);
    var m := Min(keep, |order|);
    if i < m {
      assert order[..m][i] == history[k];
    } else {
      PlacedOnce(rows, Elems(history), order, i, m);
    }
  }

  /**
   * When all times differ, the list of contents that a run keeps of a path is what the table keeps: the
   * contents of the rows that survive, in order of creation.
   */
  lemma PrunedIsWhatTheTableKeeps(rows: map<RowId, VersionRow>, history: seq<RowId>, contents: seq<bytes>, keep: nat,
                                  order: seq<RowId>, k: nat)
    requires OldestFirst(rows, history) && NewestFirst(rows, Elems(history), order) && |contents| == |history| && k < |history|
    ensures var kept, dropped := Worlds.Pruned(contents, keep), |history| - Kept(keep, |history|);
            && |kept| == Kept(keep, |history|) == |order[..Kept(keep, |order|)]|
            && (history[k] in order[..Kept(keep, |order|)] <==> k >= dropped)
            && (k >= dropped ==> kept[k - dropped] == contents[k])
  {
    SameLength(rows, history, order);
    if keep == 0 {
      assert order[..|order|] == order;
      ElemOf(history, history[k]);
      assert history[k] in order;
    } else {
      DistinctTimesKeepTheLast(rows, history, keep, order, k);
    }
  }
}
