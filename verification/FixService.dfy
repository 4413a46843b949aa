/** The stored review and the two calls that write its fixed deck, on mutable rows. */
module FixService {
  import opened Wrappers
  import opened Slides
  import opened FixRules
  import opened PptxFixer
  import opened FixProperties
  import opened FixOrder
  import opened FixReview

  class FindingRow {
    const info: FindingInfo
    var autoFixed: bool

    constructor (info: FindingInfo)
      ensures this.info == info && !autoFixed
    {
      this.info, autoFixed := info, false;
    }
  }

  function RowInfos(rows: seq<FindingRow>): (infos: seq<FindingInfo>)
    ensures |infos| == |rows| && forall i :: 0 <= i < |rows| ==> infos[i] == rows[i].info
  {
    seq(|rows|, i requires 0 <= i < |rows| => rows[i].info)
  }

  /** The ids whose flag is set. */
  function AppliedIds(rows: seq<FindingRow>): set<int>
    reads rows
  {
    set row | row in rows && row.autoFixed :: row.info.id
  }

  ghost predicate DistinctElements<T>(xs: seq<T>) {
    forall i, j :: 0 <= i < j < |xs| ==> xs[i] != xs[j]
  }

  /** The rows whose ids are wanted, in reading order. */
  function PickRows(order: seq<FindingRow>, ids: set<int>): seq<FindingRow> {
    Filter(order, (row: FindingRow) => row.info.id in ids)
  }

  lemma {:induction false} PickedMembers(order: seq<FindingRow>, ids: set<int>)
    ensures forall row :: row in PickRows(order, ids) <==> row in order && row.info.id in ids
  {
    forall row
      ensures row in PickRows(order, ids) <==> row in order && row.info.id in ids
    {
      FilterMember(order, (row: FindingRow) => row.info.id in ids, row);
    }
  }

  lemma {:induction false} PickedInfos(order: seq<FindingRow>, ids: set<int>)
    ensures RowInfos(PickRows(order, ids)) == Selected(RowInfos(order), ids)
  {
    if order != [] {
      PickedInfos(order[..|order| - 1], ids);
      assert RowInfos(order)[..|order| - 1] == RowInfos(order[..|order| - 1]);
    }
  }

  lemma {:induction false} DistinctIdsDistinctRows(rows: seq<FindingRow>)
    requires DistinctRowIds(RowInfos(rows))
    ensures DistinctElements(rows)
  {
    forall i, j | 0 <= i < j < |rows|
      ensures rows[i] != rows[j]
    {
      assert RowInfos(rows)[i].id != RowInfos(rows)[j].id;
    }
  }

  lemma {:induction false} ReadMembers<T>(rows: seq<T>, order: seq<T>)
    requires multiset(rows) == multiset(order)
    ensures forall row :: row in rows <==> row in order
  {
    assert forall row :: row in rows <==> row in multiset(rows);
    assert forall row :: row in order <==> row in multiset(order);
  }

  lemma {:induction false} Middle<T>(a: seq<T>, x: T, b: seq<T>)
    ensures multiset(a + [x] + b) == multiset((a + b) + [x])
  {
  }

  lemma {:induction false} InfosConcat(a: seq<FindingRow>, b: seq<FindingRow>)
    ensures RowInfos(a + b) == RowInfos(a) + RowInfos(b)
  {
  }

  lemma {:induction false} ReadInfos(rows: seq<FindingRow>, order: seq<FindingRow>)
    requires multiset(rows) == multiset(order)
    ensures multiset(RowInfos(rows)) == multiset(RowInfos(order))
    decreases |rows|
  {
    if rows == [] {
      assert |order| == |multiset(order)| == |multiset(rows)| == 0;
    } else {
      var front, x := rows[..|rows| - 1], rows[|rows| - 1];
      assert rows == front + [x];
      var a, b := TakeOut(front, x, order);
      ReadInfos(front, a + b);
      InfosConcat(front, [x]);
      InfosConcat(a + [x], b);
      InfosConcat(a, [x]);
      InfosConcat(a, b);
      assert RowInfos([x]) == [x.info];
      Middle(RowInfos(a), x.info, RowInfos(b));
    }
  }

  class ReviewRecord {
    const curve: Curve
    const original: Deck
    var rows: seq<FindingRow>
    var originalAvailable: bool
    var fixedDeck: Option<Asset>

    ghost predicate Valid()
      reads this
    {
      DistinctRowIds(RowInfos(rows))
    }

    function Info(): Review { Review(curve, original) }

    function Current(): ReviewState
      reads this, rows
    {
      ReviewState(RowInfos(rows), AppliedIds(rows), fixedDeck, originalAvailable)
    }

    /** An uploaded review before its worker has run. */
    constructor (curve: Curve, original: Deck)
      ensures Valid() && Info() == Review(curve, original) && Current() == BLANK
    {
      this.curve, this.original := curve, original;
      rows, originalAvailable, fixedDeck := [], true, None;
    }

    /** What a finished worker stores: its findings as fresh rows and a copy of the original as the fixed deck. */
    method PersistSuccess(found: seq<FindingRow>)
      requires Valid() && originalAvailable && DistinctRowIds(RowInfos(rows + found))
      requires forall row :: row in found ==> !row.autoFixed
      modifies this
      ensures Valid() && Current() == Step(Info(), old(Current()), WorkerStores(RowInfos(found))).1
    {
      UpsertFixedPptx(original);
      assert RowInfos(rows + found) == RowInfos(rows) + RowInfos(found);
      rows := rows + found;
    }

    /** One click; `order` is the order in which the query returns the review's rows. */
    method ApplyFindingFix(findingId: int, order: seq<FindingRow>) returns (response: Response)
      requires Valid() && multiset(order) == multiset(rows)
      modifies this`fixedDeck, rows
      ensures Valid() && (response, Current()) == Step(Info(), old(Current()), ApplyFix(findingId, RowInfos(order)))
    {
      var k := RowWithId(RowInfos(rows), findingId, 0);
      if k.None? {
        return NotFound;
      }
      var finding := rows[k.value];
      if !finding.info.autoFixable {
        return NotFound;
      }
      AppliedIff(finding);
      if finding.autoFixed {
        return AlreadyApplied;
      }
      if !originalAvailable {
        return NotFound;
      }
      var target, picked := Rebuild(finding, order);
      UpsertFixedPptx(target);
      response := Regenerated;
    }

    lemma {:induction false} AppliedIff(row: FindingRow)
      requires Valid() && row in rows
      ensures row.info.id in AppliedIds(rows) <==> row.autoFixed
    {
      forall other | other in rows && other.info.id == row.info.id
        ensures other == row
      {
        SameIdSameRow(other, row);
      }
    }

    /** The selection of one click: the flagged rows and the clicked one, in reading order. */
    ghost predicate Selection(selected: seq<FindingRow>, finding: FindingRow)
      reads this, rows
    {
      && DistinctRowIds(RowInfos(selected)) && DistinctElements(selected)
      && (forall row <- rows :: row in selected <==> row.autoFixed || row == finding)
      && (forall row <- selected :: row in rows)
    }

    lemma {:induction false} PickIsSelection(order: seq<FindingRow>, finding: FindingRow)
      requires Valid() && multiset(order) == multiset(rows) && finding in rows && !finding.autoFixed
      ensures Selection(PickRows(order, AppliedIds(rows) + {finding.info.id}), finding)
      ensures RowInfos(PickRows(order, AppliedIds(rows) + {finding.info.id})) ==
              Selected(RowInfos(order), AppliedIds(rows) + {finding.info.id})
    {
      var ids := AppliedIds(rows) + {finding.info.id};
      PickedInfos(order, ids);
      PickedMembers(order, ids);
      ReadMembers(rows, order);
      ReadInfos(rows, order);
      PermutedIds(RowInfos(rows), RowInfos(order));
      SelectedIds(RowInfos(order), ids);
      DistinctIdsDistinctRows(PickRows(order, ids));
      forall row | row in rows
        ensures row.info.id in ids <==> row.autoFixed || row == finding
      {
        AppliedIff(row);
        SameIdSameRow(row, finding);
      }
    }

    lemma {:induction false} SameIdSameRow(one: FindingRow, other: FindingRow)
      requires Valid() && one in rows && other in rows
      ensures one.info.id == other.info.id <==> one == other
    {
      var i :| 0 <= i < |rows| && rows[i] == one;
      var j :| 0 <= j < |rows| && rows[j] == other;
      assert RowInfos(rows)[i].id == one.info.id && RowInfos(rows)[j].id == other.info.id;
    }

    /** The part of the call that rebuilds the deck: select, fix the selection from the original, write the flags
        back. */
    method Rebuild(finding: FindingRow, order: seq<FindingRow>) returns (target: Deck, ghost picked: seq<FindingInfo>)
      requires Valid() && multiset(order) == multiset(rows) && finding in rows && !finding.autoFixed
      modifies rows
      ensures picked == Selected(RowInfos(order), old(AppliedIds(rows)) + {finding.info.id})
      ensures target == Fixed(curve, original, picked).deck
      ensures AppliedIds(rows) == AppliedAfter(picked, Fixed(curve, original, picked), finding.info.id, old(AppliedIds(rows)))
    {
      var selected := SelectRows(finding.info.id, order, finding);
      picked := RowInfos(selected);
      target := FixSelection(selected, finding, picked);
    }

    method FixSelection(selected: seq<FindingRow>, ghost finding: FindingRow, ghost picked: seq<FindingInfo>)
      returns (target: Deck)
      requires Valid() && finding in rows && !finding.autoFixed && Selection(selected, finding)
      requires picked == RowInfos(selected)
      modifies rows
      ensures target == Fixed(curve, original, picked).deck
      ensures AppliedIds(rows) == AppliedAfter(picked, Fixed(curve, original, picked), finding.info.id, old(AppliedIds(rows)))
    {
      assert forall j :: 0 <= j < |selected| ==> selected[j] in rows;
      ghost var flagged := set row | row in rows && row.autoFixed;
      target := FixSelected(selected);
      FlagsWritten(selected, finding, flagged);
    }

    function IdsOf(flagged: set<FindingRow>): set<int> {
      set row | row in flagged :: row.info.id
    }

    /** What the flags written back make of the applied set; `flagged` are the rows flagged before. */
    lemma {:induction false} FlagsWritten(selected: seq<FindingRow>, finding: FindingRow, flagged: set<FindingRow>)
      requires finding in rows && finding !in flagged && forall row :: row in flagged ==> row in rows
      requires DistinctRowIds(RowInfos(selected))
      requires forall row <- rows :: row in selected <==> row in flagged || row == finding
      requires forall row <- rows :: row !in selected ==> !row.autoFixed
      requires forall row <- selected :: row in rows
      requires var outcome := Fixed(curve, original, RowInfos(selected));
        forall j :: 0 <= j < |selected| ==>
          selected[j].autoFixed == (!outcome.rolledBack && (selected[j] in flagged || outcome.applied[j]))
      ensures AppliedIds(rows) == AppliedAfter(RowInfos(selected), Fixed(curve, original, RowInfos(selected)),
                                               finding.info.id, IdsOf(flagged))
    {
      var outcome := Fixed(curve, original, RowInfos(selected));
      var place := RowWithId(RowInfos(selected), finding.info.id, 0);
      var p :| 0 <= p < |selected| && selected[p] == finding;
      assert RowInfos(selected)[p].id == finding.info.id;
      assert place == Some(p);
      forall row | row in rows
        ensures row.autoFixed <==> !outcome.rolledBack && (row in flagged || (row == finding && outcome.applied[p]))
      {
        if row in selected {
          var j :| 0 <= j < |selected| && selected[j] == row;
          assert RowInfos(selected)[j].id == row.info.id;
        }
      }
    }

    /** Run the fixer on fresh copies of the selected rows and write its flags back to them. */
    method FixSelected(selected: seq<FindingRow>) returns (target: Deck)
      requires DistinctElements(selected) && DistinctRowIds(RowInfos(selected))
      modifies selected
      ensures var outcome := Fixed(curve, original, RowInfos(selected));
        && target == outcome.deck
        && forall j :: 0 <= j < |selected| ==>
             selected[j].autoFixed == (!outcome.rolledBack && (old(selected[j].autoFixed) || outcome.applied[j]))
    {
      var pipeline := ToFindings(selected);
      var fixer := new Fixer(curve);
      target := fixer.Fix(original, pipeline);
      ghost var outcome := Fixed(curve, original, Infos(pipeline));
      assert Infos(pipeline) == RowInfos(selected);
      forall j | 0 <= j < |pipeline|
        ensures AppliedTo(pipeline, outcome.applied, pipeline[j]) <==> outcome.applied[j]
      {
      }
      WriteBack(selected, pipeline);
    }

    method SelectRows(findingId: int, order: seq<FindingRow>, ghost finding: FindingRow) returns (selected: seq<FindingRow>)
      requires Valid() && multiset(order) == multiset(rows)
      requires finding in rows && !finding.autoFixed && finding.info.id == findingId
      ensures Selection(selected, finding)
      ensures RowInfos(selected) == Selected(RowInfos(order), AppliedIds(rows) + {findingId})
    {
      ghost var ids := AppliedIds(rows) + {findingId};
      ReadMembers(rows, order);
      selected := [];
      for n := 0 to |order|
        invariant selected == PickRows(order[..n], ids)
      {
        assert order[..n + 1][..n] == order[..n];
        AppliedIff(order[n]);
        if order[n].autoFixed || order[n].info.id == findingId {
          selected := selected + [order[n]];
        }
      }
      assert order[..|order|] == order;
      PickIsSelection(order, finding);
    }

    method ToFindings(selected: seq<FindingRow>) returns (pipeline: seq<Finding>)
      ensures |pipeline| == |selected| && DistinctElements(pipeline) && fresh(pipeline)
      ensures forall j :: 0 <= j < |selected| ==>
        pipeline[j].info == selected[j].info && pipeline[j].autoFixed == selected[j].autoFixed
    {
      pipeline := [];
      for n := 0 to |selected|
        invariant |pipeline| == n && DistinctElements(pipeline) && fresh(pipeline)
        invariant forall j :: 0 <= j < n ==>
          pipeline[j].info == selected[j].info && pipeline[j].autoFixed == selected[j].autoFixed
      {
        var finding := new Finding(selected[n].info, selected[n].autoFixed);
        pipeline := pipeline + [finding];
      }
    }

    method WriteBack(selected: seq<FindingRow>, pipeline: seq<Finding>)
      requires |pipeline| == |selected| && DistinctElements(selected) && DistinctRowIds(RowInfos(selected))
      requires forall j :: 0 <= j < |selected| ==> pipeline[j].info.id == selected[j].info.id
      modifies selected
      ensures forall j :: 0 <= j < |selected| ==> selected[j].autoFixed == pipeline[j].autoFixed
    {
      var idToRow: map<int, FindingRow> := map[];
      for n := 0 to |selected|
        invariant forall j :: 0 <= j < n ==>
          selected[j].info.id in idToRow && idToRow[selected[j].info.id] == selected[j]
      {
        assert forall j :: 0 <= j < n ==> RowInfos(selected)[j].id != RowInfos(selected)[n].id;
        idToRow := idToRow[selected[n].info.id := selected[n]];
      }
      for n := 0 to |pipeline|
        invariant forall j :: 0 <= j < n ==> selected[j].autoFixed == pipeline[j].autoFixed
      {
        if pipeline[n].info.id in idToRow {
          idToRow[pipeline[n].info.id].autoFixed := pipeline[n].autoFixed;
        }
      }
    }

    method UpsertFixedPptx(data: Deck)
      modifies this`fixedDeck
      ensures fixedDeck == Refreshed(old(fixedDeck), data)
    {
      if fixedDeck.None? {
        fixedDeck := Some(Asset(data, 1));
      } else {
        fixedDeck := Some(Asset(data, fixedDeck.value.version + 1));
      }
    }
  }
}
