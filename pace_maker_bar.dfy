/**
 * The pace bar: the split times it prints, the row of split cells with a
 * divider between neighbours, and the section that stacks the visible
 * coach notes above the visible pace markers.
 */
module PaceMakerBar {
  import opened Arith
  import opened Text
  import opened TimeUtils
  import opened Seqs
  import opened Models
  import Pace

  // ---------------------------------------------------------------------------
  // Split times

  /** `formatPaceTime`: whole seconds only, "M:SS" from one minute on and "Ns" below. */
  function FormatPaceTime(millis: int): string {
    var totalSeconds := Quot(millis, 1000);
    var minutes := Quot(totalSeconds, 60);
    var seconds := Rem(totalSeconds, 60);
    if minutes > 0 then IntToString(minutes) + ":" + Pad2(seconds) else IntToString(seconds) + "s"
  }

  /**
   * A split time reads back as the whole seconds of the duration: the
   * seconds and an "s" below a minute, otherwise minutes (not wrapped into
   * hours), ":" and two-digit seconds.
   */
  lemma FormatPaceTimeReadsBack(millis: int)
    requires millis >= 0
    ensures var r := FormatPaceTime(millis);
      millis < 60000 ==> NonDigits(r) == "s" && Values(r) == [millis / 1000] && Canonical(Runs(r)[0])
    ensures var r := FormatPaceTime(millis);
      var v := Values(r);
      millis >= 60000 ==>
        && NonDigits(r) == ":" && |v| == 2 && Canonical(Runs(r)[0]) && |Runs(r)[1]| == 2
        && v[0] == millis / 60000 && v[1] < 60 && v[0] * 60 + v[1] == millis / 1000
  {
    NonNegativeAgrees(millis, 1000);
    var ts := millis / 1000;
    NonNegativeAgrees(ts, 60);
    var m, s := ts / 60, ts % 60;
    assert m == millis / 60000;
    NumeralField(m);
    NumeralField(s);
    Pad2Field(s);
    if m > 0 {
      MinSecReads(IntToString(m), Pad2(s), m, s);
    } else {
      UnitReads(IntToString(s), s, "s");
    }
  }

  // ---------------------------------------------------------------------------
  // The row of splits

  /** What `PaceMarkerBar` lays out in its row: a cell per split and "|" dividers. */
  datatype RowItem = SplitCell(cellLabel: string, cellTime: string, emphasised: bool) | Divider

  /** The cell of one split: its label, its time and the emphasis of the final split. */
  function Cell(split: PaceSplit): RowItem {
    SplitCell(split.splitLabel, FormatPaceTime(split.time), split.isFinal)
  }

  /** The cells of the splits, in order. */
  function Cells(splits: seq<PaceSplit>): (r: seq<RowItem>)
    ensures |r| == |splits| && forall k :: 0 <= k < |splits| ==> r[k] == Cell(splits[k])
  {
    if splits == [] then [] else [Cell(splits[0])] + Cells(splits[1..])
  }

  /** The first `i` cells laid out, each followed by a divider unless it is the last cell. */
  function Layout(cells: seq<RowItem>, i: nat): seq<RowItem>
    requires i <= |cells|
  {
    if i == 0 then [] else Layout(cells, i - 1) + [cells[i - 1]] + (if i < |cells| then [Divider] else [])
  }

  /** The whole row of a pace bar. */
  function Row(splits: seq<PaceSplit>): seq<RowItem> {
    var cells := Cells(splits);
    Layout(cells, |cells|)
  }

  /** The number of dividers in a row. */
  function Dividers(row: seq<RowItem>): nat {
    if row == [] then 0 else Dividers(row[..|row| - 1]) + (if row[|row| - 1].Divider? then 1 else 0)
  }

  lemma {:induction false} DividersAppend(a: seq<RowItem>, b: seq<RowItem>)
    ensures Dividers(a + b) == Dividers(a) + Dividers(b)
    decreases |b|
  {
    if b == [] {
      assert a + b == a;
    } else {
      var b' := b[..|b| - 1];
      assert (a + b)[..|a + b| - 1] == a + b';
      DividersAppend(a, b');
    }
  }

  /**
   * The first `i` cells take two places each, except that the last cell has
   * no divider after it; each cell sits at an even place and a divider
   * at the odd place after it.
   */
  lemma {:induction false} LayoutItems(cells: seq<RowItem>, i: nat)
    requires i <= |cells|
    ensures var r := Layout(cells, i);
      && |r| == (if 0 < i == |cells| then 2 * i - 1 else 2 * i)
      && (forall k :: 0 <= k < i ==> r[2 * k] == cells[k])
      && (forall k :: 0 <= k < i && k < |cells| - 1 ==> r[2 * k + 1] == Divider)
  {
    if i > 0 {
      var prev := Layout(cells, i - 1);
      var tail: seq<RowItem> := [cells[i - 1]] + (if i < |cells| then [Divider] else []);
      var r := prev + tail;
      assert Layout(cells, i) == r;
      LayoutItems(cells, i - 1);
      assert |prev| == 2 * (i - 1);
      forall k | 0 <= k < i - 1 ensures r[2 * k] == cells[k] && r[2 * k + 1] == Divider {
        assert r[2 * k] == prev[2 * k] && r[2 * k + 1] == prev[2 * k + 1];
      }
      assert r[2 * (i - 1)] == tail[0];
    }
  }

  /** The first `i` cells bring one divider each, except the last cell, when none of them is a divider. */
  lemma {:induction false} LayoutDividers(cells: seq<RowItem>, i: nat)
    requires i <= |cells|
    requires forall k :: 0 <= k < |cells| ==> !cells[k].Divider?
    ensures Dividers(Layout(cells, i)) == if 0 < i == |cells| then i - 1 else i
  {
    if i > 0 {
      var prev, cell := Layout(cells, i - 1), [cells[i - 1]];
      var tail := if i < |cells| then [Divider] else [];
      assert Layout(cells, i) == prev + cell + tail;
      DividersAppend(prev + cell, tail);
      DividersAppend(prev, cell);
      assert cell[..0] == [];
      if i < |cells| {
        assert tail[..0] == [];
      }
      LayoutDividers(cells, i - 1);
    }
  }

  /**
   * A row of `n >= 1` splits holds the `n` cells in order with one divider
   * between each pair of neighbours and none after the last: `n - 1`
   * dividers; an empty table gives an empty row.
   */
  lemma RowShape(splits: seq<PaceSplit>)
    ensures splits == [] ==> Row(splits) == []
    ensures var r := Row(splits);
      splits != [] ==>
        && |r| == 2 * |splits| - 1 && Dividers(r) == |splits| - 1
        && (forall k :: 0 <= k < |splits| ==> r[2 * k] == Cell(splits[k]))
        && (forall k :: 0 <= k < |splits| - 1 ==> r[2 * k + 1] == Divider)
        && r[|r| - 1] == Cell(splits[|splits| - 1])
  {
    var cells := Cells(splits);
    LayoutItems(cells, |cells|);
    LayoutDividers(cells, |cells|);
  }

  /**
   * In the row of a pace marker's splits, only the last cell (the event
   * itself, at the target time) is emphasised.
   */
  lemma MarkerRowEmphasis(m: PaceMarker)
    ensures var splits := Pace.Splits(m);
      var r := Row(splits);
      && |splits| >= 1 && |r| == 2 * |splits| - 1
      && r[|r| - 1] == SplitCell(m.event.DisplayName(), FormatPaceTime(m.targetTime), true)
      && forall k :: 0 <= k < |splits| - 1 ==> r[2 * k] == Cell(splits[k]) && !r[2 * k].emphasised
  {
    Pace.SplitsShape(m);
    RowShape(Pace.Splits(m));
  }

  // ---------------------------------------------------------------------------
  // The markers section

  /** What `MarkersSection` stacks: coach-note bars and pace-marker bars. */
  datatype SectionItem = NoteBar(note: CoachNote) | MarkerBar(marker: PaceMarker)

  function VisibleNotes(notes: seq<CoachNote>): seq<CoachNote> {
    Filter((n: CoachNote) => n.isVisible, notes)
  }

  function VisibleMarkers(markers: seq<PaceMarker>): seq<PaceMarker> {
    Filter((m: PaceMarker) => m.isVisible, markers)
  }

  function NoteBars(notes: seq<CoachNote>): (r: seq<SectionItem>)
    ensures |r| == |notes| && forall i :: 0 <= i < |notes| ==> r[i] == NoteBar(notes[i])
  {
    if notes == [] then [] else [NoteBar(notes[0])] + NoteBars(notes[1..])
  }

  function MarkerBars(markers: seq<PaceMarker>): (r: seq<SectionItem>)
    ensures |r| == |markers| && forall i :: 0 <= i < |markers| ==> r[i] == MarkerBar(markers[i])
  {
    if markers == [] then [] else [MarkerBar(markers[0])] + MarkerBars(markers[1..])
  }

  /** `MarkersSection`: nothing when nothing is visible, else the visible notes and then the visible markers. */
  function MarkersSection(markers: seq<PaceMarker>, notes: seq<CoachNote>): seq<SectionItem> {
    var visibleMarkers := VisibleMarkers(markers);
    var visibleNotes := VisibleNotes(notes);
    if |visibleMarkers| == 0 && |visibleNotes| == 0 then []
    else NoteBars(visibleNotes) + MarkerBars(visibleMarkers)
  }

  /**
   * Everything the section shows is a visible note or a visible marker of
   * the inputs, and all note bars come before all marker bars.
   */
  lemma MarkersSectionShowsVisible(markers: seq<PaceMarker>, notes: seq<CoachNote>)
    ensures var items := MarkersSection(markers, notes);
      forall i :: 0 <= i < |items| ==>
        if items[i].NoteBar? then items[i].note in notes && items[i].note.isVisible
        else items[i].marker in markers && items[i].marker.isVisible
    ensures var items := MarkersSection(markers, notes);
      forall i, j :: 0 <= i < j < |items| && items[i].MarkerBar? ==> items[j].MarkerBar?
  {
    var vm, vn := VisibleMarkers(markers), VisibleNotes(notes);
    if |vm| != 0 || |vn| != 0 {
      assert MarkersSection(markers, notes) == NoteBars(vn) + MarkerBars(vm);
    }
  }

  /**
   * The section shows every visible note and every visible marker, and it
   * is empty exactly when no note and no marker is visible.
   */
  lemma MarkersSectionShowsAll(markers: seq<PaceMarker>, notes: seq<CoachNote>)
    ensures var items := MarkersSection(markers, notes);
      && (forall k :: 0 <= k < |notes| && notes[k].isVisible ==> NoteBar(notes[k]) in items)
      && (forall k :: 0 <= k < |markers| && markers[k].isVisible ==> MarkerBar(markers[k]) in items)
    ensures MarkersSection(markers, notes) == [] <==>
      (forall k :: 0 <= k < |notes| ==> !notes[k].isVisible) && (forall k :: 0 <= k < |markers| ==> !markers[k].isVisible)
  {
    var vm, vn := VisibleMarkers(markers), VisibleNotes(notes);
    var items := MarkersSection(markers, notes);
    var nb, mb := NoteBars(vn), MarkerBars(vm);
    if |vm| == 0 && |vn| == 0 {
      assert vm == [] && vn == [];
    } else {
      assert items == nb + mb;
      forall k | 0 <= k < |notes| && notes[k].isVisible ensures NoteBar(notes[k]) in items {
        var j :| 0 <= j < |vn| && vn[j] == notes[k];
        assert items[j] == NoteBar(notes[k]);
      }
      forall k | 0 <= k < |markers| && markers[k].isVisible ensures MarkerBar(markers[k]) in items {
        var j :| 0 <= j < |vm| && vm[j] == markers[k];
        assert items[|nb| + j] == MarkerBar(markers[k]);
      }
      if |vn| > 0 {
        assert items[0] == NoteBar(vn[0]);
        assert vn[0].isVisible;
      } else {
        assert items[0] == MarkerBar(vm[0]);
        assert vm[0].isVisible;
      }
    }
  }

  /**
   * The section lists the visible notes and then the visible markers, each
   * once and in the order of the input lists: a visible note sits after the
   * visible notes before it, a visible marker after all visible notes and
   * the visible markers before it, and later inputs sit at later places.
   */
  lemma MarkersSectionInOrder(markers: seq<PaceMarker>, notes: seq<CoachNote>)
    ensures MarkersSection(markers, notes) == NoteBars(VisibleNotes(notes)) + MarkerBars(VisibleMarkers(markers))
    ensures forall k :: 0 <= k < |notes| && notes[k].isVisible ==>
      |VisibleNotes(notes[..k])| < |MarkersSection(markers, notes)|
      && MarkersSection(markers, notes)[|VisibleNotes(notes[..k])|] == NoteBar(notes[k])
    ensures forall k :: 0 <= k < |markers| && markers[k].isVisible ==>
      |VisibleNotes(notes)| + |VisibleMarkers(markers[..k])| < |MarkersSection(markers, notes)|
      && MarkersSection(markers, notes)[|VisibleNotes(notes)| + |VisibleMarkers(markers[..k])|] == MarkerBar(markers[k])
    ensures forall k, k' :: 0 <= k < k' < |notes| && notes[k].isVisible ==>
      |VisibleNotes(notes[..k])| < |VisibleNotes(notes[..k'])|
    ensures forall k, k' :: 0 <= k < k' < |markers| && markers[k].isVisible ==>
      |VisibleMarkers(markers[..k])| < |VisibleMarkers(markers[..k'])|
  {
    MarkersSectionBars(markers, notes);
    NotesPlaced(markers, notes);
    MarkersPlaced(markers, notes);
    VisibleNotesInOrder(notes);
    VisibleMarkersInOrder(markers);
  }

  /** A visible note's bar sits after the bars of the visible notes before it. */
  lemma NotesPlaced(markers: seq<PaceMarker>, notes: seq<CoachNote>)
    ensures forall k :: 0 <= k < |notes| && notes[k].isVisible ==>
      |VisibleNotes(notes[..k])| < |MarkersSection(markers, notes)|
      && MarkersSection(markers, notes)[|VisibleNotes(notes[..k])|] == NoteBar(notes[k])
  {
    var items := MarkersSection(markers, notes);
    MarkersSectionBars(markers, notes);
    var nb := NoteBars(VisibleNotes(notes));
    assert items == nb + MarkerBars(VisibleMarkers(markers));
    VisibleNotesInOrder(notes);
    forall k | 0 <= k < |notes| && notes[k].isVisible
      ensures |VisibleNotes(notes[..k])| < |items| && items[|VisibleNotes(notes[..k])|] == NoteBar(notes[k])
    {
      var x := |VisibleNotes(notes[..k])|;
      assert items[x] == nb[x];
    }
  }

  /** A visible marker's bar sits after every note bar and the bars of the visible markers before it. */
  lemma MarkersPlaced(markers: seq<PaceMarker>, notes: seq<CoachNote>)
    ensures forall k :: 0 <= k < |markers| && markers[k].isVisible ==>
      |VisibleNotes(notes)| + |VisibleMarkers(markers[..k])| < |MarkersSection(markers, notes)|
      && MarkersSection(markers, notes)[|VisibleNotes(notes)| + |VisibleMarkers(markers[..k])|] == MarkerBar(markers[k])
  {
    var items := MarkersSection(markers, notes);
    MarkersSectionBars(markers, notes);
    var nb, mb := NoteBars(VisibleNotes(notes)), MarkerBars(VisibleMarkers(markers));
    assert items == nb + mb;
    VisibleMarkersInOrder(markers);
    forall k | 0 <= k < |markers| && markers[k].isVisible
      ensures |nb| + |VisibleMarkers(markers[..k])| < |items|
      ensures items[|nb| + |VisibleMarkers(markers[..k])|] == MarkerBar(markers[k])
    {
      var x := |VisibleMarkers(markers[..k])|;
      assert items[|nb| + x] == mb[x];
    }
  }

  /** The section is the note bars followed by the marker bars, which is also nothing when both are empty. */
  lemma MarkersSectionBars(markers: seq<PaceMarker>, notes: seq<CoachNote>)
    ensures MarkersSection(markers, notes) == NoteBars(VisibleNotes(notes)) + MarkerBars(VisibleMarkers(markers))
  {
    var vm, vn := VisibleMarkers(markers), VisibleNotes(notes);
    if |vm| == 0 && |vn| == 0 {
      assert NoteBars(vn) + MarkerBars(vm) == [];
    }
  }

  /** The visible notes in their input order, each at its own place. */
  lemma VisibleNotesInOrder(notes: seq<CoachNote>)
    ensures forall k, k' :: 0 <= k < k' <= |notes| && notes[k].isVisible ==>
      |VisibleNotes(notes[..k])| < |VisibleNotes(notes[..k'])| <= |VisibleNotes(notes)|
    ensures forall k :: 0 <= k < |notes| && notes[k].isVisible ==>
      |VisibleNotes(notes[..k])| < |VisibleNotes(notes)| && VisibleNotes(notes)[|VisibleNotes(notes[..k])|] == notes[k]
  {
    FilterInOrder((n: CoachNote) => n.isVisible, notes);
  }

  /** The visible markers in their input order, each at its own place. */
  lemma VisibleMarkersInOrder(markers: seq<PaceMarker>)
    ensures forall k, k' :: 0 <= k < k' <= |markers| && markers[k].isVisible ==>
      |VisibleMarkers(markers[..k])| < |VisibleMarkers(markers[..k'])| <= |VisibleMarkers(markers)|
    ensures forall k :: 0 <= k < |markers| && markers[k].isVisible ==>
      |VisibleMarkers(markers[..k])| < |VisibleMarkers(markers)| && VisibleMarkers(markers)[|VisibleMarkers(markers[..k])|] == markers[k]
  {
    FilterInOrder((m: PaceMarker) => m.isVisible, markers);
  }
}
