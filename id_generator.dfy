/**
 * `IdGenerator`: ids of the form "<kind>_<clock>_<counter>", where the
 * counter is shared by every kind and goes up by one on each call. The
 * clock reading is a parameter.
 */
module IdGen {
  import opened Text

  /** The four id families, one per generator function. */
  datatype IdKind = LaneId | PresetId | PaceId | NoteId
  {
    function Prefix(): (p: string)
      ensures NoDigits(p) && |p| > 0 && p[|p| - 1] == '_'
    {
      match this
      case LaneId => "lane_"
      case PresetId => "preset_"
      case PaceId => "pace_"
      case NoteId => "note_"
    }
  }

  /** The id a call returns for `kind`, the clock reading `now` and the incremented counter `count`. */
  function IdText(kind: IdKind, now: int, count: int): string {
    kind.Prefix() + IntToString(now) + "_" + IntToString(count)
  }

  /** The last number an id shows is the counter value it was made with. */
  lemma IdShowsCount(kind: IdKind, now: int, count: int)
    requires count >= 0
    ensures var v := Values(IdText(kind, now, count)); |v| >= 1 && v[|v| - 1] == count
  {
    var a := kind.Prefix() + IntToString(now) + "_";
    var d := IntToString(count);
    assert a[|a| - 1] == '_';
    RunsAppendDigits(a, d);
    assert IdText(kind, now, count) == a + d;
  }

  /** Ids made with different counter values differ, whatever their kinds and clock readings. */
  lemma IdsDistinct(k1: IdKind, now1: int, c1: int, k2: IdKind, now2: int, c2: int)
    requires 0 <= c1 && 0 <= c2 && c1 != c2
    ensures IdText(k1, now1, c1) != IdText(k2, now2, c2)
  {
    IdShowsCount(k1, now1, c1);
    IdShowsCount(k2, now2, c2);
  }

  /** `id` ends in a number no larger than `counter`: a generator at `counter` may have issued it. */
  predicate IssuedUpTo(id: string, counter: int) {
    var v := Values(id); |v| >= 1 && v[|v| - 1] <= counter
  }

  /** An id made at count `count` counts as issued by any generator that has reached `count`. */
  lemma IdIssuedBy(kind: IdKind, now: int, count: int, counter: int)
    requires 0 <= count <= counter
    ensures IssuedUpTo(IdText(kind, now, count), counter)
  {
    IdShowsCount(kind, now, count);
  }

  /** The next id a generator at `counter` issues is not among those it may already have issued. */
  lemma NextIdIsNew(kind: IdKind, now: int, counter: int)
    requires counter >= 0
    ensures IssuedUpTo(IdText(kind, now, counter + 1), counter + 1)
    ensures !IssuedUpTo(IdText(kind, now, counter + 1), counter)
  {
    IdShowsCount(kind, now, counter + 1);
  }

  /** The process-wide generator; its counter starts at 0. */
  class IdGenerator {
    var counter: int

    constructor ()
      ensures counter == 0
    {
      counter := 0;
    }

    /** `generateId`, `generatePresetId`, `generatePaceId`, `generateNoteId`: bump the counter, then format. */
    method Generate(kind: IdKind, now: int) returns (id: string)
      modifies this
      ensures counter == old(counter) + 1
      ensures id == IdText(kind, now, counter)
    {
      counter := counter + 1;
      id := kind.Prefix() + IntToString(now) + "_" + IntToString(counter);
    }
  }
}
