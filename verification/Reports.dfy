/** HID reports and the merging of mouse motion. */
module Reports {
  import opened Types

  datatype KeyboardReport = KeyboardReport(modifier: u8, reserved: u8, keycodes: Octets6)
  datatype ConsumerReport = ConsumerReport(usage: u16)
  datatype MouseReport = MouseReport(buttons: u8, x: i8, y: i8, wheel: i8, pan: i8)

  datatype HidReport =
    | Keyboard(k: KeyboardReport)
    | Mouse(m: MouseReport)
    | Consumer(c: ConsumerReport)

  function Clamp(v: int): i8 {
    if v < -128 then -128 else if v > 127 then 127 else v
  }

  /** `i8::saturating_add`. */
  function SaturatingAdd(a: i8, b: i8): i8 {
    Clamp(a as int + b as int)
  }

  function MergedWith(older: MouseReport, newer: MouseReport): MouseReport {
    MouseReport(
      newer.buttons,
      SaturatingAdd(older.x, newer.x),
      SaturatingAdd(older.y, newer.y),
      SaturatingAdd(older.wheel, newer.wheel),
      SaturatingAdd(older.pan, newer.pan))
  }

  // ─── What a batch of merged reports delivers ───────────────────────────────

  /** The one report that a nonempty batch, merged in order, is delivered as. */
  function MergeAll(batch: seq<MouseReport>): MouseReport
    requires batch != []
  {
    var n := |batch| - 1;
    if n == 0 then batch[0] else MergedWith(MergeAll(batch[..n]), batch[n])
  }

  datatype Axis = X | Y | Wheel | Pan

  function Delta(m: MouseReport, axis: Axis): i8 {
    match axis
    case X => m.x
    case Y => m.y
    case Wheel => m.wheel
    case Pan => m.pan
  }

  /** True travel of a sequence of reports along one axis. */
  function Travel(ms: seq<MouseReport>, axis: Axis): int {
    if ms == [] then 0 else Travel(ms[..|ms| - 1], axis) + Delta(ms[|ms| - 1], axis) as int
  }

  lemma {:induction false} TravelConcat(a: seq<MouseReport>, b: seq<MouseReport>, axis: Axis)
    ensures Travel(a + b, axis) == Travel(a, axis) + Travel(b, axis)
  {
    if b == [] {
      assert a + b == a;
    } else {
      var n := |b| - 1;
      assert (a + b)[..|a + b| - 1] == a + b[..n];
      TravelConcat(a, b[..n], axis);
    }
  }

  /** No partial sum of the batch leaves the `i8` range. */
  ghost predicate StaysInRange(batch: seq<MouseReport>, axis: Axis) {
    batch == [] || (StaysInRange(batch[..|batch| - 1], axis) && -128 <= Travel(batch, axis) <= 127)
  }

  /** At every stage of the merge the pending report carries the true travel so far. */
  ghost predicate ExactAtEveryStage(batch: seq<MouseReport>, axis: Axis) {
    batch == []
    || (ExactAtEveryStage(batch[..|batch| - 1], axis) && Delta(MergeAll(batch), axis) as int == Travel(batch, axis))
  }

  /** A merged batch is exact at every stage if and only if no partial sum leaves the `i8` range. */
  lemma {:induction false} MergeExactIff(batch: seq<MouseReport>, axis: Axis)
    ensures ExactAtEveryStage(batch, axis) <==> StaysInRange(batch, axis)
    decreases |batch|
  {
    if |batch| == 1 {
      assert batch[..0] == [];
      assert Travel(batch, axis) == Delta(batch[0], axis) as int;
      assert ExactAtEveryStage(batch[..0], axis) && StaysInRange(batch[..0], axis);
    } else if batch != [] {
      var init := batch[..|batch| - 1];
      MergeExactIff(init, axis);
      assert ExactAtEveryStage(init, axis) ==> Delta(MergeAll(init), axis) as int == Travel(init, axis);
    }
  }

  /** What the last merge of the batch comes to before it saturates. */
  function Unclamped(batch: seq<MouseReport>, axis: Axis): int
    requires batch != []
  {
    var n := |batch| - 1;
    (if n == 0 then 0 else Delta(MergeAll(batch[..n]), axis) as int) + Delta(batch[n], axis) as int
  }

  /** Travel cut off at the upper end while the batch was merged. */
  function CutAbove(batch: seq<MouseReport>, axis: Axis): nat {
    if batch == [] then 0
    else CutAbove(batch[..|batch| - 1], axis) + (if Unclamped(batch, axis) > 127 then Unclamped(batch, axis) - 127 else 0)
  }

  /** Travel cut off at the lower end. */
  function CutBelow(batch: seq<MouseReport>, axis: Axis): nat {
    if batch == [] then 0
    else CutBelow(batch[..|batch| - 1], axis) + (if Unclamped(batch, axis) < -128 then -128 - Unclamped(batch, axis) else 0)
  }

  /**
   Delivered travel is true travel less what was cut off above and plus what was cut off below:
   the total of a batch survives exactly if the two cuts cancel, and nothing is cut at all
   exactly if no partial sum leaves the `i8` range.
   */
  lemma {:induction false} TravelAccounted(batch: seq<MouseReport>, axis: Axis)
    requires batch != []
    ensures Delta(MergeAll(batch), axis) as int == Travel(batch, axis) - CutAbove(batch, axis) + CutBelow(batch, axis)
    ensures StaysInRange(batch, axis) <==> CutAbove(batch, axis) == 0 && CutBelow(batch, axis) == 0
    decreases |batch|
  {
    var n := |batch| - 1;
    if n > 0 {
      TravelAccounted(batch[..n], axis);
    } else {
      assert batch[..0] == [];
    }
  }

  lemma OneMore(batch: seq<MouseReport>, m: MouseReport, axis: Axis)
    ensures Travel(batch + [m], axis) == Travel(batch, axis) + Delta(m, axis) as int
    ensures StaysInRange(batch + [m], axis) <==> StaysInRange(batch, axis) && -128 <= Travel(batch + [m], axis) <= 127
    ensures Delta(MergeAll(batch + [m]), axis)
            == if batch == [] then Delta(m, axis) else SaturatingAdd(Delta(MergeAll(batch), axis), Delta(m, axis))
  {
    assert (batch + [m])[..|batch|] == batch;
  }

  /** A total can survive although partial sums leave the range: 200 is reached, -128 is delivered and true. */
  lemma CutsCanCancel(right: MouseReport, left: MouseReport, back: MouseReport)
    requires right.x == 100 && left.x == -128 && back.x == -72
    ensures var batch := [] + [right] + [right] + [left] + [left] + [back];
            Delta(MergeAll(batch), X) as int == Travel(batch, X) == -128 && !StaysInRange(batch, X)
  {
    var b1 := [] + [right];
    var b2 := b1 + [right];
    var b3 := b2 + [left];
    var b4 := b3 + [left];
    OneMore([], right, X);
    OneMore(b1, right, X);
    OneMore(b2, left, X);
    OneMore(b3, left, X);
    OneMore(b4, back, X);
  }

  /**
   A batch whose deltas all point the same way is delivered as its true travel, cut off
   once at the edge of the `i8` range.
   */
  lemma {:induction false} SameSignClamps(batch: seq<MouseReport>, axis: Axis)
    requires batch != []
    requires (forall m | m in batch :: Delta(m, axis) >= 0) || (forall m | m in batch :: Delta(m, axis) <= 0)
    ensures Delta(MergeAll(batch), axis) == Clamp(Travel(batch, axis))
    decreases |batch|
  {
    var n := |batch| - 1;
    assert batch[n] in batch;
    if n > 0 {
      SameSignClamps(batch[..n], axis);
      SameSignTravel(batch[..n], axis);
    } else {
      assert batch[..0] == [];
    }
  }

  lemma {:induction false} SameSignTravel(batch: seq<MouseReport>, axis: Axis)
    ensures (forall m | m in batch :: Delta(m, axis) >= 0) ==> Travel(batch, axis) >= 0
    ensures (forall m | m in batch :: Delta(m, axis) <= 0) ==> Travel(batch, axis) <= 0
    decreases |batch|
  {
    if batch != [] {
      assert batch[|batch| - 1] in batch;
      SameSignTravel(batch[..|batch| - 1], axis);
    }
  }

  /** The delivered buttons are the newest of the batch. */
  lemma NewestButtons(batch: seq<MouseReport>)
    requires batch != []
    ensures MergeAll(batch).buttons == batch[|batch| - 1].buttons
  {}

  /** Total travel is not always preserved: two fast moves in one batch lose 73 counts. */
  lemma SaturationLosesTravel()
    ensures var fast := MouseReport(0, 100, 0, 0, 0);
            Travel([fast, fast], X) == 200 && Delta(MergeAll([fast, fast]), X) == 127
  {
    var fast := MouseReport(0, 100, 0, 0, 0);
    assert [fast, fast][..1] == [fast];
    assert Travel([fast], X) == Travel([fast][..0], X) + 100;
  }
}
