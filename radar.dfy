/**
 * The radar frame decoder of uniden/uniden.go (`handleRadarEvent`) and
 * the `RadarEvent` record of uniden/settings.go.
 *
 * A frame is split on '&' into slots; the position of a slot is the
 * index of the alert it describes. A slot "0" clears that alert; any
 * other slot is split on ',' and gives the band (field 2), the strength
 * (field 3) and the frequency (field 5). `time.Now()` is the parameter
 * `now`.
 *
 * An alert whose slot index is past the end of the table is appended,
 * so it lands at the end of the table and not at its own index.
 * `ApplyFrameAsWritten` is that code, and the session uses it;
 * `ApplyFrame`, which pads the table with cleared alerts up to the slot
 * index, is the slot-indexed reading it is compared with.
 */
module Radar {
  import opened Wrappers
  import opened GoStrings
  import opened Utils
  import opened Types

  /** `RadarEvent`; `Cleared` is Go's zero `RadarEvent{}`. */
  datatype RadarEvent =
    | Cleared
    | Alert(band: Band, frequency: Float32, strength: int, lastUpdate: int)

  /** The slot text that clears an alert. */
  const ClearSlot: string := "0"

  /**
   * One slot that is not "0". Go reads `sections[5]` first, so fewer than
   * six fields is an index panic; a strength that is not an integer is a
   * `ParseInt` panic.
   */
  function SlotEvent(slot: string, now: int): (r: Result<RadarEvent, Error>)
    ensures r.Ok? <==> |Split(slot, ',')| >= 6 && Atoi(Split(slot, ',')[3]).Some?
    ensures r.Ok? ==> r.value == Alert(Split(slot, ',')[2], ParseFloat32(Split(slot, ',')[5]),
                                       Atoi(Split(slot, ',')[3]).value, now)
    ensures r.Err? ==> r.error.Panic?
  {
    var fields := Split(slot, ',');
    if |fields| < 6 then Err(Panic("index out of range"))
    else
      match ParseInt(fields[3])
      case Err(e) => Err(e)
      case Ok(strength) => Ok(Alert(fields[2], ParseFloat32(fields[5]), strength, now))
  }

  /** Whether a slot decodes: "0", or an alert record whose strength parses. */
  predicate SlotDecodes(slot: string, now: int) {
    slot == ClearSlot || SlotEvent(slot, now).Ok?
  }

  /** The index of the first slot of a frame that does not decode. */
  function FirstBadSlot(slots: seq<string>, now: int): (r: Option<nat>)
    ensures r.Some? ==> r.value < |slots| && !SlotDecodes(slots[r.value], now)
    ensures r.Some? ==> forall i :: 0 <= i < r.value ==> SlotDecodes(slots[i], now)
    ensures r.None? <==> forall i :: 0 <= i < |slots| ==> SlotDecodes(slots[i], now)
    decreases |slots|
  {
    if |slots| == 0 then None
    else if !SlotDecodes(slots[0], now) then Some(0)
    else
      match FirstBadSlot(slots[1..], now)
      case None => None
      case Some(j) => Some(j + 1)
  }

  /** What a decodable slot leaves at its index. */
  function SlotResult(slot: string, now: int): RadarEvent
    requires SlotDecodes(slot, now)
  {
    if slot == ClearSlot then Cleared else SlotEvent(slot, now).value
  }

  // ---------------------------------------------------------------------
  // As written
  // ---------------------------------------------------------------------

  /** An alert stored as written: overwritten in place, or appended when the index is past the end. */
  function PlaceAsWritten(alerts: seq<RadarEvent>, index: nat, event: RadarEvent): (r: seq<RadarEvent>)
    ensures index < |alerts| ==> |r| == |alerts| && r[index] == event
    ensures index >= |alerts| ==> |r| == |alerts| + 1 && r[|alerts|] == event
    ensures forall k :: 0 <= k < |alerts| && k != index ==> r[k] == alerts[k]
  {
    if index < |alerts| then alerts[index := event] else alerts + [event]
  }

  /** One slot as written; a "0" past the end of the table does nothing. */
  function ApplySlotAsWritten(alerts: seq<RadarEvent>, index: nat, slot: string, now: int): Result<seq<RadarEvent>, Error> {
    if slot == ClearSlot then Ok(if index < |alerts| then alerts[index := Cleared] else alerts)
    else
      match SlotEvent(slot, now)
      case Err(e) => Err(e)
      case Ok(event) => Ok(PlaceAsWritten(alerts, index, event))
  }

  /** `handleRadarEvent`'s loop as written, slot by slot in frame order. */
  function ApplyFrameAsWritten(alerts: seq<RadarEvent>, slots: seq<string>, now: int): Result<seq<RadarEvent>, Error>
    decreases |slots|
  {
    if |slots| == 0 then Ok(alerts)
    else
      match ApplyFrameAsWritten(alerts, slots[..|slots| - 1], now)
      case Err(e) => Err(e)
      case Ok(a) => ApplySlotAsWritten(a, |slots| - 1, slots[|slots| - 1], now)
  }

  /**
   * As written, a frame never shortens the table and lengthens it by at
   * most one alert per slot.
   */
  lemma {:induction false} ApplyFrameAsWrittenNeverShrinks(alerts: seq<RadarEvent>, slots: seq<string>, now: int)
    ensures ApplyFrameAsWritten(alerts, slots, now).Ok? ==>
      |alerts| <= |ApplyFrameAsWritten(alerts, slots, now).value| <= |alerts| + |slots|
    decreases |slots|
  {
    if |slots| > 0 {
      ApplyFrameAsWrittenNeverShrinks(alerts, slots[..|slots| - 1], now);
    }
  }

  /**
   * The alerts of the slots of a decodable frame that are not "0", in
   * frame order: what the code as written appends once the slot index has
   * passed the end of the table.
   */
  function AppendedAlerts(slots: seq<string>, now: int): (r: seq<RadarEvent>)
    requires forall i :: 0 <= i < |slots| ==> SlotDecodes(slots[i], now)
    ensures |r| <= |slots|
    ensures forall k :: 0 <= k < |r| ==> r[k].Alert?
    decreases |slots|
  {
    if |slots| == 0 then []
    else
      var init := AppendedAlerts(slots[..|slots| - 1], now);
      if slots[|slots| - 1] == ClearSlot then init else init + [SlotResult(slots[|slots| - 1], now)]
  }

  /**
   * The table a decodable frame leaves as written: inside the old table
   * each slot overwrites the alert at its index (a "0" clearing it), and
   * the alerts of the slots past the old table's end follow it, in frame
   * order, whatever their slot indices.
   */
  predicate AsWrittenResult(alerts: seq<RadarEvent>, slots: seq<string>, now: int, r: seq<RadarEvent>)
    requires forall i :: 0 <= i < |slots| ==> SlotDecodes(slots[i], now)
  {
    var m := if |slots| < |alerts| then |slots| else |alerts|;
    && |alerts| <= |r|
    && (forall k :: 0 <= k < |alerts| ==> r[k] == if k < |slots| then SlotResult(slots[k], now) else alerts[k])
    && r[|alerts|..] == AppendedAlerts(slots[m..], now)
  }

  /**
   * As written, a frame decodes exactly when every slot does; the slots
   * inside the old table then overwrite their index, and the alerts of
   * the remaining slots are appended in frame order.
   */
  lemma {:induction false} ApplyFrameAsWrittenClosedForm(alerts: seq<RadarEvent>, slots: seq<string>, now: int)
    ensures ApplyFrameAsWritten(alerts, slots, now).Ok? <==> forall i :: 0 <= i < |slots| ==> SlotDecodes(slots[i], now)
    ensures ApplyFrameAsWritten(alerts, slots, now).Ok? ==>
      AsWrittenResult(alerts, slots, now, ApplyFrameAsWritten(alerts, slots, now).value)
    ensures ApplyFrameAsWritten(alerts, slots, now).Err? ==> ApplyFrameAsWritten(alerts, slots, now).error.Panic?
    decreases |slots|
  {
    ApplyFrameAsWrittenDecodes(alerts, slots, now);
    if |slots| > 0 && ApplyFrameAsWritten(alerts, slots, now).Ok? {
      var n := |slots| - 1;
      var init := slots[..n];
      ApplyFrameAsWrittenClosedForm(alerts, init, now);
      var a := ApplyFrameAsWritten(alerts, init, now).value;
      if n < |alerts| {
        AsWrittenInside(alerts, slots, now, a);
      } else {
        AsWrittenPast(alerts, slots, now, a);
      }
    }
  }

  /** As written, a frame decodes exactly when every slot does, and a failure is a panic. */
  lemma {:induction false} ApplyFrameAsWrittenDecodes(alerts: seq<RadarEvent>, slots: seq<string>, now: int)
    ensures ApplyFrameAsWritten(alerts, slots, now).Ok? <==> forall i :: 0 <= i < |slots| ==> SlotDecodes(slots[i], now)
    ensures ApplyFrameAsWritten(alerts, slots, now).Err? ==> ApplyFrameAsWritten(alerts, slots, now).error.Panic?
    decreases |slots|
  {
    if |slots| > 0 {
      var n := |slots| - 1;
      ApplyFrameAsWrittenDecodes(alerts, slots[..n], now);
      assert forall i :: 0 <= i < n ==> slots[i] == slots[..n][i];
    }
  }

  /** The last slot of a frame, when its index is inside the old table, overwrites that index. */
  lemma AsWrittenInside(alerts: seq<RadarEvent>, slots: seq<string>, now: int, a: seq<RadarEvent>)
    requires 0 < |slots| <= |alerts|
    requires forall i :: 0 <= i < |slots| ==> SlotDecodes(slots[i], now)
    requires AsWrittenResult(alerts, slots[..|slots| - 1], now, a)
    ensures ApplySlotAsWritten(a, |slots| - 1, slots[|slots| - 1], now).Ok?
    ensures AsWrittenResult(alerts, slots, now, ApplySlotAsWritten(a, |slots| - 1, slots[|slots| - 1], now).value)
  {
    var n := |slots| - 1;
    var init := slots[..n];
    assert slots[|slots|..] == [] && init[n..] == [];
    assert |a| == |alerts|;
    var r := ApplySlotAsWritten(a, n, slots[n], now).value;
    assert r == a[n := SlotResult(slots[n], now)];
    assert forall k :: 0 <= k < n ==> init[k] == slots[k];
  }

  /** The last slot of a frame, once its index has passed the old table's end, is appended (or, as "0", does nothing). */
  lemma AsWrittenPast(alerts: seq<RadarEvent>, slots: seq<string>, now: int, a: seq<RadarEvent>)
    requires |alerts| < |slots|
    requires forall i :: 0 <= i < |slots| ==> SlotDecodes(slots[i], now)
    requires AsWrittenResult(alerts, slots[..|slots| - 1], now, a)
    ensures ApplySlotAsWritten(a, |slots| - 1, slots[|slots| - 1], now).Ok?
    ensures AsWrittenResult(alerts, slots, now, ApplySlotAsWritten(a, |slots| - 1, slots[|slots| - 1], now).value)
  {
    var n := |slots| - 1;
    var init := slots[..n];
    var tail := slots[|alerts|..];
    assert tail[..|tail| - 1] == init[|alerts|..];
    assert tail[|tail| - 1] == slots[n];
    var before := AppendedAlerts(init[|alerts|..], now);
    assert a == a[..|alerts|] + before;
    assert |a| <= n;
    var r := ApplySlotAsWritten(a, n, slots[n], now).value;
    if slots[n] == ClearSlot {
      assert r == a;
      assert AppendedAlerts(tail, now) == before;
    } else {
      assert r == a + [SlotResult(slots[n], now)];
      assert AppendedAlerts(tail, now) == before + [SlotResult(slots[n], now)];
      assert r[|alerts|..] == before + [SlotResult(slots[n], now)];
    }
    assert forall k :: 0 <= k < |alerts| ==> init[k] == slots[k];
  }

  /** As written, on an empty table a frame leaves exactly the alerts of its non-"0" slots, in frame order. */
  lemma ApplyFrameAsWrittenOnEmpty(slots: seq<string>, now: int)
    requires ApplyFrameAsWritten([], slots, now).Ok?
    ensures forall i :: 0 <= i < |slots| ==> SlotDecodes(slots[i], now)
    ensures ApplyFrameAsWritten([], slots, now).value == AppendedAlerts(slots, now)
  {
    ApplyFrameAsWrittenClosedForm([], slots, now);
    assert slots[0..] == slots;
  }

  /** As written too, a slot that fails stops the frame. */
  lemma {:induction false} ApplyFrameAsWrittenStops(alerts: seq<RadarEvent>, slots: seq<string>, n: nat, now: int)
    requires n <= |slots| && ApplyFrameAsWritten(alerts, slots[..n], now).Err?
    ensures ApplyFrameAsWritten(alerts, slots, now) == ApplyFrameAsWritten(alerts, slots[..n], now)
    decreases |slots| - n
  {
    if n < |slots| {
      assert slots[..|slots| - 1][..n] == slots[..n];
      ApplyFrameAsWrittenStops(alerts, slots[..|slots| - 1], n, now);
    } else {
      assert slots[..n] == slots;
    }
  }

  /** Reading one more slot of a frame, as written. */
  lemma ApplyFrameAsWrittenStep(alerts: seq<RadarEvent>, slots: seq<string>, i: nat, now: int, table: seq<RadarEvent>)
    requires i < |slots| && ApplyFrameAsWritten(alerts, slots[..i], now) == Ok(table)
    ensures slots[i] == ClearSlot ==>
      ApplyFrameAsWritten(alerts, slots[..i + 1], now) == Ok(if i < |table| then table[i := Cleared] else table)
    ensures slots[i] != ClearSlot && SlotEvent(slots[i], now).Ok? ==>
      var event := SlotEvent(slots[i], now).value;
      ApplyFrameAsWritten(alerts, slots[..i + 1], now) == Ok(if i < |table| then table[i := event] else table + [event])
  {
    assert slots[..i + 1][..i] == slots[..i];
  }

  /**
   * A frame whose slot `i` is the first that cannot be read panics there;
   * the slots before it have then overwritten the alerts inside the old
   * table, and appended any others after it.
   */
  lemma ApplyFrameAsWrittenPanicsAt(alerts: seq<RadarEvent>, slots: seq<string>, i: nat, now: int, table: seq<RadarEvent>)
    requires i < |slots| && ApplyFrameAsWritten(alerts, slots[..i], now) == Ok(table)
    requires slots[i] != ClearSlot && SlotEvent(slots[i], now).Err?
    ensures ApplyFrameAsWritten(alerts, slots, now) == Err(SlotEvent(slots[i], now).error)
    ensures FirstBadSlot(slots, now) == Some(i)
    ensures |alerts| <= |table|
    ensures forall k :: 0 <= k < |alerts| ==> table[k] == if k < i then SlotResult(slots[k], now) else alerts[k]
  {
    assert slots[..i + 1][..i] == slots[..i];
    ApplyFrameAsWrittenStops(alerts, slots, i + 1, now);
    ApplyFrameAsWrittenClosedForm(alerts, slots[..i], now);
    assert forall k :: 0 <= k < i ==> slots[..i][k] == slots[k];
  }

  // ---------------------------------------------------------------------
  // Slot-indexed
  // ---------------------------------------------------------------------

  /** An alert stored at its own index, the table padded with cleared alerts when it is too short. */
  function Place(alerts: seq<RadarEvent>, index: nat, event: RadarEvent): (r: seq<RadarEvent>)
    ensures |r| == if index < |alerts| then |alerts| else index + 1
    ensures r[index] == event
    ensures forall k :: 0 <= k < |r| && k != index ==> r[k] == if k < |alerts| then alerts[k] else Cleared
  {
    if index < |alerts| then alerts[index := event]
    else alerts + seq(index - |alerts|, _ => Cleared) + [event]
  }

  /** One slot at its own index. */
  function ApplySlot(alerts: seq<RadarEvent>, index: nat, slot: string, now: int): (r: Result<seq<RadarEvent>, Error>)
    ensures r.Ok? <==> SlotDecodes(slot, now)
    ensures r.Err? ==> r.error.Panic?
  {
    if slot == ClearSlot then Ok(if index < |alerts| then alerts[index := Cleared] else alerts)
    else
      match SlotEvent(slot, now)
      case Err(e) => Err(e)
      case Ok(event) => Ok(Place(alerts, index, event))
  }

  /** A frame, slot by slot in frame order, each slot at its own index. */
  function ApplyFrame(alerts: seq<RadarEvent>, slots: seq<string>, now: int): Result<seq<RadarEvent>, Error>
    decreases |slots|
  {
    if |slots| == 0 then Ok(alerts)
    else
      match ApplyFrame(alerts, slots[..|slots| - 1], now)
      case Err(e) => Err(e)
      case Ok(a) => ApplySlot(a, |slots| - 1, slots[|slots| - 1], now)
  }

  /** A slot that fails stops the frame: the rest of the frame is never read. */
  lemma {:induction false} ApplyFrameStops(alerts: seq<RadarEvent>, slots: seq<string>, n: nat, now: int)
    requires n <= |slots| && ApplyFrame(alerts, slots[..n], now).Err?
    ensures ApplyFrame(alerts, slots, now) == ApplyFrame(alerts, slots[..n], now)
    decreases |slots| - n
  {
    if n < |slots| {
      assert slots[..|slots| - 1][..n] == slots[..n];
      ApplyFrameStops(alerts, slots[..|slots| - 1], n, now);
    } else {
      assert slots[..n] == slots;
    }
  }

  /** The table a decodable frame leaves: what the frame says at each slot index, the old alert elsewhere. */
  predicate FrameResult(alerts: seq<RadarEvent>, slots: seq<string>, now: int, r: seq<RadarEvent>)
    requires forall i :: 0 <= i < |slots| ==> SlotDecodes(slots[i], now)
  {
    && |alerts| <= |r|
    && (forall i :: 0 <= i < |slots| && slots[i] != ClearSlot ==> i < |r|)
    && (|r| <= |alerts| || |r| <= |slots|)
    && (forall k :: 0 <= k < |r| ==> r[k] == if k < |slots| then SlotResult(slots[k], now) else alerts[k])
  }

  /**
   * A frame decodes exactly when every slot does; the alerts then sit at
   * their slot indices, a "0" slot leaves a cleared alert (or nothing,
   * past the end of the table), alerts past the frame are untouched and
   * none is removed.
   */
  lemma {:induction false} ApplyFrameClosedForm(alerts: seq<RadarEvent>, slots: seq<string>, now: int)
    ensures ApplyFrame(alerts, slots, now).Ok? <==> forall i :: 0 <= i < |slots| ==> SlotDecodes(slots[i], now)
    ensures ApplyFrame(alerts, slots, now).Ok? ==> FrameResult(alerts, slots, now, ApplyFrame(alerts, slots, now).value)
    ensures ApplyFrame(alerts, slots, now).Err? ==> ApplyFrame(alerts, slots, now).error.Panic?
    decreases |slots|
  {
    if |slots| > 0 {
      var init := slots[..|slots| - 1];
      var n := |slots| - 1;
      ApplyFrameClosedForm(alerts, init, now);
      assert forall i :: 0 <= i < n ==> slots[i] == init[i];
      if ApplyFrame(alerts, init, now).Ok? && SlotDecodes(slots[n], now) {
        var a := ApplyFrame(alerts, init, now).value;
        var r := ApplyFrame(alerts, slots, now).value;
        forall k | 0 <= k < |r|
          ensures r[k] == if k < |slots| then SlotResult(slots[k], now) else alerts[k]
        {
          if k < n && k < |a| {
            assert r[k] == a[k];
          }
        }
      }
    }
  }

  /** Clearing one slot touches no other alert. */
  lemma ClearTouchesOnlyItsSlot(alerts: seq<RadarEvent>, index: nat, now: int)
    ensures ApplySlot(alerts, index, ClearSlot, now) == Ok(if index < |alerts| then alerts[index := Cleared] else alerts)
    ensures forall k :: 0 <= k < |alerts| && k != index ==> ApplySlot(alerts, index, ClearSlot, now).value[k] == alerts[k]
  { }

  /** While every slot index is inside the table, the code as written and the corrected decoder agree. */
  lemma {:induction false} ApplyFrameAgreesInsideTable(alerts: seq<RadarEvent>, slots: seq<string>, now: int)
    requires |slots| <= |alerts|
    ensures ApplyFrameAsWritten(alerts, slots, now) == ApplyFrame(alerts, slots, now)
    ensures ApplyFrame(alerts, slots, now).Ok? ==> |ApplyFrame(alerts, slots, now).value| == |alerts|
    decreases |slots|
  {
    if |slots| > 0 {
      ApplyFrameAgreesInsideTable(alerts, slots[..|slots| - 1], now);
    }
  }

  /** The fields of the alert record of the example frame. */
  const ExampleRecord: seq<string> := ["12", "00", "K", "5", "123", "24.109", "0", "1"]

  /** The example frame: slot 1 holds a K-band alert, slots 0, 2 and 3 are "0". */
  function ExampleSlots(): seq<string> {
    [ClearSlot, Join(ExampleRecord, ','), ClearSlot, ClearSlot]
  }

  /** The alert of the example frame's slot 1. */
  lemma ExampleAlert(now: int)
    ensures SlotEvent(Join(ExampleRecord, ','), now) == Ok(Alert("K", Float32("24.109"), 5, now))
  {
    var fields := Split(Join(ExampleRecord, ','), ',');
    assert forall i :: 0 <= i < |ExampleRecord| ==> ',' !in ExampleRecord[i];
    SplitJoin(ExampleRecord, ',');
    assert fields[3] == "5" && fields[2] == "K" && fields[5] == "24.109";
    assert Itoa(5) == "5";
    ParseIntItoa(5);
    assert ParseInt(fields[3]) == Ok(5);
    assert IsDecimalLiteral("24.109") by {
      var lit := "24.109";
      assert IsDigit(lit[0]);
      assert forall i :: 0 <= i < |lit| && i != 2 ==> IsDigit(lit[i]);
    }
    ParseFloat32FailSoft("24.109");
    assert ParseFloat32(fields[5]) == Float32("24.109");
  }

  /**
   * On an empty table the example frame's alert is appended at index 0
   * by the code as written, while the frame places it in slot 1; the
   * corrected decoder leaves slot 0 cleared and the alert at index 1.
   */
  lemma ExampleFrameMisplaced(now: int)
    ensures ApplyFrameAsWritten([], ExampleSlots(), now) == Ok([Alert("K", Float32("24.109"), 5, now)])
    ensures ApplyFrame([], ExampleSlots(), now) == Ok([Cleared, Alert("K", Float32("24.109"), 5, now)])
  {
    ExampleAlert(now);
    var s := ExampleSlots();
    var record := Join(ExampleRecord, ',');
    assert record[0] == '1' by {
      assert record == ExampleRecord[0] + [','] + Join(ExampleRecord[1..], ',');
    }
    assert record != ClearSlot;
    var alert := Alert("K", Float32("24.109"), 5, now);
    assert s[..1] == [ClearSlot] && s[..2] == [ClearSlot, record] && s[..3] == [ClearSlot, record, ClearSlot];
    assert s[..2][..1] == s[..1] && s[..3][..2] == s[..2] && s[..4] == s && s[..3] == s[..|s| - 1];
    assert SlotEvent(record, now) == Ok(alert);
    assert ApplyFrameAsWritten([], s[..1], now) == Ok([]);
    assert PlaceAsWritten([], 1, alert) == [alert];
    assert ApplySlotAsWritten([], 1, record, now) == Ok([alert]);
    assert ApplyFrameAsWritten([], s[..2], now) == Ok([alert]);
    assert ApplyFrameAsWritten([], s[..3], now) == Ok([alert]);
    assert ApplyFrame([], s[..1], now) == Ok([]);
    assert Place([], 1, alert) == [Cleared, alert];
    assert ApplySlot([], 1, record, now) == Ok([Cleared, alert]);
    assert ApplyFrame([], s[..2], now) == Ok([Cleared, alert]);
    assert ApplyFrame([], s[..3], now) == Ok([Cleared, alert]);
  }
}
