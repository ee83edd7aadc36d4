/**
 * The settings decoder of uniden/uniden.go (`handleSettingsUpdate`): the
 * byte at each index of a settings dump is written into the first
 * setting whose offset on the session's model is that index.
 *
 * `Decode` is the reference definition the session's handler is proved
 * against; the lemmas give its closed form, the changed list and its
 * idempotence.
 */
module Sync {
  import opened Wrappers
  import opened Types
  import opened Settings

  /** One byte of a dump, read as Go's `int(value)`. */
  type Byte = x: int | 0 <= x < 256

  /** A decoded registry and the positions of the settings that changed, in dump order. */
  datatype Outcome = Outcome(settings: seq<Setting>, changed: seq<nat>)

  /** Two registries that differ at most in the current ids. */
  predicate SameLayout(a: seq<Setting>, b: seq<Setting>) {
    |a| == |b| && forall i :: 0 <= i < |a| ==> a[i] == b[i].(valueInt := a[i].valueInt)
  }

  /** The searches read only the layout, never the current ids. */
  lemma {:induction false} SameLayoutSameSearches(a: seq<Setting>, b: seq<Setting>, model: Model, index: int, name: string)
    requires SameLayout(a, b)
    ensures FindByOffset(a, model, index) == FindByOffset(b, model, index)
    ensures FindByName(a, name) == FindByName(b, name)
    decreases |a|
  {
    if |a| > 0 {
      assert a[0].name == b[0].name && a[0].storageIndex == b[0].storageIndex by {
        assert a[0] == b[0].(valueInt := a[0].valueInt);
      }
      SameLayoutSameSearches(a[1..], b[1..], model, index, name);
    }
  }

  /** Layout is shared along a chain of registries. */
  lemma SameLayoutTrans(a: seq<Setting>, b: seq<Setting>, c: seq<Setting>)
    requires SameLayout(a, b) && SameLayout(b, c)
    ensures SameLayout(a, c)
  {
    forall i | 0 <= i < |a| ensures a[i] == c[i].(valueInt := a[i].valueInt) {
      assert a[i] == b[i].(valueInt := a[i].valueInt);
      assert b[i] == c[i].(valueInt := b[i].valueInt);
    }
  }

  /** The offset of the `k`-th setting on the model. */
  function OffsetOf(reg: seq<Setting>, model: Model, k: nat): int
    requires k < |reg|
  {
    StorageIndexFor(reg[k], model)
  }

  /** Whether a dump of `len` bytes reaches the `k`-th setting: its offset is in the dump and it is the first there. */
  predicate Reached(reg: seq<Setting>, model: Model, len: nat, k: nat)
    requires k < |reg|
  {
    0 <= OffsetOf(reg, model, k) < len && FindByOffset(reg, model, OffsetOf(reg, model, k)) == Some(k)
  }

  /**
   * One byte of the dump: when its index resolves to a setting with
   * another id, the id is overwritten and the setting recorded as
   * changed. The byte is not checked against the setting's values.
   */
  function Apply(o: Outcome, model: Model, index: int, b: Byte): (r: Outcome)
    ensures SameLayout(r.settings, o.settings)
  {
    match FindByOffset(o.settings, model, index)
    case None => o
    case Some(k) =>
      if o.settings[k].valueInt != b then Outcome(o.settings[k := o.settings[k].(valueInt := b)], o.changed + [k])
      else o
  }

  /** The dump applied byte by byte, in index order. */
  function Decode(reg: seq<Setting>, model: Model, buf: seq<Byte>): (o: Outcome)
    ensures SameLayout(o.settings, reg)
    decreases |buf|
  {
    if |buf| == 0 then Outcome(reg, [])
    else Apply(Decode(reg, model, buf[..|buf| - 1]), model, |buf| - 1, buf[|buf| - 1])
  }

  /** What a dump leaves in the `k`-th setting: the byte at its offset when the dump reaches it. */
  function Expected(reg: seq<Setting>, model: Model, buf: seq<Byte>, k: nat): Setting
    requires k < |reg|
  {
    if Reached(reg, model, |buf|, k) then reg[k].(valueInt := buf[OffsetOf(reg, model, k)]) else reg[k]
  }

  /** Registries of the same layout give every setting the same offset and the same first match. */
  lemma SameLayoutOffsets(a: seq<Setting>, b: seq<Setting>, model: Model, k: nat)
    requires SameLayout(a, b) && k < |a|
    ensures OffsetOf(a, model, k) == OffsetOf(b, model, k)
    ensures FindByOffset(a, model, OffsetOf(a, model, k)) == FindByOffset(b, model, OffsetOf(b, model, k))
  {
    assert a[k] == b[k].(valueInt := a[k].valueInt);
    SameLayoutSameSearches(a, b, model, OffsetOf(a, model, k), "");
  }

  /**
   * After a dump every setting it reaches holds the byte at its offset,
   * and every other setting is as before.
   */
  lemma {:induction false} DecodeClosedForm(reg: seq<Setting>, model: Model, buf: seq<Byte>)
    ensures var s := Decode(reg, model, buf).settings;
      forall k :: 0 <= k < |reg| ==> s[k] == Expected(reg, model, buf, k)
    decreases |buf|
  {
    if |buf| > 0 {
      var prev := buf[..|buf| - 1];
      var index := |buf| - 1;
      DecodeClosedForm(reg, model, prev);
      var ps := Decode(reg, model, prev).settings;
      var s := Decode(reg, model, buf).settings;
      SameLayoutSameSearches(ps, reg, model, index, "");
      forall k | 0 <= k < |reg| ensures s[k] == Expected(reg, model, buf, k) {
        SameLayoutOffsets(ps, reg, model, k);
        assert buf[..index] == prev;
        if OffsetOf(reg, model, k) == index && FindByOffset(reg, model, index) == Some(k) {
          assert Reached(reg, model, |buf|, k);
          assert ps[k] == reg[k];
        } else {
          assert Reached(reg, model, |buf|, k) == Reached(reg, model, |prev|, k);
          assert s[k] == ps[k];
        }
      }
    }
  }

  /** The last byte of a dump: what it resolves to and what it adds to the changed list. */
  lemma DecodeStep(reg: seq<Setting>, model: Model, buf: seq<Byte>)
    requires |buf| > 0
    ensures var index := |buf| - 1;
      var po := Decode(reg, model, buf[..index]);
      var o := Decode(reg, model, buf);
      match FindByOffset(reg, model, index)
      case None =>
        o.changed == po.changed
      case Some(k0) =>
        && OffsetOf(reg, model, k0) == index
        && !Reached(reg, model, index, k0) && Reached(reg, model, |buf|, k0)
        && o.changed == (if reg[k0].valueInt != buf[index] then po.changed + [k0] else po.changed)
  {
    var index := |buf| - 1;
    var po := Decode(reg, model, buf[..index]);
    assert Decode(reg, model, buf) == Apply(po, model, index, buf[index]);
    SameLayoutSameSearches(po.settings, reg, model, index, "");
    match FindByOffset(reg, model, index)
    case None =>
    case Some(k0) =>
      assert OffsetOf(reg, model, k0) == index;
      assert !Reached(reg, model, index, k0);
      DecodeUnreached(reg, model, buf[..index], k0);
  }

  /** A setting the dump has not reached keeps its id. */
  lemma DecodeUnreached(reg: seq<Setting>, model: Model, buf: seq<Byte>, k: nat)
    requires k < |reg| && !Reached(reg, model, |buf|, k)
    ensures k < |Decode(reg, model, buf).settings| && Decode(reg, model, buf).settings[k] == reg[k]
  {
    DecodeClosedForm(reg, model, buf);
  }

  /** A dump of `len` bytes reaches no more than a longer one, and the bytes it reads are the same. */
  lemma ReachedGrows(reg: seq<Setting>, model: Model, buf: seq<Byte>, len: nat, k: nat)
    requires len <= |buf| && k < |reg| && Reached(reg, model, len, k)
    ensures Reached(reg, model, |buf|, k)
  { }

  /** Every setting in the changed list was reached by the dump and held another id than its byte. */
  lemma {:induction false} DecodeChangedReached(reg: seq<Setting>, model: Model, buf: seq<Byte>)
    ensures var c := Decode(reg, model, buf).changed;
      forall j :: 0 <= j < |c| ==>
        c[j] < |reg| && Reached(reg, model, |buf|, c[j]) && reg[c[j]].valueInt != buf[OffsetOf(reg, model, c[j])]
    decreases |buf|
  {
    if |buf| > 0 {
      var prev := buf[..|buf| - 1];
      DecodeChangedReached(reg, model, prev);
      DecodeStep(reg, model, buf);
      var pc := Decode(reg, model, prev).changed;
      forall j | 0 <= j < |pc| ensures Reached(reg, model, |buf|, pc[j]) && buf[OffsetOf(reg, model, pc[j])] == prev[OffsetOf(reg, model, pc[j])] {
        ReachedGrows(reg, model, buf, |prev|, pc[j]);
      }
    }
  }

  /** Every setting the dump reached with another id than its byte is in the changed list. */
  lemma {:induction false} DecodeChangedComplete(reg: seq<Setting>, model: Model, buf: seq<Byte>)
    ensures var c := Decode(reg, model, buf).changed;
      forall k :: 0 <= k < |reg| && Reached(reg, model, |buf|, k) && reg[k].valueInt != buf[OffsetOf(reg, model, k)] ==> k in c
    decreases |buf|
  {
    if |buf| > 0 {
      var prev := buf[..|buf| - 1];
      var index := |buf| - 1;
      DecodeChangedComplete(reg, model, prev);
      DecodeStep(reg, model, buf);
      var pc := Decode(reg, model, prev).changed;
      var c := Decode(reg, model, buf).changed;
      assert forall k :: k in pc ==> k in c;
      forall k | 0 <= k < |reg| && Reached(reg, model, |buf|, k) && reg[k].valueInt != buf[OffsetOf(reg, model, k)]
        ensures k in c
      {
        if OffsetOf(reg, model, k) != index {
          assert Reached(reg, model, |prev|, k);
          assert buf[OffsetOf(reg, model, k)] == prev[OffsetOf(reg, model, k)];
        }
      }
    }
  }

  /** The changed list follows the dump's order: the offsets of its members strictly increase. */
  lemma {:induction false} DecodeChangedOrdered(reg: seq<Setting>, model: Model, buf: seq<Byte>)
    ensures var c := Decode(reg, model, buf).changed;
      forall a, b :: 0 <= a < b < |c| ==> c[b] < |reg| && c[a] < |reg| && OffsetOf(reg, model, c[a]) < OffsetOf(reg, model, c[b])
    decreases |buf|
  {
    if |buf| > 0 {
      var prev := buf[..|buf| - 1];
      DecodeChangedOrdered(reg, model, prev);
      DecodeChangedReached(reg, model, prev);
      DecodeStep(reg, model, buf);
    }
  }

  /**
   * A registry that already holds, in every setting a dump reaches, the
   * byte at its offset is left as it is, with nothing reported changed.
   */
  lemma {:induction false} DecodeFixed(s: seq<Setting>, model: Model, buf: seq<Byte>)
    requires forall k :: 0 <= k < |s| && Reached(s, model, |buf|, k) ==> s[k].valueInt == buf[OffsetOf(s, model, k)]
    ensures Decode(s, model, buf) == Outcome(s, [])
    decreases |buf|
  {
    if |buf| > 0 {
      var prev := buf[..|buf| - 1];
      forall k | 0 <= k < |s| && Reached(s, model, |prev|, k) ensures s[k].valueInt == prev[OffsetOf(s, model, k)] {
        ReachedGrows(s, model, buf, |prev|, k);
      }
      DecodeFixed(s, model, prev);
      var index := |buf| - 1;
      assert Decode(s, model, buf) == Apply(Outcome(s, []), model, index, buf[index]);
      match FindByOffset(s, model, index)
      case None =>
      case Some(k0) =>
        assert OffsetOf(s, model, k0) == index;
        assert Reached(s, model, |buf|, k0);
        assert s[k0].valueInt == buf[index];
    }
  }

  /** Decoding the same dump again changes nothing and reports no change. */
  lemma DecodeIdempotent(reg: seq<Setting>, model: Model, buf: seq<Byte>)
    ensures var s := Decode(reg, model, buf).settings;
      Decode(s, model, buf) == Outcome(s, [])
  {
    var s := Decode(reg, model, buf).settings;
    DecodeClosedForm(reg, model, buf);
    forall k | 0 <= k < |s| && Reached(s, model, |buf|, k) ensures s[k].valueInt == buf[OffsetOf(s, model, k)] {
      SameLayoutOffsets(s, reg, model, k);
    }
    DecodeFixed(s, model, buf);
  }

  /** A dump byte outside a setting's values is stored all the same. */
  lemma DecodeDoesNotValidate(reg: seq<Setting>, model: Model, buf: seq<Byte>, k: nat)
    requires k < |reg| && Reached(reg, model, |buf|, k)
    ensures Decode(reg, model, buf).settings[k].valueInt == buf[OffsetOf(reg, model, k)]
  {
    DecodeClosedForm(reg, model, buf);
  }
}
