/**
 * The conditional callbacks of uniden/uniden.go: registration, the
 * timeout that unregisters a pending entry, and the pass that fires the
 * entries whose condition holds. As written the pass calls the condition
 * of every entry, and an unregistered entry's condition is nil: that is a
 * panic. `RunCorrected` is the pass with those entries skipped.
 *
 * A condition and a callback are Go closures over the session; here each
 * is an identifier, and a pass is given `holding`, the conditions that
 * hold on the session at that moment. What a callback does is not
 * modelled; a pass reports which callbacks it invoked, in order.
 */
module Callbacks {
  import opened Wrappers

  /** The condition and the callback of an entry; `Unregister` clears both together. */
  datatype Handlers = Handlers(condition: nat, callback: nat)

  /** `ConditionalCallbackEvent`; `handlers == None` once unregistered. */
  datatype Entry = Entry(handlers: Option<Handlers>, timeout: nat, completed: bool)

  /** The result of a pass: the entries afterwards and the callbacks invoked, in order. */
  datatype Pass = Pass(entries: seq<Entry>, fired: seq<nat>)

  /** A pending entry, as `RegisterConditionalCallback` appends it. */
  function Register(condition: nat, callback: nat, timeout: nat): (e: Entry)
    ensures Armed(e) && !e.completed
  {
    Entry(Some(Handlers(condition, callback)), timeout, false)
  }

  predicate Armed(e: Entry) {
    e.handlers.Some?
  }

  /** The position of the first unregistered entry: where a pass as written stops. */
  function FirstUnarmed(es: seq<Entry>): (r: Option<nat>)
    ensures r.Some? ==> r.value < |es| && !Armed(es[r.value])
    ensures r.Some? ==> forall i :: 0 <= i < r.value ==> Armed(es[i])
    ensures r.None? <==> forall i :: 0 <= i < |es| ==> Armed(es[i])
    decreases |es|
  {
    if |es| == 0 then None
    else if !Armed(es[0]) then Some(0)
    else
      match FirstUnarmed(es[1..])
      case None => None
      case Some(j) => Some(j + 1)
  }

  /** `Unregister`: the condition and the callback become nil. */
  function Unregister(e: Entry): (u: Entry)
    ensures !Armed(u) && u.timeout == e.timeout && u.completed == e.completed
  {
    e.(handlers := None)
  }

  /** The timeout of the registering goroutine: an entry not yet completed is unregistered. */
  function Expire(e: Entry): (x: Entry)
    ensures e.completed ==> x == e
    ensures !e.completed ==> !Armed(x) && x.timeout == e.timeout && !x.completed
  {
    if e.completed then e else Unregister(e)
  }

  /** Whether the pass fires `e`: it is armed and its condition holds. */
  predicate Fires(e: Entry, holding: set<nat>) {
    e.handlers.Some? && e.handlers.value.condition in holding
  }

  /** A fired entry: completed, then unregistered. */
  function Fired(e: Entry): (f: Entry)
    ensures !Armed(f) && f.completed && f.timeout == e.timeout
  {
    Unregister(e.(completed := true))
  }

  /** One entry as the corrected pass treats it. */
  function Visit(e: Entry, holding: set<nat>): Entry {
    if Fires(e, holding) then Fired(e) else e
  }

  /**
   * `runCallbacks` as written: every entry's condition is called, and
   * calling the nil condition of an unregistered entry is a panic.
   */
  function RunAsWritten(es: seq<Entry>, holding: set<nat>): (r: Result<Pass, Error>)
    decreases |es|
  {
    if |es| == 0 then Ok(Pass([], []))
    else
      var last := es[|es| - 1];
      match RunAsWritten(es[..|es| - 1], holding)
      case Err(e) => Err(e)
      case Ok(p) =>
        if !Armed(last) then Err(NilCall)
        else if last.handlers.value.condition in holding then
          Ok(Pass(p.entries + [Fired(last)], p.fired + [last.handlers.value.callback]))
        else Ok(Pass(p.entries + [last], p.fired))
  }

  /** The panic of a call of a nil condition. */
  const NilCall: Error := Panic("call of nil func value")

  /**
   * What a pass as written leaves behind, whether it panics or not: the
   * entries before the first unregistered one are visited and fire as in
   * the corrected pass; that entry and every later one are untouched.
   */
  function AsWrittenEffect(es: seq<Entry>, holding: set<nat>): (r: Pass)
    ensures |r.entries| == |es|
    ensures FirstUnarmed(es).Some? ==> r.entries[FirstUnarmed(es).value..] == es[FirstUnarmed(es).value..]
  {
    match FirstUnarmed(es)
    case None => Pass(RunCorrected(es, holding).entries, FiredCallbacks(es, holding))
    case Some(j) => Pass(RunCorrected(es[..j], holding).entries + es[j..], FiredCallbacks(es[..j], holding))
  }

  /** The pass as written completes exactly when no entry is unregistered, and then leaves that effect. */
  lemma AsWrittenEffectAgrees(es: seq<Entry>, holding: set<nat>)
    ensures RunAsWritten(es, holding).Ok? <==> FirstUnarmed(es).None?
    ensures RunAsWritten(es, holding).Ok? ==> RunAsWritten(es, holding).value == AsWrittenEffect(es, holding)
    ensures RunAsWritten(es, holding).Err? ==> RunAsWritten(es, holding).error == NilCall
  {
    RunAsWrittenPanics(es, holding);
    if FirstUnarmed(es).None? {
      RunAgreesWhileArmed(es, holding);
      RunCorrectedFires(es, holding);
    }
  }

  /**
   * A list whose first `i` entries have been visited and whose others are
   * untouched is the corrected pass over those `i` entries followed by the
   * rest.
   */
  lemma VisitedPrefix(es: seq<Entry>, i: nat, holding: set<nat>, entries: seq<Entry>)
    requires i <= |es| && |entries| == |es|
    requires forall k :: 0 <= k < i ==> entries[k] == Visit(es[k], holding)
    requires forall k :: i <= k < |es| ==> entries[k] == es[k]
    ensures entries == RunCorrected(es[..i], holding).entries + es[i..]
  {
  }

  /** When entry `i` is the first unregistered one, the effect of the pass as written stops there. */
  lemma PanicEffect(es: seq<Entry>, i: nat, holding: set<nat>)
    requires i < |es| && !Armed(es[i]) && forall k :: 0 <= k < i ==> Armed(es[k])
    ensures FirstUnarmed(es) == Some(i)
    ensures AsWrittenEffect(es, holding) == Pass(RunCorrected(es[..i], holding).entries + es[i..], RunCorrected(es[..i], holding).fired)
  {
    RunCorrectedFires(es[..i], holding);
  }

  /** The pass as intended: unregistered entries are skipped. */
  function RunCorrected(es: seq<Entry>, holding: set<nat>): (r: Pass)
    ensures |r.entries| == |es|
    ensures forall i :: 0 <= i < |es| ==> r.entries[i] == Visit(es[i], holding)
    ensures |r.fired| <= |es|
    decreases |es|
  {
    if |es| == 0 then Pass([], [])
    else
      var last := es[|es| - 1];
      var p := RunCorrected(es[..|es| - 1], holding);
      if Fires(last, holding) then Pass(p.entries + [Fired(last)], p.fired + [last.handlers.value.callback])
      else Pass(p.entries + [last], p.fired)
  }

  /** The pass over one more entry of a list: that entry visited, its callback invoked when it fires. */
  lemma RunCorrectedStep(es: seq<Entry>, i: nat, holding: set<nat>)
    requires i < |es|
    ensures RunCorrected(es[..i + 1], holding).fired ==
      RunCorrected(es[..i], holding).fired + (if Fires(es[i], holding) then [es[i].handlers.value.callback] else [])
  {
    assert es[..i + 1][..i] == es[..i];
  }

  /** The callbacks of the entries a pass fires, in list order. */
  function FiredCallbacks(es: seq<Entry>, holding: set<nat>): seq<nat>
    decreases |es|
  {
    if |es| == 0 then []
    else
      var rest := FiredCallbacks(es[1..], holding);
      if Fires(es[0], holding) then [es[0].handlers.value.callback] + rest else rest
  }

  /** The corrected pass invokes exactly the callbacks of the armed entries whose condition holds, in order. */
  lemma {:induction false} RunCorrectedFires(es: seq<Entry>, holding: set<nat>)
    ensures RunCorrected(es, holding).fired == FiredCallbacks(es, holding)
    decreases |es|
  {
    if |es| > 0 {
      var init := es[..|es| - 1];
      RunCorrectedFires(init, holding);
      FiredCallbacksSnoc(init, es[|es| - 1], holding);
      assert init + [es[|es| - 1]] == es;
    }
  }

  lemma {:induction false} FiredCallbacksSnoc(es: seq<Entry>, e: Entry, holding: set<nat>)
    ensures FiredCallbacks(es + [e], holding) ==
      FiredCallbacks(es, holding) + (if Fires(e, holding) then [e.handlers.value.callback] else [])
    decreases |es|
  {
    if |es| > 0 {
      assert (es + [e])[1..] == es[1..] + [e];
      FiredCallbacksSnoc(es[1..], e, holding);
    }
  }

  /** While every entry is armed, the pass as written does not panic and agrees with the corrected one. */
  lemma {:induction false} RunAgreesWhileArmed(es: seq<Entry>, holding: set<nat>)
    requires forall i :: 0 <= i < |es| ==> Armed(es[i])
    ensures RunAsWritten(es, holding) == Ok(RunCorrected(es, holding))
    decreases |es|
  {
    if |es| > 0 {
      RunAgreesWhileArmed(es[..|es| - 1], holding);
    }
  }

  /** The pass as written panics exactly when some entry is unregistered. */
  lemma {:induction false} RunAsWrittenPanics(es: seq<Entry>, holding: set<nat>)
    ensures RunAsWritten(es, holding).Err? <==> exists i :: 0 <= i < |es| && !Armed(es[i])
    ensures RunAsWritten(es, holding).Err? ==> RunAsWritten(es, holding).error == NilCall
    decreases |es|
  {
    if |es| > 0 {
      var init := es[..|es| - 1];
      RunAsWrittenPanics(init, holding);
      if exists i :: 0 <= i < |init| && !Armed(init[i]) {
        var i :| 0 <= i < |init| && !Armed(init[i]);
        assert es[i] == init[i];
      } else if Armed(es[|es| - 1]) {
        RunAgreesWhileArmed(init, holding);
        assert forall i :: 0 <= i < |es| ==> Armed(es[i]) by {
          forall i | 0 <= i < |es| ensures Armed(es[i]) {
            if i < |es| - 1 {
              assert es[i] == init[i];
            }
          }
        }
      }
    }
  }

  /**
   * Once a pass has fired anything, the next pass as written panics,
   * whatever the conditions then answer: the fired entry stays in the
   * list with a nil condition.
   */
  lemma PanicAfterFiring(es: seq<Entry>, holding: set<nat>, later: set<nat>)
    requires forall i :: 0 <= i < |es| ==> Armed(es[i])
    requires RunAsWritten(es, holding).Ok? && RunAsWritten(es, holding).value.fired != []
    ensures RunAsWritten(RunAsWritten(es, holding).value.entries, later).Err?
  {
    RunAgreesWhileArmed(es, holding);
    var p := RunCorrected(es, holding);
    RunCorrectedFires(es, holding);
    var i := FiringIndex(es, holding);
    assert !Armed(p.entries[i]);
    RunAsWrittenPanics(p.entries, later);
  }

  /** An entry that fires, when the pass fires anything. */
  lemma {:induction false} FiringIndex(es: seq<Entry>, holding: set<nat>) returns (i: nat)
    requires FiredCallbacks(es, holding) != []
    ensures i < |es| && Fires(es[i], holding)
    decreases |es|
  {
    if Fires(es[0], holding) {
      i := 0;
    } else {
      var j := FiringIndex(es[1..], holding);
      i := j + 1;
    }
  }

  /** Likewise once a pending entry has timed out. */
  lemma PanicAfterExpiry(es: seq<Entry>, k: nat, holding: set<nat>)
    requires k < |es| && !es[k].completed
    ensures RunAsWritten(es[k := Expire(es[k])], holding).Err?
  {
    var after := es[k := Expire(es[k])];
    assert !Armed(after[k]);
    RunAsWrittenPanics(after, holding);
  }

  /** A second corrected pass under the same conditions fires nothing and changes nothing. */
  lemma RunCorrectedIdempotent(es: seq<Entry>, holding: set<nat>)
    ensures var p := RunCorrected(es, holding);
      RunCorrected(p.entries, holding) == Pass(p.entries, [])
  {
    var p := RunCorrected(es, holding);
    var q := RunCorrected(p.entries, holding);
    assert q.entries == p.entries;
    NothingFires(p.entries, holding);
    RunCorrectedFires(p.entries, holding);
  }

  lemma {:induction false} NothingFires(es: seq<Entry>, holding: set<nat>)
    requires forall i :: 0 <= i < |es| ==> !Fires(es[i], holding)
    ensures FiredCallbacks(es, holding) == []
    decreases |es|
  {
    if |es| > 0 {
      NothingFires(es[1..], holding);
    }
  }

  /** An entry that has timed out never fires, whatever conditions hold. */
  lemma ExpiredNeverFires(e: Entry, holding: set<nat>)
    requires !e.completed
    ensures !Fires(Expire(e), holding) && Visit(Expire(e), holding) == Expire(e)
  {
  }
}
