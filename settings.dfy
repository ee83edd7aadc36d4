/**
 * uniden/settings.go: the setting record, its static or dynamic value
 * list, the generators that build value lists, and the searches over the
 * registry (by name, by storage offset, by value id, by value name).
 */
module Settings {
  import opened Wrappers
  import opened GoStrings
  import opened Utils
  import opened Types

  /** One discrete choice of a setting. */
  datatype Value = Value(name: string, id: int)

  /** What `getByInt` answers when no value has the id: Go's zero `Value{}`. */
  const EmptyValue: Value := Value("", 0)

  /** The arguments of one speed-table generator call: an mph range and a kph range. */
  datatype SpeedRanges = SpeedRanges(mphStart: int, mphEnd: int, mphStep: int, kphStart: int, kphEnd: int, kphStep: int)

  /**
   * A dynamic value list, chosen against the live registry:
   * `SpeedsByIndex` is `getSpeedValues` (ids are list positions),
   * `OffOrSpeedLiteral` is `"Off":0` followed by `getSpeedValuesLiteral`
   * (ids are the speeds themselves).
   */
  datatype Resolver =
    | SpeedsByIndex(ranges: SpeedRanges)
    | OffOrSpeedLiteral(ranges: SpeedRanges)

  /**
   * A setting. `storageIndex` maps a model to the setting's offset in the
   * device's settings dump; `values` is the static list and
   * `dynamicValues` the resolver, when there is one; `valueInt` is the
   * current value id.
   */
  datatype Setting = Setting(
    name: string,
    storageIndex: map<Model, int>,
    values: seq<Value>,
    dynamicValues: Option<Resolver>,
    valueInt: int)

  const BooleanValues: seq<Value> := [Value("False", 0), Value("True", 1)]

  const ColorValues: seq<Value> := [
    Value("Blue", 0), Value("Amber", 1), Value("Green", 2), Value("Pink", 3),
    Value("Gray", 4), Value("Red", 5), Value("White", 6), Value("Purple", 7)]

  const BandColorValues: seq<Value> := [
    Value("Signal strength", 0), Value("Blue", 1), Value("Amber", 2), Value("Green", 3),
    Value("Pink", 4), Value("Gray", 5), Value("Red", 6), Value("White", 7), Value("Purple", 8)]

  const ToneValues: seq<Value> := [
    Value("TONE_1", 0), Value("TONE_2", 1), Value("TONE_3", 2), Value("TONE_4", 3),
    Value("TONE_5", 4), Value("TONE_6", 5), Value("TONE_7", 6), Value("TONE_8", 7),
    Value("TONE_9", 8), Value("TONE_10", 9), Value("TONE_11", 10), Value("TONE_12", 11)]

  // ---------------------------------------------------------------------
  // Value-list generators
  // ---------------------------------------------------------------------

  /**
   * One value per element `x` of `Step(r, step)`: named by `x`'s decimal
   * text followed by `suffix`, with id `x` when `valueIsID` and the
   * element's position otherwise.
   */
  function ValueList(r: IntRange, step: int, suffix: string, valueIsID: bool): seq<Value> {
    var xs := Stepped(r, step);
    seq(|xs|, i requires 0 <= i < |xs| => Value(Itoa(xs[i]) + suffix, if valueIsID then xs[i] else i))
  }

  /** Entry `i` of a value list is named and numbered by `start + i * step`. */
  lemma ValueListAt(r: IntRange, step: int, suffix: string, valueIsID: bool, i: int)
    requires 0 <= i < |ValueList(r, step, suffix, valueIsID)|
    ensures step > 0
    ensures ValueList(r, step, suffix, valueIsID)[i].name == Itoa(r.start + i * step) + suffix
    ensures ValueList(r, step, suffix, valueIsID)[i].id == if valueIsID then r.start + i * step else i
  {
    SteppedIsProgression(r, step);
  }

  /** A slider list (ids by position) over a non-empty range: its length and every entry. */
  lemma SlidersAt(r: IntRange, step: int, suffix: string)
    requires step > 0 && r.start <= r.end
    ensures |ValueList(r, step, suffix, false)| == (r.end - r.start) / step + 1
    ensures forall i :: 0 <= i < |ValueList(r, step, suffix, false)| ==>
      ValueList(r, step, suffix, false)[i] == Value(Itoa(r.start + i * step) + suffix, i)
  {
    SteppedLength(r, step);
    forall i | 0 <= i < |ValueList(r, step, suffix, false)|
      ensures ValueList(r, step, suffix, false)[i] == Value(Itoa(r.start + i * step) + suffix, i)
    {
      ValueListAt(r, step, suffix, false, i);
    }
  }

  lemma ValueListIs(vs: seq<Value>, r: IntRange, step: int, suffix: string, valueIsID: bool)
    requires |vs| == |Stepped(r, step)|
    requires forall j :: 0 <= j < |vs| ==>
      vs[j] == Value(Itoa(Stepped(r, step)[j]) + suffix, if valueIsID then Stepped(r, step)[j] else j)
    ensures vs == ValueList(r, step, suffix, valueIsID)
  {
  }

  /** `generateSlidersRange`: one value per step, id = position, name = the number and the suffix. */
  method GenerateSlidersRange(min: int, max: int, step: int, suffix: string) returns (values: seq<Value>)
    ensures values == ValueList(IntRange(min, max), step, suffix, false)
    ensures |values| == |Stepped(IntRange(min, max), step)|
    ensures forall i :: 0 <= i < |values| ==> values[i].id == i && values[i].name == Itoa(min + i * step) + suffix
  {
    var xs := Step(IntRange(min, max), step);
    values := [];
    var idx := 0;
    while idx < |xs|
      invariant 0 <= idx <= |xs|
      invariant |values| == idx
      invariant forall j :: 0 <= j < idx ==> values[j] == Value(Itoa(xs[j]) + suffix, j)
    {
      values := values + [Value(Itoa(xs[idx]) + suffix, idx)];
      idx := idx + 1;
    }
    forall i | 0 <= i < |values|
      ensures values[i].id == i && values[i].name == Itoa(min + i * step) + suffix
    {
      ValueListAt(IntRange(min, max), step, suffix, false, i);
    }
  }

  /**
   * `generateSpeedValues`: the mph and the kph tables. Names carry the
   * unit only `withUnit`; ids are the speeds when `valueIsID`, positions
   * otherwise.
   */
  method GenerateSpeedValues(
    mphStart: int, mphEnd: int, mphSteps: int,
    kphStart: int, kphEnd: int, kphSteps: int,
    withUnit: bool, valueIsID: bool)
    returns (mph: seq<Value>, kph: seq<Value>)
    ensures mph == ValueList(IntRange(mphStart, mphEnd), mphSteps, if withUnit then "mph" else "", valueIsID)
    ensures kph == ValueList(IntRange(kphStart, kphEnd), kphSteps, if withUnit then "kph" else "", valueIsID)
  {
    var suffix := "";
    mph := [];
    var xs := Step(IntRange(mphStart, mphEnd), mphSteps);
    var idx := 0;
    while idx < |xs|
      invariant 0 <= idx <= |xs|
      invariant |mph| == idx
      invariant forall j :: 0 <= j < idx ==>
        mph[j] == Value(Itoa(xs[j]) + (if withUnit then "mph" else ""), if valueIsID then xs[j] else j)
    {
      suffix := if withUnit then "mph" else "";
      var key := if valueIsID then xs[idx] else idx;
      mph := mph + [Value(Itoa(xs[idx]) + suffix, key)];
      idx := idx + 1;
    }
    ValueListIs(mph, IntRange(mphStart, mphEnd), mphSteps, if withUnit then "mph" else "", valueIsID);
    kph := [];
    xs := Step(IntRange(kphStart, kphEnd), kphSteps);
    idx := 0;
    while idx < |xs|
      invariant 0 <= idx <= |xs|
      invariant |kph| == idx
      invariant forall j :: 0 <= j < idx ==>
        kph[j] == Value(Itoa(xs[j]) + (if withUnit then "kph" else ""), if valueIsID then xs[j] else j)
    {
      suffix := if withUnit then "kph" else "";
      var key := if valueIsID then xs[idx] else idx;
      kph := kph + [Value(Itoa(xs[idx]) + suffix, key)];
      idx := idx + 1;
    }
    ValueListIs(kph, IntRange(kphStart, kphEnd), kphSteps, if withUnit then "kph" else "", valueIsID);
  }

  /** The storage map of a boolean setting that has an offset on every model. */
  function Offsets3(r4: int, r8: int, r9: int): map<Model, int> {
    map[R4 := r4, R8 := r8, R9 := r9]
  }

  /** A boolean setting as `generateBool(r4, r8, r9)(name)` builds it. */
  function Flag(name: string, r4: int, r8: int, r9: int): Setting {
    Setting(name, Offsets3(r4, r8, r9), BooleanValues, None, 0)
  }

  /** The model the `p`-th argument of `generateBool` belongs to. */
  function ModelAt(p: nat): Model
    requires p < 3
  {
    if p == 0 then R4 else if p == 1 then R8 else R9
  }

  /**
   * `generateBool(indexes...)(name)`: a boolean setting whose offset for
   * the `p`-th model is `indexes[p]`; `-1` leaves that model out and
   * arguments past the third are ignored.
   */
  method GenerateBool(indexes: seq<int>, name: string) returns (s: Setting)
    ensures s.name == name && s.values == BooleanValues && s.dynamicValues == None && s.valueInt == 0
    ensures forall p :: 0 <= p < 3 ==>
      (ModelAt(p) in s.storageIndex <==> p < |indexes| && indexes[p] != -1)
    ensures forall p :: 0 <= p < 3 && ModelAt(p) in s.storageIndex ==> s.storageIndex[ModelAt(p)] == indexes[p]
    ensures |indexes| == 3 && -1 !in indexes ==> s == Flag(name, indexes[0], indexes[1], indexes[2])
  {
    var si: map<Model, int> := map[];
    var i := 0;
    while i < |indexes|
      invariant 0 <= i <= |indexes|
      invariant forall p :: 0 <= p < 3 ==> (ModelAt(p) in si <==> p < i && indexes[p] != -1)
      invariant forall p :: 0 <= p < 3 && ModelAt(p) in si ==> si[ModelAt(p)] == indexes[p]
    {
      var v := indexes[i];
      if v != -1 {
        if i == 0 {
          si := si[R4 := v];
        }
        if i == 1 {
          si := si[R8 := v];
        }
        if i == 2 {
          si := si[R9 := v];
        }
      }
      i := i + 1;
    }
    s := Setting(name, si, BooleanValues, None, 0);
    if |indexes| == 3 && -1 !in indexes {
      var full := Offsets3(indexes[0], indexes[1], indexes[2]);
      forall m: Model
        ensures m in si && m in full && si[m] == full[m]
      {
        match m
        case R4 => assert m == ModelAt(0);
        case R8 => assert m == ModelAt(1);
        case R9 => assert m == ModelAt(2);
      }
      assert si.Keys == full.Keys;
    }
  }

  /** `generateKaSegment`: segment `n`'s offset on each model is the model's base `- 1 + n`. */
  function KaSegment(segNum: int, r4i: int, r8i: int, r9i: int): (s: Setting)
    ensures s.storageIndex.Keys == {R4, R8, R9}
    ensures s.storageIndex[R4] - r4i == s.storageIndex[R8] - r8i == s.storageIndex[R9] - r9i == segNum - 1
  {
    Setting("Ka Segment " + Itoa(segNum),
      map[R4 := (r4i - 1) + segNum, R8 := (r8i - 1) + segNum, R9 := (r9i - 1) + segNum],
      BooleanValues, None, 0)
  }

  // ---------------------------------------------------------------------
  // Searches
  // ---------------------------------------------------------------------

  /** `getDeviceStorageIndex`: the offset for the model, or Go's zero value 0 when the model has no entry. */
  function StorageIndexFor(s: Setting, model: Model): int {
    if model in s.storageIndex then s.storageIndex[model] else 0
  }

  /** `getByDeviceStorageIndex`: the position of the first setting whose offset for the model is `index`. */
  function FindByOffset(reg: seq<Setting>, model: Model, index: int): (r: Option<nat>)
    ensures r.Some? ==> r.value < |reg| && StorageIndexFor(reg[r.value], model) == index
    ensures r.Some? ==> forall j :: 0 <= j < r.value ==> StorageIndexFor(reg[j], model) != index
    ensures r.None? <==> forall j :: 0 <= j < |reg| ==> StorageIndexFor(reg[j], model) != index
    decreases |reg|
  {
    if |reg| == 0 then None
    else if StorageIndexFor(reg[0], model) == index then Some(0)
    else
      match FindByOffset(reg[1..], model, index)
      case None => None
      case Some(j) => Some(j + 1)
  }

  /** `getByName`: the position of the first setting whose name equals `name` up to case. */
  function FindByName(reg: seq<Setting>, name: string): (r: Option<nat>)
    ensures r.Some? ==> r.value < |reg| && EqualFold(reg[r.value].name, name)
    ensures r.Some? ==> forall j :: 0 <= j < r.value ==> !EqualFold(reg[j].name, name)
    ensures r.None? <==> forall j :: 0 <= j < |reg| ==> !EqualFold(reg[j].name, name)
    decreases |reg|
  {
    if |reg| == 0 then None
    else if EqualFold(reg[0].name, name) then Some(0)
    else
      match FindByName(reg[1..], name)
      case None => None
      case Some(j) => Some(j + 1)
  }

  /** First match is determined by the entries up to it: the setting at `k` is found when it is the first to match. */
  lemma FindByNameIs(reg: seq<Setting>, name: string, k: nat)
    requires k < |reg| && EqualFold(reg[k].name, name)
    requires forall j :: 0 <= j < k ==> !EqualFold(reg[j].name, name)
    ensures FindByName(reg, name) == Some(k)
  {
  }

  /** Any matching setting bounds the search: the answer is at or before it. */
  lemma FindByOffsetAtOrBefore(reg: seq<Setting>, model: Model, k: nat)
    requires k < |reg|
    ensures FindByOffset(reg, model, StorageIndexFor(reg[k], model)).Some?
    ensures FindByOffset(reg, model, StorageIndexFor(reg[k], model)).value <= k
  {
  }

  /**
   * An entry that shares its offset with an earlier entry is never the
   * one `getByDeviceStorageIndex` answers, so a settings dump never
   * writes it.
   */
  lemma ShadowedByOffset(reg: seq<Setting>, model: Model, early: nat, late: nat)
    requires early < late < |reg|
    requires StorageIndexFor(reg[early], model) == StorageIndexFor(reg[late], model)
    ensures forall index :: FindByOffset(reg, model, index) != Some(late)
  {
  }

  /**
   * Of two settings with the same name, the later is never the one
   * `getByName` answers: the lookup stops at or before the earlier.
   */
  lemma ShadowedByName(reg: seq<Setting>, early: nat, late: nat)
    requires early < late < |reg| && reg[early].name == reg[late].name
    ensures forall name :: FindByName(reg, name) != Some(late)
    ensures FindByName(reg, reg[late].name).Some? && FindByName(reg, reg[late].name).value <= early
  {
  }

  /** The position of the first value with id `id`. */
  function IndexOfId(vs: seq<Value>, id: int): (r: Option<nat>)
    ensures r.Some? ==> r.value < |vs| && vs[r.value].id == id
    ensures r.Some? ==> forall j :: 0 <= j < r.value ==> vs[j].id != id
    ensures r.None? <==> forall j :: 0 <= j < |vs| ==> vs[j].id != id
    decreases |vs|
  {
    if |vs| == 0 then None
    else if vs[0].id == id then Some(0)
    else
      match IndexOfId(vs[1..], id)
      case None => None
      case Some(j) => Some(j + 1)
  }

  /** The position of the first value whose name equals `name` up to case. */
  function IndexOfName(vs: seq<Value>, name: string): (r: Option<nat>)
    ensures r.Some? ==> r.value < |vs| && EqualFold(vs[r.value].name, name)
    ensures r.Some? ==> forall j :: 0 <= j < r.value ==> !EqualFold(vs[j].name, name)
    ensures r.None? <==> forall j :: 0 <= j < |vs| ==> !EqualFold(vs[j].name, name)
    decreases |vs|
  {
    if |vs| == 0 then None
    else if EqualFold(vs[0].name, name) then Some(0)
    else
      match IndexOfName(vs[1..], name)
      case None => None
      case Some(j) => Some(j + 1)
  }

  /** `getByInt`: the first value with the id, or the empty value when there is none. */
  function GetByInt(vs: seq<Value>, id: int): (v: Value)
    ensures (exists j :: 0 <= j < |vs| && vs[j].id == id) ==>
      exists k :: 0 <= k < |vs| && vs[k] == v && v.id == id && forall j :: 0 <= j < k ==> vs[j].id != id
    ensures (forall j :: 0 <= j < |vs| ==> vs[j].id != id) ==> v == EmptyValue
  {
    match IndexOfId(vs, id)
    case Some(j) => vs[j]
    case None => EmptyValue
  }

  /**
   * The speed table for the units: mph or kph, ids by position
   * (`getSpeedValues`) or by speed (`getSpeedValuesLiteral`).
   */
  function SpeedTable(r: SpeedRanges, mph: bool, literal: bool): seq<Value> {
    if mph then ValueList(IntRange(r.mphStart, r.mphEnd), r.mphStep, "mph", literal)
    else ValueList(IntRange(r.kphStart, r.kphEnd), r.kphStep, "kph", literal)
  }

  /**
   * Whether the current "Speed Units" value is named "MPH". A missing
   * "Speed Units" is a nil dereference; a dynamic one would resolve
   * itself forever (a stack overflow). Both abort the program.
   */
  function SpeedUnitsIsMph(reg: seq<Setting>): Result<bool, Error> {
    match FindByName(reg, "Speed Units")
    case None => Err(Panic("nil pointer dereference"))
    case Some(u) =>
      if reg[u].dynamicValues.Some? then Err(Panic("stack overflow"))
      else Ok(GetByInt(reg[u].values, reg[u].valueInt).name == "MPH")
  }

  /** The registries in which every resolver can run: the first "Speed Units" exists and is static. */
  predicate SpeedUnitsStatic(reg: seq<Setting>) {
    FindByName(reg, "Speed Units").Some? && reg[FindByName(reg, "Speed Units").value].dynamicValues.None?
  }

  function Resolve(reg: seq<Setting>, res: Resolver): Result<seq<Value>, Error> {
    match SpeedUnitsIsMph(reg)
    case Err(e) => Err(e)
    case Ok(mph) =>
      match res
      case SpeedsByIndex(r) => Ok(SpeedTable(r, mph, false))
      case OffOrSpeedLiteral(r) => Ok([Value("Off", 0)] + SpeedTable(r, mph, true))
  }

  /** `GetValues`: the resolver's list, computed against the live registry, or else the static list. */
  function GetValues(reg: seq<Setting>, s: Setting): Result<seq<Value>, Error> {
    match s.dynamicValues
    case None => Ok(s.values)
    case Some(res) => Resolve(reg, res)
  }

  /** `CurrentValue`: the value of the current list that has the current id (empty when none has it). */
  function CurrentValue(reg: seq<Setting>, s: Setting): (r: Result<Value, Error>)
    ensures r.Ok? <==> GetValues(reg, s).Ok?
    ensures r.Err? ==> r.error == GetValues(reg, s).error
    ensures r.Ok? ==> var vs := GetValues(reg, s).value;
      || (exists k :: 0 <= k < |vs| && vs[k] == r.value && r.value.id == s.valueInt
                      && forall j :: 0 <= j < k ==> vs[j].id != s.valueInt)
      || (r.value == EmptyValue && forall j :: 0 <= j < |vs| ==> vs[j].id != s.valueInt)
  {
    match GetValues(reg, s)
    case Err(e) => Err(e)
    case Ok(vs) => Ok(GetByInt(vs, s.valueInt))
  }

  /** `GetValueInt`: the id of the first value of the current list named `name` up to case. */
  function GetValueInt(reg: seq<Setting>, s: Setting, name: string): (r: Result<int, Error>)
    ensures r.Ok? ==> GetValues(reg, s).Ok?
    ensures r.Ok? ==> var vs := GetValues(reg, s).value;
      exists k :: 0 <= k < |vs| && EqualFold(vs[k].name, name) && vs[k].id == r.value
                  && forall j :: 0 <= j < k ==> !EqualFold(vs[j].name, name)
    ensures r.Err? && GetValues(reg, s).Err? ==> r.error == GetValues(reg, s).error
    ensures GetValues(reg, s).Ok? && r.Err? ==>
      r.error == ValueNotFound && forall v :: v in GetValues(reg, s).value ==> !EqualFold(v.name, name)
  {
    match GetValues(reg, s)
    case Err(e) => Err(e)
    case Ok(vs) =>
      match IndexOfName(vs, name)
      case Some(j) => Ok(vs[j].id)
      case None => Err(ValueNotFound)
  }

  /**
   * `ValidateValueInt`, as written: membership in the STATIC list only.
   * The resolver is not consulted.
   */
  function ValidateValueInt(s: Setting, valueInt: int): (ok: bool)
    ensures ok <==> exists j :: 0 <= j < |s.values| && s.values[j].id == valueInt
  {
    IndexOfId(s.values, valueInt).Some?
  }

  /** A setting with only a resolver has no static values, so the as-written check refuses every id. */
  lemma DynamicSettingRejectsEveryId(s: Setting, valueInt: int)
    requires s.dynamicValues.Some? && s.values == []
    ensures !ValidateValueInt(s, valueInt)
  {
  }

  /** Validation against the list the setting currently offers, static or resolved. */
  function ValidateCurrent(reg: seq<Setting>, s: Setting, valueInt: int): (err: Option<Error>)
    ensures err.None? <==> GetValues(reg, s).Ok? && exists v :: v in GetValues(reg, s).value && v.id == valueInt
    ensures GetValues(reg, s).Ok? && err.Some? ==> err.value == ValueNotFound
  {
    match GetValues(reg, s)
    case Err(e) => Some(e)
    case Ok(vs) =>
      if IndexOfId(vs, valueInt).Some? then None
      else
        assert forall v :: v in vs ==> v.id != valueInt by {
          forall v | v in vs ensures v.id != valueInt {
            var j :| 0 <= j < |vs| && vs[j] == v;
          }
        }
        Some(ValueNotFound)
  }

  /** On a static setting the corrected check and the as-written one agree. */
  lemma ValidateCurrentAgreesOnStatic(reg: seq<Setting>, s: Setting, valueInt: int)
    requires s.dynamicValues.None?
    ensures ValidateCurrent(reg, s, valueInt).None? <==> ValidateValueInt(s, valueInt)
  {
    if ValidateValueInt(s, valueInt) {
      var j :| 0 <= j < |s.values| && s.values[j].id == valueInt;
      assert s.values[j] in GetValues(reg, s).value;
    }
  }

  /** With a static "Speed Units" first, every setting's value list can be computed. */
  lemma ResolvableWhenSpeedUnitsStatic(reg: seq<Setting>, s: Setting)
    requires SpeedUnitsStatic(reg)
    ensures GetValues(reg, s).Ok?
  {
  }

  /**
   * The speed resolvers follow the units: the mph table exactly when the
   * current "Speed Units" value is named "MPH", the kph table otherwise,
   * including when the current id names no value at all.
   */
  lemma SpeedValuesFollowUnits(reg: seq<Setting>, r: SpeedRanges)
    requires SpeedUnitsStatic(reg)
    ensures var u := reg[FindByName(reg, "Speed Units").value];
      var mph := GetByInt(u.values, u.valueInt).name == "MPH";
      && Resolve(reg, SpeedsByIndex(r)) == Ok(SpeedTable(r, mph, false))
      && Resolve(reg, OffOrSpeedLiteral(r)) == Ok([Value("Off", 0)] + SpeedTable(r, mph, true))
      && ((forall j :: 0 <= j < |u.values| ==> u.values[j].id != u.valueInt) ==> !mph)
  {
  }

  /**
   * A literal speed list starts with "Off":0; every later entry is a
   * speed of the progression, its id the speed and its name the speed
   * followed by the unit.
   */
  lemma OffOrSpeedLiteralShape(reg: seq<Setting>, r: SpeedRanges, i: int)
    requires Resolve(reg, OffOrSpeedLiteral(r)).Ok?
    requires 1 <= i < |Resolve(reg, OffOrSpeedLiteral(r)).value|
    ensures Resolve(reg, OffOrSpeedLiteral(r)).value[0] == Value("Off", 0)
    ensures var v := Resolve(reg, OffOrSpeedLiteral(r)).value[i];
      var mph := SpeedUnitsIsMph(reg).value;
      (mph ==> v.id == r.mphStart + (i - 1) * r.mphStep && v.name == Itoa(v.id) + "mph")
      && (!mph ==> v.id == r.kphStart + (i - 1) * r.kphStep && v.name == Itoa(v.id) + "kph")
  {
    var mph := SpeedUnitsIsMph(reg).value;
    if mph {
      ValueListAt(IntRange(r.mphStart, r.mphEnd), r.mphStep, "mph", true, i - 1);
    } else {
      ValueListAt(IntRange(r.kphStart, r.kphEnd), r.kphStep, "kph", true, i - 1);
    }
  }
}
