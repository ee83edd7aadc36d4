/**
 * The session of uniden/uniden.go: the command text an update sends, the
 * time-zone label `SyncTime` looks up, the characteristic dispatch, and
 * the `Uniden` class whose methods keep the registry, the alert table,
 * the status, the mute cache and the conditional callbacks.
 *
 * The Bluetooth link is not modelled: a command written to the Command
 * characteristic is appended to `outbox`, and a call of a listener is
 * appended to `notices`.
 */
module Uniden {
  import opened Wrappers
  import opened GoStrings
  import opened Utils
  import opened Types
  import opened Settings
  import opened SettingsDefs
  import opened Misc
  import opened Radar
  import Callbacks
  import Sync

  // ---------------------------------------------------------------------
  // Commands
  // ---------------------------------------------------------------------

  const CommandPrefix: string := "BTreqSETC:"

  /** The text `UpdateSetting` writes: the prefix, the offset, '=', the value id. */
  function Command(offset: int, valueInt: int): string {
    CommandPrefix + Itoa(offset) + "=" + Itoa(valueInt)
  }

  /** Reads a command back into its offset and value id; `None` for any other text. */
  function ParseCommand(text: string): Option<(int, int)> {
    if |text| < |CommandPrefix| || text[..|CommandPrefix|] != CommandPrefix then None
    else
      var parts := Split(text[|CommandPrefix|..], '=');
      if |parts| != 2 then None
      else
        match (Atoi(parts[0]), Atoi(parts[1]))
        case (Some(offset), Some(valueInt)) => Some((offset, valueInt))
        case _ => None
  }

  /** A command carries its offset and its value id intact, for every pair of 64-bit integers. */
  lemma CommandRoundTrip(offset: int, valueInt: int)
    requires MinInt64 <= offset <= MaxInt64 && MinInt64 <= valueInt <= MaxInt64
    ensures ParseCommand(Command(offset, valueInt)) == Some((offset, valueInt))
  {
    var text := Command(offset, valueInt);
    var body := Itoa(offset) + "=" + Itoa(valueInt);
    assert text[..|CommandPrefix|] == CommandPrefix && text[|CommandPrefix|..] == body;
    ItoaHasNoSeparator(offset, '=');
    ItoaHasNoSeparator(valueInt, '=');
    assert body == Join([Itoa(offset), Itoa(valueInt)], '=');
    SplitJoin([Itoa(offset), Itoa(valueInt)], '=');
    AtoiItoa(offset);
    AtoiItoa(valueInt);
  }

  /**
   * `UpdateSetting`'s command: the first setting named `name` (up to
   * case) gives the offset; a missing name is an error and no command.
   * The id is not checked.
   */
  function CommandFor(reg: seq<Setting>, model: Model, name: string, valueInt: int): (r: Result<string, Error>)
    ensures r.Err? <==> forall j :: 0 <= j < |reg| ==> !EqualFold(reg[j].name, name)
    ensures r.Err? ==> r.error == SettingNotFound(name)
  {
    match FindByName(reg, name)
    case None => Err(SettingNotFound(name))
    case Some(k) => Ok(Command(StorageIndexFor(reg[k], model), valueInt))
  }

  /**
   * The command for a name reads back as the offset of the first setting
   * of that name and the id asked for.
   */
  lemma CommandForRoundTrip(reg: seq<Setting>, model: Model, name: string, valueInt: int)
    requires CommandFor(reg, model, name, valueInt).Ok?
    requires forall j :: 0 <= j < |reg| ==> MinInt64 <= StorageIndexFor(reg[j], model) <= MaxInt64
    requires MinInt64 <= valueInt <= MaxInt64
    ensures var k := FindByName(reg, name).value;
      ParseCommand(CommandFor(reg, model, name, valueInt).value) == Some((StorageIndexFor(reg[k], model), valueInt))
  {
    CommandRoundTrip(StorageIndexFor(reg[FindByName(reg, name).value], model), valueInt);
  }

  lemma CommandAt(reg: seq<Setting>, model: Model, name: string, valueInt: int, k: nat, offset: int)
    requires FindByName(reg, name) == Some(k) && StorageIndexFor(reg[k], model) == offset
    ensures CommandFor(reg, model, name, valueInt) == Ok(Command(offset, valueInt))
  {
  }

  /** On an R4 "Speed Units" (offset 60) set to KPH (id 1) is the text "BTreqSETC:60=1". */
  lemma SpeedUnitsCommand()
    ensures CommandFor(DefSettings(), R4, "Speed Units", 1) == Ok("BTreqSETC:60=1")
    ensures ParseCommand("BTreqSETC:60=1") == Some((60, 1))
  {
    SpeedUnitsByName();
    SpeedUnitsOffsets();
    CommandAt(DefSettings(), R4, "Speed Units", 1, 11, 60);
    SpeedUnitsText();
  }

  lemma SpeedUnitsText()
    ensures Command(60, 1) == "BTreqSETC:60=1"
    ensures ParseCommand("BTreqSETC:60=1") == Some((60, 1))
  {
    assert Itoa(60) == "60" && Itoa(1) == "1";
    CommandRoundTrip(60, 1);
  }

  /**
   * `Setting.Update` as written: the id must be in the setting's STATIC
   * list, then the command goes to the first setting of the same name.
   */
  function UpdateCommandAsWritten(reg: seq<Setting>, model: Model, k: nat, valueInt: int): (r: Result<string, Error>)
    requires k < |reg|
    ensures !ValidateValueInt(reg[k], valueInt) ==> r == Err(ValueNotFound)
    ensures ValidateValueInt(reg[k], valueInt) ==> r == CommandFor(reg, model, reg[k].name, valueInt)
  {
    if !ValidateValueInt(reg[k], valueInt) then Err(ValueNotFound)
    else CommandFor(reg, model, reg[k].name, valueInt)
  }

  /** `Setting.Update` as intended: the id must be in the list the setting currently offers. */
  function UpdateCommand(reg: seq<Setting>, model: Model, k: nat, valueInt: int): (r: Result<string, Error>)
    requires k < |reg|
    ensures r.Ok? <==> GetValues(reg, reg[k]).Ok? && exists v :: v in GetValues(reg, reg[k]).value && v.id == valueInt
    ensures r.Ok? ==> r == CommandFor(reg, model, reg[k].name, valueInt)
  {
    match ValidateCurrent(reg, reg[k], valueInt)
    case Some(e) => Err(e)
    case None =>
      FindByNameIsSomeForOwnName(reg, k);
      CommandFor(reg, model, reg[k].name, valueInt)
  }

  /** An update of a static setting, found first by its name, to the id of one of its values. */
  lemma UpdateStaticAt(reg: seq<Setting>, model: Model, k: nat, valueInt: int, w: nat)
    requires k < |reg| && reg[k].dynamicValues.None? && FindByName(reg, reg[k].name) == Some(k)
    requires w < |reg[k].values| && reg[k].values[w].id == valueInt
    ensures UpdateCommand(reg, model, k, valueInt) == Ok(Command(StorageIndexFor(reg[k], model), valueInt))
  {
    assert reg[k].values[w] in GetValues(reg, reg[k]).value;
  }

  /** A setting of the registry is always found by its own name. */
  lemma FindByNameIsSomeForOwnName(reg: seq<Setting>, k: nat)
    requires k < |reg|
    ensures FindByName(reg, reg[k].name).Some? && FindByName(reg, reg[k].name).value <= k
  {
    assert EqualFold(reg[k].name, reg[k].name);
  }

  /** On a setting without a resolver the corrected update and the as-written one agree. */
  lemma UpdateCommandAgreesOnStatic(reg: seq<Setting>, model: Model, k: nat, valueInt: int)
    requires k < |reg| && reg[k].dynamicValues.None?
    ensures UpdateCommand(reg, model, k, valueInt) == UpdateCommandAsWritten(reg, model, k, valueInt)
  {
    ValidateCurrentAgreesOnStatic(reg, reg[k], valueInt);
    FindByNameIsSomeForOwnName(reg, k);
  }

  /**
   * An update is sent to the offset of the first setting of its name,
   * which for a duplicated name is not the setting updated.
   */
  lemma UpdateGoesToFirstNamesake(reg: seq<Setting>, model: Model, k: nat, valueInt: int)
    requires k < |reg| && UpdateCommandAsWritten(reg, model, k, valueInt).Ok?
    ensures var first := FindByName(reg, reg[k].name).value;
      first <= k && UpdateCommandAsWritten(reg, model, k, valueInt).value == Command(StorageIndexFor(reg[first], model), valueInt)
  {
    FindByNameIsSomeForOwnName(reg, k);
    var first := FindByName(reg, reg[k].name).value;
    CommandAt(reg, model, reg[k].name, valueInt, first, StorageIndexFor(reg[first], model));
  }

  /** With the catalog's defaults, 80 mph for "Limit speed" is refused as written and accepted as intended. */
  lemma LimitSpeedEightyUpdate(model: Model)
    ensures UpdateCommandAsWritten(DefSettings(), model, 48, 80) == Err(ValueNotFound)
    ensures UpdateCommand(DefSettings(), model, 48, 80) == CommandFor(DefSettings(), model, "Limit speed", 80)
    ensures UpdateCommand(DefSettings(), model, 48, 80).Ok?
  {
    var reg := DefSettings();
    LimitSpeedEightyRefused();
    LimitSpeedName();
    FindByNameIsSomeForOwnName(reg, 48);
    assert UpdateCommandAsWritten(reg, model, 48, 80) == Err(ValueNotFound);
  }

  // ---------------------------------------------------------------------
  // Time zone label
  // ---------------------------------------------------------------------

  /** Go's integer division, which truncates toward zero. */
  function TruncDiv(a: int, b: int): (q: int)
    requires b > 0
    ensures a >= 0 ==> 0 <= a - q * b < b
    ensures a < 0 ==> -b < a - q * b <= 0
  {
    if a >= 0 then a / b else -((-a) / b)
  }

  /**
   * `GetDeviceTimeZoneGMT` as written: "GMT" and the whole hours of the
   * offset with a sign always present (`%+d`), so UTC reads "GMT+0".
   */
  function GmtLabelAsWritten(offsetSeconds: int): string {
    var hours := TruncDiv(offsetSeconds, 3600);
    "GMT" + (if hours >= 0 then "+" else "") + Itoa(hours)
  }

  /** The label as the "Time zone" values name it: plain "GMT" for the zero hour. */
  function GmtLabel(offsetSeconds: int): (text: string)
    ensures TruncDiv(offsetSeconds, 3600) != 0 ==> text == GmtLabelAsWritten(offsetSeconds)
    ensures TruncDiv(offsetSeconds, 3600) == 0 ==> text == "GMT"
  {
    var hours := TruncDiv(offsetSeconds, 3600);
    if hours == 0 then "GMT" else GmtLabelAsWritten(offsetSeconds)
  }

  /** The whole hours of an offset of `h` hours. */
  lemma HoursOf(h: int)
    ensures TruncDiv(h * 3600, 3600) == h
  {
    if h >= 0 {
      DivUnique(h * 3600, 3600, h, 0);
    } else {
      DivUnique(-h * 3600, 3600, -h, 0);
    }
  }


  lemma TimeZoneLabelEast(h: int)
    requires 1 <= h <= 6
    ensures TimeZoneValues[h + 12].name == GmtLabel(h * 3600)
  {
    HoursOf(h);
    if h == 1 {
      assert Itoa(1) == "1";
    } else if h == 2 {
      assert Itoa(2) == "2";
    } else if h == 3 {
      assert Itoa(3) == "3";
    } else if h == 4 {
      assert Itoa(4) == "4";
    } else if h == 5 {
      assert Itoa(5) == "5";
    } else {
      assert Itoa(6) == "6";
    }
  }

  lemma TimeZoneLabelFarEast(h: int)
    requires 7 <= h <= 12
    ensures TimeZoneValues[h + 12].name == GmtLabel(h * 3600)
  {
    HoursOf(h);
    if h == 7 {
      assert Itoa(7) == "7";
    } else if h == 8 {
      assert Itoa(8) == "8";
    } else if h == 9 {
      assert Itoa(9) == "9";
    } else if h == 10 {
      assert Itoa(10) == "10";
    } else if h == 11 {
      assert Itoa(11) == "11";
    } else {
      assert Itoa(12) == "12";
    }
  }

  lemma TimeZoneLabelWest(h: int)
    requires -6 <= h <= -1
    ensures TimeZoneValues[h + 12].name == GmtLabel(h * 3600)
  {
    HoursOf(h);
    if h == -6 {
      assert Itoa(-6) == "-6";
    } else if h == -5 {
      assert Itoa(-5) == "-5";
    } else if h == -4 {
      assert Itoa(-4) == "-4";
    } else if h == -3 {
      assert Itoa(-3) == "-3";
    } else if h == -2 {
      assert Itoa(-2) == "-2";
    } else {
      assert Itoa(-1) == "-1";
    }
  }

  lemma TimeZoneLabelFarWest(h: int)
    requires -12 <= h <= -7
    ensures TimeZoneValues[h + 12].name == GmtLabel(h * 3600)
  {
    HoursOf(h);
    if h == -12 {
      assert Itoa(-12) == "-12";
    } else if h == -11 {
      assert Itoa(-11) == "-11";
    } else if h == -10 {
      assert Itoa(-10) == "-10";
    } else if h == -9 {
      assert Itoa(-9) == "-9";
    } else if h == -8 {
      assert Itoa(-8) == "-8";
    } else {
      assert Itoa(-7) == "-7";
    }
  }

  /** The corrected label of every whole-hour offset from -12 to +12 names a "Time zone" value: the one with id h + 12. */
  lemma TimeZoneLabel(h: int)
    requires -12 <= h <= 12
    ensures TimeZoneValues[h + 12].name == GmtLabel(h * 3600)
    ensures TimeZoneValues[h + 12].id == h + 12
  {
    HoursOf(h);
    if h >= 7 {
      TimeZoneLabelFarEast(h);
    } else if h >= 1 {
      TimeZoneLabelEast(h);
    } else if h <= -7 {
      TimeZoneLabelFarWest(h);
    } else if h <= -1 {
      TimeZoneLabelWest(h);
    }
  }

  /**
   * As written, every offset of less than an hour either way, UTC among
   * them, reads "GMT+0", which no "Time zone" value is named (the zero
   * hour is "GMT"); the corrected label is "GMT".
   */
  lemma UtcLabelNotOffered(offsetSeconds: int)
    requires -3600 < offsetSeconds < 3600
    ensures GmtLabelAsWritten(offsetSeconds) == "GMT+0"
    ensures GmtLabel(offsetSeconds) == "GMT" == TimeZoneValues[12].name
  {
    if offsetSeconds >= 0 {
      DivUnique(offsetSeconds, 3600, 0, offsetSeconds);
    } else {
      DivUnique(-offsetSeconds, 3600, 0, -offsetSeconds);
    }
    assert Itoa(0) == "0";
  }

  /** No "Time zone" value is named "GMT+0", in any case. */
  lemma GmtPlusZeroAbsent()
    ensures forall v :: v in TimeZoneValues ==> !EqualFold(v.name, "GMT+0")
  {
    forall j | 0 <= j < |TimeZoneValues| ensures !EqualFold(TimeZoneValues[j].name, "GMT+0") {
      var name := TimeZoneValues[j].name;
      if j < 3 || 22 <= j || j == 12 {
        assert |name| != 5;
      } else {
        assert IsDigit(name[4]);
        NotEqualFoldAt(name, "GMT+0", 4);
      }
    }
  }

  // ---------------------------------------------------------------------
  // The catalog as a session holds it
  // ---------------------------------------------------------------------

  /** A registry laid out as the catalog: the same settings in the same order, any current ids. */
  predicate CatalogLayout(reg: seq<Setting>) {
    Sync.SameLayout(reg, DefSettings())
  }

  /** In a catalog-shaped registry "Time zone" is entry 65 and "Detector volume" entry 66, as in the catalog. */
  lemma CatalogLookups(reg: seq<Setting>)
    requires CatalogLayout(reg)
    ensures FindByName(reg, "Time zone") == Some(65) && FindByName(reg, "Detector volume") == Some(66)
    ensures reg[65] == DefSettings()[65].(valueInt := reg[65].valueInt)
    ensures reg[66] == DefSettings()[66].(valueInt := reg[66].valueInt)
  {
    TimeZoneByName();
    DetectorVolumeByName();
    Sync.SameLayoutSameSearches(reg, DefSettings(), R4, 0, "Time zone");
    Sync.SameLayoutSameSearches(reg, DefSettings(), R4, 0, "Detector volume");
  }

  /** In a catalog-shaped registry muting (id 0) always validates and goes to the volume's offset. */
  lemma MuteUpdate(reg: seq<Setting>, model: Model)
    requires CatalogLayout(reg)
    ensures UpdateCommandAsWritten(reg, model, 66, 0) == Ok(Command(StorageIndexFor(DefSettings()[66], model), 0))
  {
    CatalogLookups(reg);
    DetectorVolumeEntry();
    UpdateStaticAt(reg, model, 66, 0, 0);
    UpdateCommandAgreesOnStatic(reg, model, 66, 0);
  }

  /** In a catalog-shaped registry an update of the volume to `p` validates exactly when `p` is one of the ids 0 to 8. */
  lemma VolumeUpdateValid(reg: seq<Setting>, model: Model, p: int)
    requires CatalogLayout(reg)
    ensures UpdateCommandAsWritten(reg, model, 66, p).Ok? <==> 0 <= p <= 8
  {
    CatalogLookups(reg);
    DetectorVolumeEntry();
    DetectorVolumeIds();
    UpdateCommandAgreesOnStatic(reg, model, 66, p);
    assert GetValues(reg, reg[66]) == Ok(DetectorVolumeValues);
    if 0 <= p <= 8 {
      assert DetectorVolumeValues[p] in DetectorVolumeValues;
    }
  }

  /**
   * In a catalog-shaped registry the corrected label of an offset whose
   * whole hours are from -12 to +12 resolves to an id that validates, so the
   * corrected `SyncTime` always sends a command.
   */
  lemma TimeZoneUpdates(reg: seq<Setting>, model: Model, offsetSeconds: int)
    requires CatalogLayout(reg) && -12 <= TruncDiv(offsetSeconds, 3600) <= 12
    ensures FindByName(reg, TimeZoneName) == Some(65)
    ensures GetValueInt(reg, reg[65], GmtLabel(offsetSeconds)).Ok?
    ensures UpdateCommand(reg, model, 65, GetValueInt(reg, reg[65], GmtLabel(offsetSeconds)).value).Ok?
  {
    var h := TruncDiv(offsetSeconds, 3600);
    TimeZoneValuesOf(reg);
    TimeZoneLabel(h);
    HoursOf(h);
    assert GmtLabel(offsetSeconds) == GmtLabel(h * 3600);
    LabelFound(reg, reg[65], TimeZoneValues, h + 12, GmtLabel(offsetSeconds));
    LabelUpdates(reg, model, 65, GmtLabel(offsetSeconds));
  }

  /** In a catalog-shaped registry "Time zone" is entry 65, offering the catalog's time-zone labels. */
  lemma TimeZoneValuesOf(reg: seq<Setting>)
    requires CatalogLayout(reg)
    ensures FindByName(reg, TimeZoneName) == Some(65) && GetValues(reg, reg[65]) == Ok(TimeZoneValues)
  {
    CatalogLookups(reg);
    TimeZoneEntry();
  }

  /** A label that some offered value is named, up to case, resolves. */
  lemma LabelFound(reg: seq<Setting>, s: Setting, vs: seq<Value>, j: nat, text: string)
    requires GetValues(reg, s) == Ok(vs) && j < |vs| && EqualFold(vs[j].name, text)
    ensures GetValueInt(reg, s, text).Ok?
  {
    assert vs[j] in vs;
  }

  /** The id a label resolves to passes the corrected value check. */
  lemma LabelUpdates(reg: seq<Setting>, model: Model, k: nat, text: string)
    requires k < |reg| && GetValueInt(reg, reg[k], text).Ok?
    ensures UpdateCommand(reg, model, k, GetValueInt(reg, reg[k], text).value).Ok?
  {
  }

  /** As written, a device clock less than an hour from UTC finds no "Time zone" value. */
  lemma TimeZoneFailsNearUtcAsWritten(reg: seq<Setting>, offsetSeconds: int)
    requires CatalogLayout(reg) && -3600 < offsetSeconds < 3600
    ensures GetValueInt(reg, reg[65], GmtLabelAsWritten(offsetSeconds)) == Err(ValueNotFound)
  {
    CatalogLookups(reg);
    TimeZoneEntry();
    UtcLabelNotOffered(offsetSeconds);
    GmtPlusZeroAbsent();
    LabelMissing(reg, reg[65], TimeZoneValues, "GMT+0");
  }

  /** A label that no offered value is named, in any case, is "value not found". */
  lemma LabelMissing(reg: seq<Setting>, s: Setting, vs: seq<Value>, text: string)
    requires GetValues(reg, s) == Ok(vs) && forall v :: v in vs ==> !EqualFold(v.name, text)
    ensures GetValueInt(reg, s, text) == Err(ValueNotFound)
  {
    assert forall j :: 0 <= j < |vs| ==> vs[j] in vs;
  }

  /**
   * What `SyncTime` sends, as written: the label of the offset's whole
   * hours with its sign always shown, looked up among the "Time zone"
   * values, and the id sent after the static value check. A missing
   * setting or label is an error; a refused id sends nothing but is
   * not an error.
   */
  function TimeSyncAsWritten(reg: seq<Setting>, model: Model, offsetSeconds: int): Result<seq<string>, Error> {
    match FindByName(reg, TimeZoneName)
    case None => Err(SettingNotFound(TimeZoneName))
    case Some(k) =>
      match GetValueInt(reg, reg[k], GmtLabelAsWritten(offsetSeconds))
      case Err(e) => Err(e)
      case Ok(id) =>
        match UpdateCommandAsWritten(reg, model, k, id)
        case Ok(c) => Ok([c])
        case Err(_) => Ok([])
  }

  /** What `SyncTime` sends, with the corrected label and value check. */
  function TimeSync(reg: seq<Setting>, model: Model, offsetSeconds: int): (r: Result<seq<string>, Error>)
    ensures r.Ok? ==> |r.value| <= 1
  {
    match FindByName(reg, TimeZoneName)
    case None => Err(SettingNotFound(TimeZoneName))
    case Some(k) =>
      match GetValueInt(reg, reg[k], GmtLabel(offsetSeconds))
      case Err(e) => Err(e)
      case Ok(id) =>
        match UpdateCommand(reg, model, k, id)
        case Ok(c) => Ok([c])
        case Err(_) => Ok([])
  }

  /** On a catalog-shaped registry, every offset whose whole hours are from -12 to +12 sends one command. */
  lemma TimeSyncOnCatalog(reg: seq<Setting>, model: Model, offsetSeconds: int)
    requires CatalogLayout(reg) && -12 <= TruncDiv(offsetSeconds, 3600) <= 12
    ensures TimeSync(reg, model, offsetSeconds).Ok? && |TimeSync(reg, model, offsetSeconds).value| == 1
  {
    TimeZoneUpdates(reg, model, offsetSeconds);
  }

  /**
   * On a catalog-shaped registry, an offset of at least a whole hour either
   * way is synced as written just as with the corrected label and check.
   */
  lemma TimeSyncAgreesAwayFromUtc(reg: seq<Setting>, model: Model, offsetSeconds: int)
    requires CatalogLayout(reg) && TruncDiv(offsetSeconds, 3600) != 0
    ensures TimeSyncAsWritten(reg, model, offsetSeconds) == TimeSync(reg, model, offsetSeconds)
  {
    CatalogLookups(reg);
    TimeZoneEntry();
    var text := GmtLabel(offsetSeconds);
    assert text == GmtLabelAsWritten(offsetSeconds);
    match GetValueInt(reg, reg[65], text)
    case Err(_) =>
    case Ok(id) =>
      UpdateCommandAgreesOnStatic(reg, model, 65, id);
  }

  /**
   * As written, on a catalog-shaped registry, a clock less than an hour
   * from UTC fails with "value not found", and one from one to twelve
   * whole hours away either way sends one command.
   */
  lemma TimeSyncAsWrittenOnCatalog(reg: seq<Setting>, model: Model, offsetSeconds: int)
    requires CatalogLayout(reg)
    ensures -3600 < offsetSeconds < 3600 ==> TimeSyncAsWritten(reg, model, offsetSeconds) == Err(ValueNotFound)
    ensures TruncDiv(offsetSeconds, 3600) != 0 && -12 <= TruncDiv(offsetSeconds, 3600) <= 12 ==>
      TimeSyncAsWritten(reg, model, offsetSeconds).Ok? && |TimeSyncAsWritten(reg, model, offsetSeconds).value| == 1
  {
    if -3600 < offsetSeconds < 3600 {
      TimeSyncFailsNearUtcAsWritten(reg, model, offsetSeconds);
    } else if TruncDiv(offsetSeconds, 3600) != 0 && -12 <= TruncDiv(offsetSeconds, 3600) <= 12 {
      TimeSyncAgreesAwayFromUtc(reg, model, offsetSeconds);
      TimeSyncOnCatalog(reg, model, offsetSeconds);
    }
  }

  /** As written, on a catalog-shaped registry, a device clock less than an hour from UTC fails to sync. */
  lemma TimeSyncFailsNearUtcAsWritten(reg: seq<Setting>, model: Model, offsetSeconds: int)
    requires CatalogLayout(reg) && -3600 < offsetSeconds < 3600
    ensures TimeSyncAsWritten(reg, model, offsetSeconds) == Err(ValueNotFound)
  {
    TimeZoneFailsNearUtcAsWritten(reg, offsetSeconds);
    CatalogLookups(reg);
    TimeSyncAsWrittenStopsAt(reg, model, offsetSeconds, 65);
  }

  /** Once the label resolves, `TimeSyncAsWritten` sends the as-written update's command, if there is one. */
  lemma TimeSyncAsWrittenAt(reg: seq<Setting>, model: Model, offsetSeconds: int, k: nat, id: int)
    requires FindByName(reg, TimeZoneName) == Some(k)
    requires GetValueInt(reg, reg[k], GmtLabelAsWritten(offsetSeconds)) == Ok(id)
    ensures TimeSyncAsWritten(reg, model, offsetSeconds)
         == Ok(if UpdateCommandAsWritten(reg, model, k, id).Ok? then [UpdateCommandAsWritten(reg, model, k, id).value] else [])
  {
  }

  /** A failed lookup of the as-written label is what `TimeSyncAsWritten` reports. */
  lemma TimeSyncAsWrittenStopsAt(reg: seq<Setting>, model: Model, offsetSeconds: int, k: nat)
    requires FindByName(reg, TimeZoneName) == Some(k)
    requires GetValueInt(reg, reg[k], GmtLabelAsWritten(offsetSeconds)).Err?
    ensures TimeSyncAsWritten(reg, model, offsetSeconds) == Err(GetValueInt(reg, reg[k], GmtLabelAsWritten(offsetSeconds)).error)
  {
  }

  // ---------------------------------------------------------------------
  // Characteristic dispatch
  // ---------------------------------------------------------------------

  /** The handlers `handleCharacteristicUpdate` dispatches to. */
  datatype Handler =
    | GenericAttributeHandler
    | SettingsHandler
    | StatusHandler
    | RadarEventHandler
    | ResponseHandler
    | Unhandled

  /** `handleCharacteristicUpdate`'s switch: an exact match of the UUID text, anything else unhandled. */
  function Route(uuid: CharType): (h: Handler)
    ensures h == SettingsHandler <==> uuid == SettingsChar
    ensures h == StatusHandler <==> uuid == StatusChar
    ensures h == RadarEventHandler <==> uuid == RadarEventChar
    ensures h == Unhandled <==> uuid !in [GenericAttributeChar, SettingsChar, StatusChar, RadarEventChar, ResponseChar]
  {
    CharsDistinct();
    if uuid == GenericAttributeChar then GenericAttributeHandler
    else if uuid == SettingsChar then SettingsHandler
    else if uuid == StatusChar then StatusHandler
    else if uuid == RadarEventChar then RadarEventHandler
    else if uuid == ResponseChar then ResponseHandler
    else Unhandled
  }

  /**
   * The Command characteristic, one character away from the Settings
   * one, has no handler: whatever it notifies is dropped.
   */
  lemma CommandCharUnhandled()
    ensures Route(CommandChar) == Unhandled
  {
    CharsDistinct();
    var cs := AllChars();
    assert CommandChar == cs[4] && cs[4] != cs[0] && cs[4] != cs[1] && cs[4] != cs[2] && cs[4] != cs[3] && cs[4] != cs[5];
  }

  // ---------------------------------------------------------------------
  // The session
  // ---------------------------------------------------------------------

  /** `UnidenCache`: the volume to restore on unmute and two first-time flags. */
  datatype Cache = Cache(preMuteVolume: int, timeSynced: bool, receivedFirstSettings: bool)

  /** `NewUnidenCache`. */
  const InitialCache: Cache := Cache(1, false, false)

  /** The listeners whose presence changes what a handler does. */
  datatype Listener = SettingsListener | StatusListener | RadarListener

  /** A call of a listener, with what it was given. */
  datatype Notice =
    | SettingsChanged(settings: seq<Setting>)
    | StatusUpdated(status: Status)
    | AlertsUpdated(alerts: seq<RadarEvent>)

  /** `string(buf)` for a frame of ASCII bytes: one character per byte. */
  function BytesText(buf: seq<Sync.Byte>): (text: string)
    ensures |text| == |buf| && forall i :: 0 <= i < |buf| ==> text[i] as int == buf[i]
  {
    seq(|buf|, i requires 0 <= i < |buf| => buf[i] as char)
  }

  /**
   * The loop of `handleSettingsUpdate`: each byte of the dump, in index
   * order, is written into the first setting at that offset when it
   * differs from its id, and that setting is recorded as changed.
   */
  method DecodeDump(reg: seq<Setting>, model: Model, buf: seq<Sync.Byte>) returns (regs: seq<Setting>, changed: seq<nat>)
    ensures Sync.Outcome(regs, changed) == Sync.Decode(reg, model, buf)
  {
    regs := reg;
    changed := [];
    var index := 0;
    while index < |buf|
      invariant 0 <= index <= |buf|
      invariant Sync.Outcome(regs, changed) == Sync.Decode(reg, model, buf[..index])
    {
      assert buf[..index + 1][..index] == buf[..index];
      var found := FindByOffset(regs, model, index);
      if found.Some? && regs[found.value].valueInt != buf[index] {
        var k := found.value;
        changed := changed + [k];
        regs := regs[k := regs[k].(valueInt := buf[index])];
      }
      index := index + 1;
    }
    assert buf[..index] == buf;
  }

  /**
   * The loop of `runCallbacks`: in list order each entry's condition is
   * called, and an entry whose condition holds has its callback invoked and
   * is then completed and unregistered. The nil condition of the first
   * unregistered entry is a panic, which ends the pass with the entries
   * before it already visited.
   */
  method RunPass(es: seq<Callbacks.Entry>, holding: set<nat>)
    returns (entries: seq<Callbacks.Entry>, fired: seq<nat>, err: Option<Error>)
    ensures err.None? <==> Callbacks.RunAsWritten(es, holding).Ok?
    ensures err.Some? ==> err.value == Callbacks.RunAsWritten(es, holding).error
    ensures Callbacks.Pass(entries, fired) == Callbacks.AsWrittenEffect(es, holding)
  {
    entries := es;
    fired := [];
    err := None;
    var i := 0;
    while i < |es|
      invariant |entries| == |es| && 0 <= i <= |es|
      invariant forall k :: 0 <= k < i ==> Callbacks.Armed(es[k])
      invariant forall k :: 0 <= k < i ==> entries[k] == Callbacks.Visit(es[k], holding)
      invariant forall k :: i <= k < |es| ==> entries[k] == es[k]
      invariant fired == Callbacks.RunCorrected(es[..i], holding).fired
    {
      var e := entries[i];
      if e.handlers.None? {
        Callbacks.PanicEffect(es, i, holding);
        Callbacks.VisitedPrefix(es, i, holding, entries);
        Callbacks.AsWrittenEffectAgrees(es, holding);
        err := Some(Callbacks.NilCall);
        return;
      }
      Callbacks.RunCorrectedStep(es, i, holding);
      if e.handlers.value.condition in holding {
        fired := fired + [e.handlers.value.callback];
        entries := entries[i := Callbacks.Fired(e)];
      }
      i := i + 1;
    }
    assert es[..i] == es;
    Callbacks.VisitedPrefix(es, i, holding, entries);
    Callbacks.RunCorrectedFires(es, holding);
    Callbacks.AsWrittenEffectAgrees(es, holding);
  }

  /**
   * The loop of `handleRadarEvent`, on a slice that shares the table's
   * storage: a slot inside the table overwrites its alert, a slot past the
   * end is appended, a "0" past the end does nothing. `table` is the slice
   * the frame leaves or, when a slot panics, what the table then shows:
   * the overwrites made so far, without the appended alerts.
   */
  method ReadFrame(alerts: seq<RadarEvent>, slots: seq<string>, now: int)
    returns (table: seq<RadarEvent>, err: Option<Error>)
    ensures var r := ApplyFrameAsWritten(alerts, slots, now);
      r.Ok? ==> err == None && table == r.value
    ensures var r := ApplyFrameAsWritten(alerts, slots, now);
      r.Err? ==> && err == Some(r.error) && FirstBadSlot(slots, now).Some? && |table| == |alerts|
                 && forall k :: 0 <= k < |table| ==>
                      table[k] == if k < FirstBadSlot(slots, now).value then SlotResult(slots[k], now) else alerts[k]
  {
    table := alerts;
    var i := 0;
    while i < |slots|
      invariant 0 <= i <= |slots|
      invariant ApplyFrameAsWritten(alerts, slots[..i], now) == Ok(table)
    {
      ApplyFrameAsWrittenStep(alerts, slots, i, now, table);
      var slot := slots[i];
      if slot == ClearSlot {
        if i < |table| {
          table := table[i := Cleared];
        }
      } else {
        match SlotEvent(slot, now)
        case Err(e) =>
          ApplyFrameAsWrittenPanicsAt(alerts, slots, i, now, table);
          table := table[..|alerts|];
          err := Some(e);
          return;
        case Ok(event) =>
          if i < |table| {
            table := table[i := event];
          } else {
            table := table + [event];
          }
      }
      i := i + 1;
    }
    assert slots[..i] == slots;
    err := None;
  }

  /** The "Detector volume" and "Time zone" names, as `Mute`, `Unmute` and `SyncTime` look them up. */
  const VolumeName: string := "Detector volume"
  const TimeZoneName: string := "Time zone"

  /**
   * `Uniden`: one detector session. `outbox` holds the commands written
   * to the Command characteristic, `notices` the calls of the listeners,
   * `invoked` the conditional callbacks run, and `dropped` the UUIDs of
   * notifications no handler took, all in order.
   */
  class Uniden {
    const model: Model
    /** The registry the session was created with; every later registry keeps its layout. */
    ghost const catalog: seq<Setting>
    var settings: seq<Setting>
    var alerts: seq<RadarEvent>
    var status: Status
    var cache: Cache
    var callbacks: seq<Callbacks.Entry>
    var listeners: set<Listener>
    var outbox: seq<string>
    var notices: seq<Notice>
    var invoked: seq<nat>
    var dropped: seq<CharType>

    /**
     * What every session keeps: the registry has the layout it was created
     * with (only ids change), and the volume to restore is never 0.
     */
    ghost predicate Valid()
      reads this
    {
      Sync.SameLayout(settings, catalog) && cache.preMuteVolume != 0
    }

    /** `NewUniden`: the catalog's settings with their default ids, no alerts, a fresh cache. */
    constructor (model: Model)
      ensures this.model == model && catalog == DefSettings() && settings == DefSettings()
      ensures alerts == [] && status == ZeroStatus
      ensures cache == InitialCache && callbacks == [] && listeners == {}
      ensures outbox == [] && notices == [] && invoked == [] && dropped == []
      ensures Valid()
    {
      this.model := model;
      catalog := DefSettings();
      settings := DefSettings();
      alerts := [];
      status := ZeroStatus;
      cache := InitialCache;
      callbacks := [];
      listeners := {};
      outbox := [];
      notices := [];
      invoked := [];
      dropped := [];
    }

    /** `OnSettingsChange`, `OnStatusUpdate`, `OnRadarEvent`: set or clear (nil) one listener. */
    method SetListener(l: Listener, present: bool)
      modifies this
      ensures listeners == if present then old(listeners) + {l} else old(listeners) - {l}
      ensures settings == old(settings) && alerts == old(alerts) && status == old(status) && cache == old(cache)
      ensures callbacks == old(callbacks) && outbox == old(outbox) && notices == old(notices)
      ensures invoked == old(invoked) && dropped == old(dropped)
    {
      if present {
        listeners := listeners + {l};
      } else {
        listeners := listeners - {l};
      }
    }

    /** `SendArbitraryCommand`: the text goes to the Command characteristic as it is. */
    method SendArbitraryCommand(command: string)
      modifies this
      ensures outbox == old(outbox) + [command]
      ensures settings == old(settings) && alerts == old(alerts) && status == old(status) && cache == old(cache)
      ensures callbacks == old(callbacks) && listeners == old(listeners) && notices == old(notices)
      ensures invoked == old(invoked) && dropped == old(dropped)
    {
      outbox := outbox + [command];
    }

    /**
     * `UpdateSetting`: the command for the first setting named `name`, or
     * an error and no command. The registry is not changed: the new id
     * arrives with the next settings dump.
     */
    method UpdateSetting(name: string, valueInt: int) returns (err: Option<Error>)
      modifies this
      ensures CommandFor(old(settings), model, name, valueInt).Err? ==>
        err == Some(CommandFor(old(settings), model, name, valueInt).error) && outbox == old(outbox)
      ensures CommandFor(old(settings), model, name, valueInt).Ok? ==>
        err == None && outbox == old(outbox) + [CommandFor(old(settings), model, name, valueInt).value]
      ensures settings == old(settings) && alerts == old(alerts) && status == old(status) && cache == old(cache)
      ensures callbacks == old(callbacks) && listeners == old(listeners) && notices == old(notices)
      ensures invoked == old(invoked) && dropped == old(dropped)
    {
      match FindByName(settings, name)
      case None =>
        err := Some(SettingNotFound(name));
      case Some(k) =>
        var parts := [CommandPrefix, Itoa(StorageIndexFor(settings[k], model)), "=", Itoa(valueInt)];
        var command := ConcatenateStrings(parts);
        assert parts[..1][..0] == [] && parts[..2][..1] == parts[..1] && parts[..3][..2] == parts[..2] && parts[..4] == parts;
        assert Concat(parts[..1]) == parts[0];
        assert Concat(parts[..2]) == parts[0] + parts[1];
        assert Concat(parts[..3]) == parts[0] + parts[1] + parts[2];
        assert command == Command(StorageIndexFor(settings[k], model), valueInt);
        SendArbitraryCommand(command);
        err := None;
    }

    /**
     * `Setting.Update` on the `k`-th setting: the id must be in the
     * setting's static list; the command is `UpdateSetting`'s.
     */
    method Update(k: nat, valueInt: int) returns (err: Option<Error>)
      requires k < |settings|
      modifies this
      ensures UpdateCommandAsWritten(old(settings), model, k, valueInt).Err? ==>
        err == Some(UpdateCommandAsWritten(old(settings), model, k, valueInt).error) && outbox == old(outbox)
      ensures UpdateCommandAsWritten(old(settings), model, k, valueInt).Ok? ==>
        err == None && outbox == old(outbox) + [UpdateCommandAsWritten(old(settings), model, k, valueInt).value]
      ensures settings == old(settings) && alerts == old(alerts) && status == old(status) && cache == old(cache)
      ensures callbacks == old(callbacks) && listeners == old(listeners) && notices == old(notices)
      ensures invoked == old(invoked) && dropped == old(dropped)
    {
      if !ValidateValueInt(settings[k], valueInt) {
        err := Some(ValueNotFound);
      } else {
        err := UpdateSetting(settings[k].name, valueInt);
      }
    }

    /**
     * `Mute`: a volume of 0 is left alone; any other volume is updated to
     * 0 and, once that command is sent, kept to restore on unmute.
     */
    method Mute() returns (err: Option<Error>)
      modifies this
      ensures FindByName(old(settings), VolumeName).None? ==>
        err == Some(SettingNotFound(VolumeName)) && outbox == old(outbox) && cache == old(cache)
      ensures FindByName(old(settings), VolumeName).Some? ==>
        var k := FindByName(old(settings), VolumeName).value;
        var volume := old(settings)[k].valueInt;
        && (volume == 0 ==> err == None && outbox == old(outbox) && cache == old(cache))
        && (volume != 0 && UpdateCommandAsWritten(old(settings), model, k, 0).Err? ==>
              err == Some(UpdateCommandAsWritten(old(settings), model, k, 0).error) && outbox == old(outbox) && cache == old(cache))
        && (volume != 0 && UpdateCommandAsWritten(old(settings), model, k, 0).Ok? ==>
              err == None && outbox == old(outbox) + [UpdateCommandAsWritten(old(settings), model, k, 0).value]
              && cache == old(cache).(preMuteVolume := volume))
      ensures old(Valid()) ==> Valid()
      ensures old(Valid()) && catalog == DefSettings() ==> err == None
      ensures old(Valid()) && catalog == DefSettings() && old(settings)[66].valueInt != 0 ==>
        outbox == old(outbox) + [Command(StorageIndexFor(DefSettings()[66], model), 0)]
        && cache.preMuteVolume == old(settings)[66].valueInt
      ensures settings == old(settings) && alerts == old(alerts) && status == old(status)
      ensures callbacks == old(callbacks) && listeners == old(listeners) && notices == old(notices)
      ensures invoked == old(invoked) && dropped == old(dropped)
    {
      if Valid() && catalog == DefSettings() {
        CatalogLookups(settings);
        MuteUpdate(settings, model);
      }
      match FindByName(settings, VolumeName)
      case None =>
        err := Some(SettingNotFound(VolumeName));
      case Some(k) =>
        if settings[k].valueInt == 0 {
          err := None;
        } else {
          var volume := settings[k].valueInt;
          err := Update(k, 0);
          if err == None {
            cache := cache.(preMuteVolume := volume);
          }
        }
    }

    /**
     * `Unmute`: a volume other than 0 is left alone; a volume of 0 is
     * updated to the kept volume, which is first set to 1 if it is 0.
     */
    method Unmute() returns (err: Option<Error>)
      modifies this
      ensures FindByName(old(settings), VolumeName).None? ==>
        err == Some(SettingNotFound(VolumeName)) && outbox == old(outbox) && cache == old(cache)
      ensures FindByName(old(settings), VolumeName).Some? ==>
        var k := FindByName(old(settings), VolumeName).value;
        var restore := if old(cache).preMuteVolume == 0 then 1 else old(cache).preMuteVolume;
        && (old(settings)[k].valueInt != 0 ==> err == None && outbox == old(outbox) && cache == old(cache))
        && (old(settings)[k].valueInt == 0 ==> cache == old(cache).(preMuteVolume := restore))
        && (old(settings)[k].valueInt == 0 && UpdateCommandAsWritten(old(settings), model, k, restore).Err? ==>
              err == Some(UpdateCommandAsWritten(old(settings), model, k, restore).error) && outbox == old(outbox))
        && (old(settings)[k].valueInt == 0 && UpdateCommandAsWritten(old(settings), model, k, restore).Ok? ==>
              err == None && outbox == old(outbox) + [UpdateCommandAsWritten(old(settings), model, k, restore).value])
      ensures old(Valid()) ==> Valid() && cache == old(cache)
      ensures old(Valid()) && catalog == DefSettings() && old(settings)[66].valueInt == 0 ==>
        (err == None <==> 1 <= old(cache).preMuteVolume <= 8)
      ensures settings == old(settings) && alerts == old(alerts) && status == old(status)
      ensures callbacks == old(callbacks) && listeners == old(listeners) && notices == old(notices)
      ensures invoked == old(invoked) && dropped == old(dropped)
    {
      if Valid() && catalog == DefSettings() {
        CatalogLookups(settings);
        VolumeUpdateValid(settings, model, cache.preMuteVolume);
      }
      match FindByName(settings, VolumeName)
      case None =>
        err := Some(SettingNotFound(VolumeName));
      case Some(k) =>
        if settings[k].valueInt != 0 {
          err := None;
        } else {
          if cache.preMuteVolume == 0 {
            cache := cache.(preMuteVolume := 1);
          }
          err := Update(k, cache.preMuteVolume);
        }
    }

    /**
     * `SyncTime`, with the device's UTC offset as a parameter: the label of
     * the offset's whole hours, its sign always shown, is looked up among
     * the "Time zone" values and its id sent. A failed lookup is the error
     * returned; a failed send is only reported, and the session then counts
     * as time-synced all the same.
     */
    method SyncTime(offsetSeconds: int) returns (err: Option<Error>)
      modifies this
      ensures TimeSyncAsWritten(old(settings), model, offsetSeconds).Err? ==>
        err == Some(TimeSyncAsWritten(old(settings), model, offsetSeconds).error)
        && outbox == old(outbox) && cache == old(cache)
      ensures TimeSyncAsWritten(old(settings), model, offsetSeconds).Ok? ==>
        err == None && cache == old(cache).(timeSynced := true)
        && outbox == old(outbox) + TimeSyncAsWritten(old(settings), model, offsetSeconds).value
      ensures old(Valid()) ==> Valid()
      ensures old(Valid()) && catalog == DefSettings() && -3600 < offsetSeconds < 3600 ==>
        err == Some(ValueNotFound) && outbox == old(outbox) && cache == old(cache)
      ensures (old(Valid()) && catalog == DefSettings() && TruncDiv(offsetSeconds, 3600) != 0 &&
        -12 <= TruncDiv(offsetSeconds, 3600) <= 12) ==> err == None && cache.timeSynced && |outbox| == |old(outbox)| + 1
      ensures settings == old(settings) && alerts == old(alerts) && status == old(status)
      ensures callbacks == old(callbacks) && listeners == old(listeners) && notices == old(notices)
      ensures invoked == old(invoked) && dropped == old(dropped)
    {
      if Valid() && catalog == DefSettings() {
        TimeSyncAsWrittenOnCatalog(settings, model, offsetSeconds);
      }
      err := SyncTimeZone(offsetSeconds);
    }

    /** The lookup and the update of `SyncTime`, which is then recorded. */
    method SyncTimeZone(offsetSeconds: int) returns (err: Option<Error>)
      modifies this
      ensures TimeSyncAsWritten(old(settings), model, offsetSeconds).Err? ==>
        err == Some(TimeSyncAsWritten(old(settings), model, offsetSeconds).error)
        && outbox == old(outbox) && cache == old(cache)
      ensures TimeSyncAsWritten(old(settings), model, offsetSeconds).Ok? ==>
        err == None && cache == old(cache).(timeSynced := true)
        && outbox == old(outbox) + TimeSyncAsWritten(old(settings), model, offsetSeconds).value
      ensures settings == old(settings) && alerts == old(alerts) && status == old(status)
      ensures callbacks == old(callbacks) && listeners == old(listeners) && notices == old(notices)
      ensures invoked == old(invoked) && dropped == old(dropped)
    {
      ghost var plan := TimeSyncAsWritten(settings, model, offsetSeconds);
      var text := GmtLabelAsWritten(offsetSeconds);
      match FindByName(settings, TimeZoneName)
      case None =>
        assert plan == Err(SettingNotFound(TimeZoneName));
        err := Some(SettingNotFound(TimeZoneName));
      case Some(k) =>
        match GetValueInt(settings, settings[k], text)
        case Err(e) =>
          assert plan == Err(e);
          err := Some(e);
        case Ok(id) =>
          TimeSyncAsWrittenAt(settings, model, offsetSeconds, k, id);
          var ignored := Update(k, id);
          cache := cache.(timeSynced := true);
          err := None;
    }

    /**
     * `RegisterConditionalCallback`: a pending entry is appended; its
     * timeout is `ExpireCallback`.
     */
    method RegisterConditionalCallback(condition: nat, callback: nat, timeout: nat)
      modifies this
      ensures callbacks == old(callbacks) + [Callbacks.Register(condition, callback, timeout)]
      ensures settings == old(settings) && alerts == old(alerts) && status == old(status) && cache == old(cache)
      ensures listeners == old(listeners) && outbox == old(outbox) && notices == old(notices)
      ensures invoked == old(invoked) && dropped == old(dropped)
    {
      callbacks := callbacks + [Callbacks.Register(condition, callback, timeout)];
    }

    /**
     * The goroutine `RegisterConditionalCallback` starts, when its timeout
     * has passed: the `i`-th entry is unregistered unless it has completed.
     */
    method ExpireCallback(i: nat)
      requires i < |callbacks|
      modifies this
      ensures callbacks == old(callbacks)[i := Callbacks.Expire(old(callbacks)[i])]
      ensures settings == old(settings) && alerts == old(alerts) && status == old(status) && cache == old(cache)
      ensures listeners == old(listeners) && outbox == old(outbox) && notices == old(notices)
      ensures invoked == old(invoked) && dropped == old(dropped)
    {
      var e := callbacks[i];
      if !e.completed {
        callbacks := callbacks[i := Callbacks.Unregister(e)];
      }
    }

    /**
     * `runCallbacks`: every entry's condition is called in list order, and
     * an entry whose condition holds has its callback invoked and is then
     * completed and unregistered. The nil condition of an unregistered
     * entry is a panic; the entries before it have been visited by then.
     */
    method RunCallbacks(holding: set<nat>) returns (err: Option<Error>)
      modifies this
      ensures err == if Callbacks.FirstUnarmed(old(callbacks)).Some? then Some(Callbacks.NilCall) else None
      ensures callbacks == Callbacks.AsWrittenEffect(old(callbacks), holding).entries
      ensures invoked == old(invoked) + Callbacks.AsWrittenEffect(old(callbacks), holding).fired
      ensures settings == old(settings) && alerts == old(alerts) && status == old(status) && cache == old(cache)
      ensures listeners == old(listeners) && outbox == old(outbox) && notices == old(notices)
      ensures dropped == old(dropped)
    {
      var entries, fired;
      entries, fired, err := RunPass(callbacks, holding);
      Callbacks.AsWrittenEffectAgrees(callbacks, holding);
      callbacks := entries;
      invoked := invoked + fired;
    }

    /**
     * `handleSettingsUpdate`: the dump is decoded into the registry, the
     * first dump is recorded, and when something changed and a settings
     * listener is set, the callbacks run and the listener is called with
     * the new registry, unless the callbacks panicked first.
     */
    method HandleSettingsUpdate(buf: seq<Sync.Byte>, holding: set<nat>) returns (err: Option<Error>)
      modifies this
      ensures settings == Sync.Decode(old(settings), model, buf).settings
      ensures cache == old(cache).(receivedFirstSettings := true)
      ensures SettingsListener in old(listeners) && Sync.Decode(old(settings), model, buf).changed != [] ==>
        && err == (if Callbacks.FirstUnarmed(old(callbacks)).Some? then Some(Callbacks.NilCall) else None)
        && callbacks == Callbacks.AsWrittenEffect(old(callbacks), holding).entries
        && invoked == old(invoked) + Callbacks.AsWrittenEffect(old(callbacks), holding).fired
        && notices == old(notices) + (if err == None then [SettingsChanged(settings)] else [])
      ensures SettingsListener !in old(listeners) || Sync.Decode(old(settings), model, buf).changed == [] ==>
        err == None && callbacks == old(callbacks) && invoked == old(invoked) && notices == old(notices)
      ensures old(Valid()) ==> Valid()
      ensures alerts == old(alerts) && status == old(status) && listeners == old(listeners)
      ensures outbox == old(outbox) && dropped == old(dropped)
    {
      var regs, changed := DecodeDump(settings, model, buf);
      if Valid() {
        Sync.SameLayoutTrans(regs, settings, catalog);
      }
      settings := regs;
      cache := cache.(receivedFirstSettings := true);
      err := None;
      if SettingsListener in listeners && changed != [] {
        err := RunCallbacks(holding);
        if err == None {
          notices := notices + [SettingsChanged(settings)];
        }
      }
    }

    /**
     * `handleStatusUpdate`: the frame becomes the status and the status
     * listener, when set, is called with it; a frame too short to read is
     * a panic and changes nothing.
     */
    method HandleStatusUpdate(buf: seq<Sync.Byte>) returns (err: Option<Error>)
      modifies this
      ensures ParseStatus(BytesText(buf)).Err? ==>
        err == Some(ParseStatus(BytesText(buf)).error) && status == old(status) && notices == old(notices)
      ensures ParseStatus(BytesText(buf)).Ok? ==>
        && err == None && status == ParseStatus(BytesText(buf)).value
        && notices == old(notices) + (if StatusListener in old(listeners) then [StatusUpdated(status)] else [])
      ensures settings == old(settings) && alerts == old(alerts) && cache == old(cache) && callbacks == old(callbacks)
      ensures listeners == old(listeners) && outbox == old(outbox) && invoked == old(invoked) && dropped == old(dropped)
    {
      match ParseStatus(BytesText(buf))
      case Err(e) =>
        err := Some(e);
      case Ok(st) =>
        status := st;
        if StatusListener in listeners {
          notices := notices + [StatusUpdated(st)];
        }
        err := None;
    }

    /**
     * `handleRadarEvent`: the frame is read slot by slot through a slice
     * that shares the table's storage. A slot inside the table overwrites
     * its alert, one past the end is appended to the slice, and the slice
     * becomes the table once the whole frame has been read; the radar
     * listener, when set, is called with it. A slot that cannot be read is
     * a panic: the overwrites before it are then in the table already, the
     * appended alerts are not.
     */
    method HandleRadarEvent(buf: seq<Sync.Byte>, now: int) returns (err: Option<Error>)
      modifies this
      ensures var r := ApplyFrameAsWritten(old(alerts), Split(BytesText(buf), '&'), now);
        r.Ok? ==> && err == None && alerts == r.value
                  && notices == old(notices) + (if RadarListener in old(listeners) then [AlertsUpdated(alerts)] else [])
      ensures var slots := Split(BytesText(buf), '&');
        var r := ApplyFrameAsWritten(old(alerts), slots, now);
        r.Err? ==> && err == Some(r.error) && notices == old(notices) && FirstBadSlot(slots, now).Some?
                   && |alerts| == |old(alerts)|
                   && forall k :: 0 <= k < |alerts| ==>
                        alerts[k] == if k < FirstBadSlot(slots, now).value then SlotResult(slots[k], now) else old(alerts)[k]
      ensures settings == old(settings) && status == old(status) && cache == old(cache) && callbacks == old(callbacks)
      ensures listeners == old(listeners) && outbox == old(outbox) && invoked == old(invoked) && dropped == old(dropped)
    {
      var slots := Split(BytesText(buf), '&');
      var table;
      table, err := ReadFrame(alerts, slots, now);
      alerts := table;
      if err == None && RadarListener in listeners {
        notices := notices + [AlertsUpdated(table)];
      }
    }

    /**
     * `handleCharacteristicUpdate`: the notification goes to the handler of
     * its characteristic; the generic-attribute and response handlers do
     * nothing, and a notification of any other characteristic is dropped.
     */
    method HandleCharacteristicUpdate(uuid: CharType, buf: seq<Sync.Byte>, now: int, holding: set<nat>)
      returns (err: Option<Error>)
      modifies this
      ensures Route(uuid) == SettingsHandler ==>
        && settings == Sync.Decode(old(settings), model, buf).settings && dropped == old(dropped)
        && cache == old(cache).(receivedFirstSettings := true)
      ensures Route(uuid) == SettingsHandler && SettingsListener in old(listeners)
              && Sync.Decode(old(settings), model, buf).changed != [] ==>
        && err == (if Callbacks.FirstUnarmed(old(callbacks)).Some? then Some(Callbacks.NilCall) else None)
        && callbacks == Callbacks.AsWrittenEffect(old(callbacks), holding).entries
        && invoked == old(invoked) + Callbacks.AsWrittenEffect(old(callbacks), holding).fired
        && notices == old(notices) + (if err == None then [SettingsChanged(settings)] else [])
      ensures Route(uuid) == SettingsHandler
              && (SettingsListener !in old(listeners) || Sync.Decode(old(settings), model, buf).changed == []) ==>
        err == None && callbacks == old(callbacks) && invoked == old(invoked) && notices == old(notices)
      ensures Route(uuid) == StatusHandler && ParseStatus(BytesText(buf)).Err? ==>
        && err == Some(ParseStatus(BytesText(buf)).error) && status == old(status) && notices == old(notices)
        && dropped == old(dropped)
      ensures Route(uuid) == StatusHandler && ParseStatus(BytesText(buf)).Ok? ==>
        && err == None && status == ParseStatus(BytesText(buf)).value && dropped == old(dropped)
        && notices == old(notices) + (if StatusListener in old(listeners) then [StatusUpdated(status)] else [])
      ensures var r := ApplyFrameAsWritten(old(alerts), Split(BytesText(buf), '&'), now);
        Route(uuid) == RadarEventHandler && r.Ok? ==>
        && err == None && alerts == r.value && dropped == old(dropped)
        && notices == old(notices) + (if RadarListener in old(listeners) then [AlertsUpdated(alerts)] else [])
      ensures var slots := Split(BytesText(buf), '&');
        var r := ApplyFrameAsWritten(old(alerts), slots, now);
        Route(uuid) == RadarEventHandler && r.Err? ==>
        && err == Some(r.error) && notices == old(notices) && dropped == old(dropped)
        && FirstBadSlot(slots, now).Some? && |alerts| == |old(alerts)|
        && forall k :: 0 <= k < |alerts| ==>
             alerts[k] == if k < FirstBadSlot(slots, now).value then SlotResult(slots[k], now) else old(alerts)[k]
      ensures Route(uuid) != SettingsHandler ==>
        settings == old(settings) && cache == old(cache) && callbacks == old(callbacks) && invoked == old(invoked)
      ensures Route(uuid) != StatusHandler ==> status == old(status)
      ensures Route(uuid) != RadarEventHandler ==> alerts == old(alerts)
      ensures Route(uuid) in {GenericAttributeHandler, ResponseHandler, Unhandled} ==>
        err == None && notices == old(notices)
      ensures Route(uuid) == Unhandled ==> dropped == old(dropped) + [uuid]
      ensures Route(uuid) in {GenericAttributeHandler, ResponseHandler} ==> dropped == old(dropped)
      ensures old(Valid()) ==> Valid()
      ensures listeners == old(listeners) && outbox == old(outbox)
    {
      match Route(uuid)
      case GenericAttributeHandler =>
        err := None;
      case SettingsHandler =>
        err := HandleSettingsUpdate(buf, holding);
      case StatusHandler =>
        err := HandleStatusUpdate(buf);
      case RadarEventHandler =>
        err := HandleRadarEvent(buf, now);
      case ResponseHandler =>
        err := None;
      case Unhandled =>
        dropped := dropped + [uuid];
        err := None;
    }
  }
}
