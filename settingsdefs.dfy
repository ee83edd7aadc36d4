/**
 * uniden/settingsDefs.go: the catalog of every known setting, in
 * declaration order, with its offset on each model and its value list.
 * The duplicated names and colliding offsets of the table are kept.
 */
module SettingsDefs {
  import opened Wrappers
  import opened GoStrings
  import opened Utils
  import opened Types
  import opened Settings

  function Offsets2(r4: int, r8: int): map<Model, int> {
    map[R4 := r4, R8 := r8]
  }

  function Static(name: string, offsets: map<Model, int>, values: seq<Value>): Setting {
    Setting(name, offsets, values, None, 0)
  }

  function Dynamic(name: string, offsets: map<Model, int>, res: Resolver): Setting {
    Setting(name, offsets, [], Some(res), 0)
  }

  const AlertsPriorityValues: seq<Value> := [Value("SIGNAL", 0), Value("KA_MRCD", 1), Value("MRCD_KA", 2)]
  const MemoryOptionValues: seq<Value> := [Value("X_K", 0), Value("X_K_KA", 1)]
  const KBlockValues: seq<Value> := [Value("OFF", 0), Value("ON", 1), Value("WEAK", 2)]
  const LeftDisplayValues: seq<Value> := [
    Value("SPEED", 0), Value("SPEED_COMPASS", 1), Value("COMPASS", 2), Value("VOLTAGE", 3), Value("ALTITUDE", 4)]
  const SpeedUnitsValues: seq<Value> := [Value("MPH", 0), Value("KPH", 1)]
  const DetectorVolumeValues: seq<Value> := [
    Value("Always Muted", 0), Value("1", 1), Value("2", 2), Value("3", 3), Value("4", 4),
    Value("5", 5), Value("6", 6), Value("7", 7), Value("8", 8)]

  const TimeZoneValues: seq<Value> := [
    Value("GMT-12", 0), Value("GMT-11", 1), Value("GMT-10", 2), Value("GMT-9", 3), Value("GMT-8", 4),
    Value("GMT-7", 5), Value("GMT-6", 6), Value("GMT-5", 7), Value("GMT-4", 8), Value("GMT-3", 9),
    Value("GMT-2", 10), Value("GMT-1", 11), Value("GMT", 12), Value("GMT+1", 13), Value("GMT+2", 14),
    Value("GMT+3", 15), Value("GMT+4", 16), Value("GMT+5", 17), Value("GMT+6", 18), Value("GMT+7", 19),
    Value("GMT+8", 20), Value("GMT+9", 21), Value("GMT+10", 22), Value("GMT+11", 23), Value("GMT+12", 24)]

  const MemoryQuotaValues: seq<Value> := [
    Value("UM_MM_1750_250", 0), Value("UM_MM_1700_300", 1), Value("UM_MM_1650_350", 2),
    Value("UM_MM_1600_400", 3), Value("UM_MM_1550_450", 4), Value("UM_MM_1500_500", 5),
    Value("UM_MM_1450_550", 6), Value("UM_MM_1400_600", 7), Value("UM_MM_1350_650", 8),
    Value("UM_MM_1300_700", 9), Value("UM_MM_1250_750", 10), Value("UM_MM_1200_800", 11),
    Value("UM_MM_1150_850", 12), Value("UM_MM_1100_900", 13), Value("UM_MM_1050_950", 14),
    Value("UM_MM_1000_1000", 15), Value("UM_MM_950_1050", 16), Value("UM_MM_900_1100", 17),
    Value("UM_MM_850_1150", 18), Value("UM_MM_800_1200", 19), Value("UM_MM_750_1250", 20),
    Value("UM_MM_700_1300", 21), Value("UM_MM_650_1350", 22), Value("UM_MM_600_1400", 23),
    Value("UM_MM_550_1450", 24), Value("UM_MM_500_1500", 25), Value("UM_MM_450_1550", 26),
    Value("UM_MM_400_1600", 27), Value("UM_MM_350_1650", 28), Value("UM_MM_300_1700", 29),
    Value("UM_MM_250_1750", 30)]

  /** `generateSlidersRange(30, 100, 10, "%")`, the band sensitivities. */
  function SensitivityValues(): seq<Value> {
    ValueList(IntRange(30, 100), 10, "%", false)
  }

  /** Entries 0 to 9 of `defSettings`. */
  function Block0(i: nat): Setting
    requires 0 <= i < 10
  {
    match i
    case 0 => Static("Speed Cameras Alert Distance", Offsets3(8, 9, 11), [
             Value("1000ft / 300m", 1), Value("2000ft / 600m", 2), Value("2500ft / 760m", 3),
             Value("3000ft / 900m", 4), Value("Auto", 5)])
    case 1 => Static("Enable Speed Cameras", Offsets3(7, 8, 10), BooleanValues)
    case 2 => Static("Alerts Priority", Offsets3(46, 48, 55), AlertsPriorityValues)
    case 3 => Static("Auto mute memory option", Offsets3(95, 51, 58), BooleanValues)
    case 4 => Static("Enable Red Light Cameras", Offsets3(9, 10, 12), BooleanValues)
    case 5 => Static("Background Color", Offsets3(50, 53, 60), ColorValues)
    case 6 => Dynamic("Quiet Ride Speed", Offsets3(77, 87, 104), SpeedsByIndex(SpeedRanges(5, 90, 5, 10, 90, 10)))
    case 7 => Static("Auto mute memory option", Offsets3(95, 51, 58), BooleanValues)
    case 8 => Dynamic("Red light camera quiet ride speed", Offsets3(10, 11, 13),
             SpeedsByIndex(SpeedRanges(50, 85, 5, 80, 140, 10)))
    case 9 => Static("Operation mode", Offsets3(1, 1, 1), [
             Value("Highway", 0), Value("City", 1), Value("Auto City", 2), Value("Advanced", 3)])
  }

  /** Entries 10 to 19 of `defSettings`. */
  function Block1(i: nat): Setting
    requires 10 <= i < 20
  {
    match i
    case 10 => Dynamic("Auto City Mode Speed", Offsets3(5, 5, 8), SpeedsByIndex(SpeedRanges(10, 60, 5, 10, 100, 10)))
    case 11 => Static("Speed Units", Offsets3(60, 68, 86), SpeedUnitsValues)
    case 12 => Static("X Band", Offsets3(13, 15, 0), BooleanValues)
    case 13 => Static("K Band", Offsets2(14, 16), BooleanValues)
    case 14 => Static("Ka Band", Offsets2(15, 17), BooleanValues)
    case 15 => Static("Laser", Offsets3(16, 18, 25), BooleanValues)
    case 16 => Static("K POP", Offsets3(26, 28, 35), BooleanValues)
    case 17 => Static("Ka POP", Offsets3(29, 31, 38), BooleanValues)
    case 18 => Static("X band sensitivity", Offsets2(2, 2), SensitivityValues())
    case 19 => Static("K band sensitivity", Offsets2(3, 3), SensitivityValues())
  }

  /** Entries 20 to 29 of `defSettings`. */
  function Block2(i: nat): Setting
    requires 20 <= i < 30
  {
    match i
    case 20 => Static("Ka band sensitivity", Offsets2(4, 4), SensitivityValues())
    case 21 => Static("K band filter", Offsets3(30, 32, 39), BooleanValues)
    case 22 => Static("K block 24.199 (±0.002) filter", Offsets2(33, 35), KBlockValues)
    case 23 => Static("K block 24.168 (±0.002) filter", Offsets2(34, 36), KBlockValues)
    case 24 => Static("K scan width", Offsets3(35, 37, 44), [Value("WIDE", 0), Value("NARROW", 1), Value("EXTENDED", 2)])
    case 25 => KaSegment(1, 37, 39, 46)
    case 26 => KaSegment(2, 37, 39, 46)
    case 27 => KaSegment(3, 37, 39, 46)
    case 28 => KaSegment(4, 37, 39, 46)
    case 29 => KaSegment(5, 37, 39, 46)
  }

  /** Entries 30 to 39 of `defSettings`. */
  function Block3(i: nat): Setting
    requires 30 <= i < 40
  {
    match i
    case 30 => KaSegment(6, 37, 39, 46)
    case 31 => KaSegment(7, 37, 39, 46)
    case 32 => KaSegment(8, 37, 39, 46)
    case 33 => KaSegment(9, 37, 39, 46)
    case 34 => Static("Auto mute volume", Offsets3(69, 78, 96), ValueList(IntRange(0, 7), 1, "", false))
    case 35 => Static("Auto mute memory option", Offsets3(95, 51, 58), MemoryOptionValues)
    case 36 => Static("Mute memory option", Offsets3(47, 49, 56), MemoryOptionValues)
    case 37 => Static("Quiet ride beep volume", Offsets3(79, 89, 106), ValueList(IntRange(0, 8), 1, "", false))
    case 38 => Static("Quiet ride beep volume", Offsets3(79, 89, 106), ValueList(IntRange(0, 8), 1, "", false))
    case 39 => Static("X band tone", Offsets3(61, 69, 87), ToneValues)
  }

  /** Entries 40 to 49 of `defSettings`. */
  function Block4(i: nat): Setting
    requires 40 <= i < 50
  {
    match i
    case 40 => Static("K band tone", Offsets3(62, 70, 88), ToneValues)
    case 41 => Static("Ka band tone", Offsets3(65, 74, 92), ToneValues)
    case 42 => Static("MRCD/T tone", Offsets3(63, 72, 90), ToneValues)
    case 43 => Static("Gatso tone", Offsets3(64, 73, 91), ToneValues)
    case 44 => Static("Laser tone", Offsets3(67, 76, 94), ToneValues)
    case 45 => Static("K band bogey tone", Offsets3(93, 71, 89), ToneValues)
    case 46 => Static("Ka band bogey tone", Offsets3(66, 75, 93), ToneValues)
    case 47 => Static("Alerts priority", Offsets3(46, 48, 55), AlertsPriorityValues)
    case 48 => Dynamic("Limit speed", Offsets3(80, 90, 107), OffOrSpeedLiteral(SpeedRanges(50, 100, 5, 80, 160, 10)))
    case 49 => Static("Display mode", Offsets3(56, 64, 83), [Value("SCAN", 0), Value("MODE", 1), Value("TIME", 2)])
  }

  /** Entries 50 to 59 of `defSettings`. */
  function Block5(i: nat): Setting
    requires 50 <= i < 60
  {
    match i
    case 50 => Static("Alert dsplay mode", Offsets3(59, 67, 155), [
             Value("DISPLAY_1", 0), Value("DISPLAY_2", 1), Value("DISPLAY_3", 2)])
    case 51 => Static("Left display", Offsets3(58, 66, 85), LeftDisplayValues)
    case 52 => Static("Left display", Offsets3(58, 66, 85), LeftDisplayValues)
    case 53 => Static("X band color", Offsets2(51, 59), BandColorValues)
    case 54 => Static("K band color", Offsets2(52, 60), BandColorValues)
    case 55 => Static("Ka band color", Offsets2(55, 53), BandColorValues)
    case 56 => Static("MRCD/T color", Offsets2(53, 61), BandColorValues)
    case 57 => Static("Gatso color", Offsets2(54, 62), BandColorValues)
    case 58 => Static("Display brightness", Offsets3(92, 102, 119), [
             Value("OFF", 0), Value("DARK", 1), Value("DIMMER", 2), Value("DIM", 3),
             Value("BRIGHT", 4), Value("AUTO", 5)])
    case 59 => Static("Dark mode", Offsets3(70, 80, 97), [Value("DIMMER", 0), Value("DIM", 1), Value("BRIGHT", 2)])
  }

  /** Entries 60 to 69 of `defSettings`. */
  function Block6(i: nat): Setting
    requires 60 <= i < 70
  {
    match i
    case 60 => Static("Bright brightness", Offsets3(73, 83, 100), [Value("DIMMER", 0), Value("DIM", 1), Value("BRIGHT", 2)])
    case 61 => Static("Dim brightness", Offsets3(75, 85, 102), [
             Value("OFF", 0), Value("DARK", 1), Value("DIMMER", 2), Value("DIM", 3), Value("BRIGHT", 4)])
    case 62 => Static("Auto dim mode", Offsets3(70, 80, 97), [Value("SENSOR", 0), Value("TIME", 1)])
    case 63 => Static("Bright time", Offsets3(72, 82, 99), [
             Value("T_5_30", 0), Value("T_5_45", 1), Value("T_6_00", 2), Value("T_6_15", 3), Value("T_6_30", 4),
             Value("T_6_45", 5), Value("T_7_00", 6), Value("T_7_15", 7), Value("T_7_30", 8)])
    case 64 => Static("Dim time", Offsets3(74, 84, 101), [
             Value("T_5_00", 0), Value("T_5_15", 1), Value("T_5_30", 2), Value("T_5_45", 3), Value("T_6_00", 4),
             Value("T_6_15", 5), Value("T_6_30", 6), Value("T_6_45", 7), Value("T_7_00", 8), Value("T_7_15", 9),
             Value("T_7_30", 10), Value("T_7_45", 11), Value("T_8_00", 12)])
    case 65 => Static("Time zone", Offsets3(81, 91, 108), TimeZoneValues)
    case 66 => Static("Detector volume", Offsets3(91, 101, 118), DetectorVolumeValues)
    case 67 => Static("Memory Quota", Offsets3(90, 100, 117), MemoryQuotaValues)
    case 68 => Flag("Enable quiet ride for MRCD/T", 78, 88, 105)
    case 69 => Flag("Daylight Savings Time (DST)", 82, 92, 109)
  }

  /** Entries 70 to 79 of `defSettings`. */
  function Block7(i: nat): Setting
    requires 70 <= i < 80
  {
    match i
    case 70 => Flag("Low battery voltage warning", 83, 93, 110)
    case 71 => Flag("Enable auto mute memory", 48, 50, 57)
    case 72 => Flag("Vehicle battery saver", 84, 94, 111)
    case 73 => Flag("All threat display", 57, 65, 84)
    case 74 => Flag("KA frequency voice", 12, 14, 16)
    case 75 => Flag("Enable auto mute", 68, 77, 95)
    case 76 => Flag("Ka band filter", 31, 33, 40)
    case 77 => Flag("Ka band filter", 28, 30, 37)
    case 78 => Flag("POI Passchime", 49, 12, 14)
    case 79 => Flag("Laser gun ID", 17, 19, 26)
  }

  /** Entries 80 to 86 of `defSettings`. */
  function Block8(i: nat): Setting
    requires 80 <= i < 87
  {
    match i
    case 80 => Flag("Enable voice", 11, 13, 15)
    case 81 => Flag("Self test", 85, 95, 112)
    case 82 => Flag("Backlight", 76, 86, 103)
    case 83 => Flag("Scan icon", 57, 65, 84)
    case 84 => Flag("MRCD/T", 27, 29, 36)
    case 85 => Flag("TSF", 32, 34, 41)
    case 86 => Flag("GPS", 6, 7, 9)
  }

  /** Entry `i` of `defSettings`, in declaration order. */
  function Entry(i: nat): Setting
    requires i < 87
  {
    if i < 10 then Block0(i)
    else if i < 20 then Block1(i)
    else if i < 30 then Block2(i)
    else if i < 40 then Block3(i)
    else if i < 50 then Block4(i)
    else if i < 60 then Block5(i)
    else if i < 70 then Block6(i)
    else if i < 80 then Block7(i)
    else Block8(i)
  }

  /** `defSettings`: the catalog, in declaration order. */
  function DefSettings(): (reg: seq<Setting>)
    ensures |reg| == 87
  {
    seq(87, i requires 0 <= i < 87 => Entry(i))
  }

  // ---------------------------------------------------------------------
  // Searching the catalog. The searches are proved a stretch of entries
  // at a time; these lift such stretches to `DefSettings()`.
  // ---------------------------------------------------------------------

  /** No entry from `lo` to before `hi` is named `name` up to case. */
  predicate NameAbsent(name: string, lo: nat, hi: nat)
    requires lo <= hi <= 87
  {
    forall j :: lo <= j < hi ==> !EqualFold(DefSettings()[j].name, name)
  }

  /** No entry from `lo` to before `hi` sits at offset `index` on the model. */
  predicate OffsetAbsent(model: Model, index: int, lo: nat, hi: nat)
    requires lo <= hi <= 87
  {
    forall j :: lo <= j < hi ==> StorageIndexFor(DefSettings()[j], model) != index
  }

  /** The catalog's lookup by name answers the first entry with the name. */
  lemma FoundByNameAt(name: string, k: nat)
    requires k < 87 && NameAbsent(name, 0, k) && EqualFold(DefSettings()[k].name, name)
    ensures FindByName(DefSettings(), name) == Some(k)
  {
    FindByNameIs(DefSettings(), name, k);
  }

  /** The catalog's lookup by offset answers the first entry at the offset. */
  lemma FoundByOffsetAt(model: Model, index: int, k: nat)
    requires k < 87 && OffsetAbsent(model, index, 0, k) && StorageIndexFor(DefSettings()[k], model) == index
    ensures FindByOffset(DefSettings(), model, index) == Some(k)
  {
  }

  // ---------------------------------------------------------------------
  // Facts about the catalog
  // ---------------------------------------------------------------------

  /** "Speed Units" is entry 11, the first of its name. */
  lemma SpeedUnitsByName()
    ensures FindByName(DefSettings(), "Speed Units") == Some(11)
  {
    assert NameAbsent("Speed Units", 0, 11);
    FoundByNameAt("Speed Units", 11);
  }

  lemma SpeedUnitsOffsets()
    ensures StorageIndexFor(DefSettings()[11], R4) == 60
    ensures StorageIndexFor(DefSettings()[11], R8) == 68
    ensures StorageIndexFor(DefSettings()[11], R9) == 86
  {
  }

  /** "Speed Units" is at 60 / 68 / 86, static, with MPH:0 and KPH:1; so every resolver of the catalog can run. */
  lemma SpeedUnitsEntry()
    ensures DefSettings()[11].storageIndex == map[R4 := 60, R8 := 68, R9 := 86]
    ensures DefSettings()[11].values == [Value("MPH", 0), Value("KPH", 1)]
    ensures SpeedUnitsStatic(DefSettings())
  {
    SpeedUnitsByName();
  }

  /** Two catalog entries with the same offset map: the later one is never written by a dump, on any model. */
  lemma SameOffsetsShadowed(early: nat, late: nat)
    requires early < late < 87
    requires Entry(early).storageIndex == Entry(late).storageIndex
    ensures forall m: Model, index :: FindByOffset(DefSettings(), m, index) != Some(late)
  {
    var d := DefSettings();
    ShadowedByOffset(d, R4, early, late);
    ShadowedByOffset(d, R8, early, late);
    ShadowedByOffset(d, R9, early, late);
    forall m: Model, index ensures FindByOffset(d, m, index) != Some(late) {
      match m
      case R4 =>
      case R8 =>
      case R9 =>
    }
  }

  /**
   * Three entries are named "Auto mute memory option" (3, 7, 35). A
   * lookup by name reaches the first, a boolean; the X_K / X_K_KA
   * variant at 35 is never reached by name.
   */
  lemma AutoMuteMemoryOptionByName()
    ensures FindByName(DefSettings(), "Auto mute memory option") == Some(3)
    ensures DefSettings()[3].values == BooleanValues
    ensures DefSettings()[35].name == DefSettings()[3].name
    ensures DefSettings()[35].values == [Value("X_K", 0), Value("X_K_KA", 1)]
  {
    assert NameAbsent("Auto mute memory option", 0, 3);
    FoundByNameAt("Auto mute memory option", 3);
  }

  /** All three sit at the same offsets, so a dump writes only the first. */
  lemma AutoMuteMemoryOptionNeverDecoded()
    ensures forall m: Model, index :: FindByOffset(DefSettings(), m, index) != Some(7)
    ensures forall m: Model, index :: FindByOffset(DefSettings(), m, index) != Some(35)
  {
    SameOffsetsShadowed(3, 7);
    SameOffsetsShadowed(3, 35);
  }

  /**
   * "Alerts priority" (47) differs from "Alerts Priority" (2) only in
   * case, so a lookup by either spelling answers 2.
   */
  lemma AlertsPriorityByName()
    ensures DefSettings()[47].name != DefSettings()[2].name
    ensures FindByName(DefSettings(), DefSettings()[47].name) == Some(2)
  {
    assert Entry(47).name[7] != Entry(2).name[7];
    assert NameAbsent(Entry(47).name, 0, 2);
    FoundByNameAt(Entry(47).name, 2);
  }

  /** Entry 47 has entry 2's offsets on every model, so a dump never writes it. */
  lemma AlertsPriorityNeverDecoded()
    ensures forall m: Model, index :: FindByOffset(DefSettings(), m, index) != Some(47)
  {
    SameOffsetsShadowed(2, 47);
  }

  /** The second "Quiet ride beep volume" and "Left display" are never written by a dump. */
  lemma RepeatedOffsetsNeverDecoded()
    ensures forall m: Model, index :: FindByOffset(DefSettings(), m, index) != Some(38)
    ensures forall m: Model, index :: FindByOffset(DefSettings(), m, index) != Some(52)
  {
    SameOffsetsShadowed(37, 38);
    SameOffsetsShadowed(51, 52);
  }

  /** "Auto dim mode" repeats "Dark mode"'s offsets and "Scan icon" those of "All threat display". */
  lemma SharedOffsetsNeverDecoded()
    ensures forall m: Model, index :: FindByOffset(DefSettings(), m, index) != Some(62)
    ensures forall m: Model, index :: FindByOffset(DefSettings(), m, index) != Some(83)
  {
    SameOffsetsShadowed(59, 62);
    SameOffsetsShadowed(73, 83);
  }

  /** On an R8, "Ka band color" sits at 53, "Background Color"'s offset, and is never written by a dump. */
  lemma KaBandColorShadowedOnR8()
    ensures StorageIndexFor(DefSettings()[55], R8) == StorageIndexFor(DefSettings()[5], R8) == 53
    ensures forall index :: FindByOffset(DefSettings(), R8, index) != Some(55)
  {
    ShadowedByOffset(DefSettings(), R8, 5, 55);
  }

  /** On an R9, "X Band" (12) is the first entry at offset 0. */
  lemma R9OffsetZeroIsXBand()
    ensures FindByOffset(DefSettings(), R9, 0) == Some(12)
  {
    assert OffsetAbsent(R9, 0, 0, 12);
    FoundByOffsetAt(R9, 0, 12);
  }

  /** The entries that have no R9 offset. */
  lemma R9OffsetsMissing(k: nat)
    requires k in {13, 14, 18, 19, 20, 22, 23, 53, 54, 55, 56, 57}
    ensures R9 !in Entry(k).storageIndex && StorageIndexFor(Entry(k), R9) == 0
  {
  }

  /**
   * They read Go's zero offset 0 there, so "X Band" shadows them and
   * none is ever written by a dump on an R9.
   */
  lemma R9MissingOffsetsNeverDecoded(k: nat)
    requires k in {13, 14, 18, 19, 20, 22, 23, 53, 54, 55, 56, 57}
    ensures forall index :: FindByOffset(DefSettings(), R9, index) != Some(k)
  {
    R9OffsetsMissing(k);
    R9OffsetZeroIsXBand();
    ShadowedByOffset(DefSettings(), R9, 12, k);
  }

  /** Segment `n` of the nine Ka segments is entry `24 + n`, at `36 + n`, `38 + n` and `45 + n`. */
  lemma KaSegmentOffsets(n: int)
    requires 1 <= n <= 9
    ensures DefSettings()[24 + n].name == "Ka Segment " + Itoa(n)
    ensures DefSettings()[24 + n].storageIndex == map[R4 := 36 + n, R8 := 38 + n, R9 := 45 + n]
    ensures DefSettings()[24 + n].values == BooleanValues
  {
    assert n == 1 || n == 2 || n == 3 || n == 4 || n == 5 || n == 6 || n == 7 || n == 8 || n == 9;
  }

  /**
   * "Ka band filter" appears twice with different offsets (76 at 31 / 33
   * / 40, 77 at 28 / 30 / 37). A lookup by name never answers 77, so an
   * update by name never targets 77's offset.
   */
  lemma KaBandFilterRepeated()
    ensures DefSettings()[77].name == DefSettings()[76].name
    ensures DefSettings()[76].storageIndex == map[R4 := 31, R8 := 33, R9 := 40]
    ensures DefSettings()[77].storageIndex == map[R4 := 28, R8 := 30, R9 := 37]
    ensures forall name :: FindByName(DefSettings(), name) != Some(77)
  {
    ShadowedByName(DefSettings(), 76, 77);
  }

  /** The later "Auto mute memory option"s, 7 and 35, are never answered by a lookup by name. */
  lemma AutoMuteMemoryOptionRepeated()
    ensures forall name :: FindByName(DefSettings(), name) != Some(7)
    ensures forall name :: FindByName(DefSettings(), name) != Some(35)
  {
    ShadowedByName(DefSettings(), 3, 7);
    ShadowedByName(DefSettings(), 3, 35);
  }

  /** Nor are the second "Quiet ride beep volume" (38) and the second "Left display" (52). */
  lemma DuplicateEntriesRepeated()
    ensures forall name :: FindByName(DefSettings(), name) != Some(38)
    ensures forall name :: FindByName(DefSettings(), name) != Some(52)
  {
    ShadowedByName(DefSettings(), 37, 38);
    ShadowedByName(DefSettings(), 51, 52);
  }

  lemma DetectorVolumeAbsentBefore10() ensures NameAbsent("Detector volume", 0, 10) {
    NotEqualFoldAt(Entry(2).name, "Detector volume", 0);
  }

  lemma DetectorVolumeAbsentBefore20() ensures NameAbsent("Detector volume", 10, 20) {
  }

  lemma DetectorVolumeAbsentBefore40() ensures NameAbsent("Detector volume", 20, 40) {
  }

  lemma DetectorVolumeAbsentBefore55() ensures NameAbsent("Detector volume", 40, 55) {
    NotEqualFoldAt(Entry(47).name, "Detector volume", 0);
  }

  lemma DetectorVolumeAbsentBefore66() ensures NameAbsent("Detector volume", 55, 66) {
  }

  /** "Detector volume" is entry 66, the first of its name. */
  lemma DetectorVolumeByName()
    ensures FindByName(DefSettings(), "Detector volume") == Some(66)
  {
    DetectorVolumeAbsentBefore10();
    DetectorVolumeAbsentBefore20();
    DetectorVolumeAbsentBefore40();
    DetectorVolumeAbsentBefore55();
    DetectorVolumeAbsentBefore66();
    FoundByNameAt("Detector volume", 66);
  }

  /** "Detector volume" starts at id 0, "Always Muted", and offers the levels 1 to 8 after it. */
  lemma DetectorVolumeEntry()
    ensures var s := DefSettings()[66];
      s.dynamicValues.None? && s.valueInt == 0 && s.values == DetectorVolumeValues
    ensures DefSettings()[66].storageIndex == map[R4 := 91, R8 := 101, R9 := 118]
    ensures DefSettings()[66].name == "Detector volume"
    ensures DetectorVolumeValues[0] == Value("Always Muted", 0)
    ensures |DetectorVolumeValues| == 9 && forall i :: 1 <= i < 9 ==> DetectorVolumeValues[i] == Value(Itoa(i), i)
  {
  }

  /** The volume ids are 0 to 8, each at its own position. */
  lemma DetectorVolumeIds()
    ensures forall v :: v in DetectorVolumeValues ==> 0 <= v.id <= 8
    ensures forall i :: 0 <= i < 9 ==> DetectorVolumeValues[i].id == i
  {
  }

  lemma TimeZoneAbsentBefore20() ensures NameAbsent("Time zone", 0, 20) {
  }

  lemma TimeZoneAbsentBefore40() ensures NameAbsent("Time zone", 20, 40) {
  }

  lemma TimeZoneAbsentBefore55() ensures NameAbsent("Time zone", 40, 55) {
  }

  lemma TimeZoneAbsentBefore65() ensures NameAbsent("Time zone", 55, 65) {
    NotEqualFoldAt(Entry(59).name, "Time zone", 0);
  }

  /** "Time zone" is entry 65, the first of its name. */
  lemma TimeZoneByName()
    ensures FindByName(DefSettings(), "Time zone") == Some(65)
  {
    TimeZoneAbsentBefore20();
    TimeZoneAbsentBefore40();
    TimeZoneAbsentBefore55();
    TimeZoneAbsentBefore65();
    FoundByNameAt("Time zone", 65);
  }

  /** "Time zone" is static, with the table of GMT-12 to GMT+12. */
  lemma TimeZoneEntry()
    ensures var s := DefSettings()[65];
      s.dynamicValues.None? && s.values == TimeZoneValues
    ensures DefSettings()[65].storageIndex == map[R4 := 81, R8 := 91, R9 := 108]
  {
  }

  /** `generateSlidersRange(30, 100, 10, "%")`: eight sliders, "30%" to "100%", with ids 0 to 7. */
  lemma SensitivitySliders()
    ensures |SensitivityValues()| == 8
    ensures forall i :: 0 <= i < 8 ==> SensitivityValues()[i] == Value(Itoa(30 + i * 10) + "%", i)
  {
    SlidersAt(IntRange(30, 100), 10, "%");
  }

  /** The three band-sensitivity entries share those sliders. */
  lemma SensitivityEntries()
    ensures DefSettings()[18].values == DefSettings()[19].values == DefSettings()[20].values == SensitivityValues()
  {
  }

  /** "Limit speed" is entry 48: it has no static values, only the "Off" plus literal-speed resolver. */
  lemma LimitSpeedEntry()
    ensures DefSettings()[48].values == []
    ensures DefSettings()[48].dynamicValues == Some(OffOrSpeedLiteral(SpeedRanges(50, 100, 5, 80, 160, 10)))
  {
  }

  lemma LimitSpeedName()
    ensures DefSettings()[48].name == "Limit speed"
  {
  }

  /** In the catalog's defaults "Speed Units" holds id 0, "MPH". */
  lemma CatalogUnitsAreMph()
    ensures SpeedUnitsIsMph(DefSettings()) == Ok(true)
  {
    SpeedUnitsByName();
    assert DefSettings()[11].valueInt == 0;
  }

  /**
   * With the catalog's defaults "Limit speed" offers "Off" and 50 to 100
   * mph in steps of 5, each speed its own id.
   */
  lemma LimitSpeedOnDefaults()
    ensures GetValues(DefSettings(), DefSettings()[48]) ==
      Ok([Value("Off", 0)] + ValueList(IntRange(50, 100), 5, "mph", true))
  {
    CatalogUnitsAreMph();
    LimitSpeedEntry();
  }

  /** So 80 mph is on offer and the corrected check accepts it, yet the as-written check refuses it. */
  lemma LimitSpeedEightyRefused()
    ensures ValidateCurrent(DefSettings(), DefSettings()[48], 80).None?
    ensures !ValidateValueInt(DefSettings()[48], 80)
  {
    LimitSpeedOnDefaults();
    LimitSpeedEntry();
    EightyMphOnOffer();
    var vs := GetValues(DefSettings(), DefSettings()[48]).value;
    assert Value("80mph", 80) in vs;
  }

  lemma EightyMphOnOffer()
    ensures Value("80mph", 80) in ValueList(IntRange(50, 100), 5, "mph", true)
  {
    SteppedLength(IntRange(50, 100), 5);
    ValueListAt(IntRange(50, 100), 5, "mph", true, 6);
    assert Itoa(80) == "80";
    assert ValueList(IntRange(50, 100), 5, "mph", true)[6] == Value("80mph", 80);
  }
}
