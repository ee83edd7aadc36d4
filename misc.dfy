/**
 * uniden/misc.go: the GPS and status records, and the decoder of the
 * comma-separated GPS field. The status frame decoder of uniden.go
 * (`handleStatusUpdate`) is here too, since it only selects fields.
 */
module Misc {
  import opened Wrappers
  import opened GoStrings
  import opened Utils

  /** `GPS`: `speed` is never assigned by the decoder and stays zero. */
  datatype GPS = GPS(altitude: Float32, heading: string, speed: Float32, state: string)

  datatype Status = Status(voltage: Float32, signal: Float32, gps: GPS)

  /** Go's zero `GPS{}` and `Status{}`. */
  const ZeroGPS: GPS := GPS(Zero, "", Zero, "")
  const ZeroStatus: Status := Status(Zero, Zero, ZeroGPS)

  /** The connection state letter of GPS sub-field 3. */
  function GpsState(code: string): (r: string)
    ensures (r == "Disconnected") == (code == "D")
    ensures (r == "Connected") == (code == "C")
    ensures (r == "Unknown") == (code != "D" && code != "C")
  {
    if code == "D" then "Disconnected"
    else if code == "C" then "Connected"
    else "Unknown"
  }

  /**
   * `parseGPS`: sub-field 0 is the heading, 2 the altitude and 3 the
   * state letter; sub-field 1 is not read. Fewer than four sub-fields
   * index past the end of the split, a panic.
   */
  function ParseGPS(text: string): (r: Result<GPS, Error>)
    ensures r.Ok? <==> |Split(text, ',')| >= 4
    ensures r.Err? ==> r.error.Panic?
    ensures r.Ok? ==> r.value.speed == Zero && r.value.state in {"Disconnected", "Connected", "Unknown"}
  {
    var parts := Split(text, ',');
    if |parts| < 4 then Err(Panic("index out of range"))
    else Ok(GPS(ParseFloat32(parts[2]), parts[0], Zero, GpsState(parts[3])))
  }

  /**
   * `handleStatusUpdate`'s decoding: '&'-separated sections, voltage from
   * 0, the GPS text from 2 and the signal from 4; 1 and 3 are not read.
   * Go evaluates the fields in order, so a short frame panics at the
   * first missing section, and a bad GPS section panics before the
   * signal is read.
   */
  function ParseStatus(text: string): (r: Result<Status, Error>)
    ensures r.Ok? <==> |Split(text, '&')| >= 5 && ParseGPS(Split(text, '&')[2]).Ok?
    ensures r.Err? ==> r.error.Panic?
  {
    var sections := Split(text, '&');
    if |sections| < 3 then Err(Panic("index out of range"))
    else
      match ParseGPS(sections[2])
      case Err(e) => Err(e)
      case Ok(gps) =>
        if |sections| < 5 then Err(Panic("index out of range"))
        else Ok(Status(ParseFloat32(sections[0]), ParseFloat32(sections[4]), gps))
  }

  /** The text a device sends for one GPS reading: four sub-fields, joined by commas. */
  function GpsText(heading: string, field1: string, altitude: string, state: string): string {
    Join([heading, field1, altitude, state], ',')
  }

  /**
   * Decoding recovers the heading verbatim, the altitude through the
   * fail-soft parser and the state through the letter mapping, whatever
   * sub-field 1 holds.
   */
  lemma ParseGpsText(heading: string, field1: string, altitude: string, state: string)
    requires ',' !in heading && ',' !in field1 && ',' !in altitude && ',' !in state
    ensures ParseGPS(GpsText(heading, field1, altitude, state)) ==
      Ok(GPS(ParseFloat32(altitude), heading, Zero, GpsState(state)))
  {
    SplitJoin([heading, field1, altitude, state], ',');
  }

  /** So sub-field 1 never affects the reading. */
  lemma GpsIgnoresField1(heading: string, f: string, g: string, altitude: string, state: string)
    requires ',' !in heading && ',' !in f && ',' !in g && ',' !in altitude && ',' !in state
    ensures ParseGPS(GpsText(heading, f, altitude, state)) == ParseGPS(GpsText(heading, g, altitude, state))
  {
    ParseGpsText(heading, f, altitude, state);
    ParseGpsText(heading, g, altitude, state);
  }

  /** A GPS text with three sub-fields or fewer is a panic. */
  lemma ShortGpsPanics(heading: string, altitude: string)
    requires ',' !in heading && ',' !in altitude
    ensures ParseGPS(Join([heading, altitude], ',')).Err?
    ensures ParseGPS(Join([heading, "", altitude], ',')).Err?
  {
    SplitJoin([heading, altitude], ',');
    SplitJoin([heading, "", altitude], ',');
  }

  /**
   * A five-section status frame decodes to its voltage, its signal and
   * the decoding of its GPS section; sections 1 and 3 play no part.
   */
  lemma ParseStatusFrame(voltage: string, s1: string, gps: string, s3: string, signal: string)
    requires '&' !in voltage && '&' !in s1 && '&' !in gps && '&' !in s3 && '&' !in signal
    requires ParseGPS(gps).Ok?
    ensures ParseStatus(Join([voltage, s1, gps, s3, signal], '&')) ==
      Ok(Status(ParseFloat32(voltage), ParseFloat32(signal), ParseGPS(gps).value))
  {
    SplitJoin([voltage, s1, gps, s3, signal], '&');
  }
}
