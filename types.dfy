/**
 * types/types.go: the detector models, radar bands, characteristic
 * identifiers, and the device / service / characteristic objects with
 * their parent links.
 */
module Types {

  /** The three detector models; each lays the settings out differently. */
  datatype Model = R4 | R8 | R9

  /** A radar band. The type is open text: any string a frame carries is a band. */
  type Band = string

  const BandX: Band := "X"
  const BandK: Band := "K"
  const BandKa: Band := "Ka"
  const BandLaser: Band := "Laser"
  const BandGatso: Band := "Gatso"

  /** A characteristic identifier: the UUID text itself. */
  type CharType = string

  // The characteristic UUIDs of the detector.
  const RadarEventChar: CharType := "6eb675ab-8bd1-1b9a-7444-621e52ec6823"
  const SettingsChar: CharType := "2d86686a-53dc-25b3-0c4a-f0e10c8dee20"
  const StatusChar: CharType := "6c290d2e-1c03-aca1-ab48-a9b908bae79e"
  const ResponseChar: CharType := "5987b4ef-3bfa-76a8-e642-92933c31434f"
  const CommandChar: CharType := "2c86686a-53dc-25b3-0c4a-f0e10c8dee20"
  const GenericAttributeChar: CharType := "0000180a-0000-1000-8000-00805f9b34fb"

  function AllChars(): seq<CharType> {
    [RadarEventChar, SettingsChar, StatusChar, ResponseChar, CommandChar, GenericAttributeChar]
  }

  /** The six UUIDs are pairwise distinct, Settings and Command by one character. */
  lemma CharsDistinct()
    ensures forall i, j :: 0 <= i < j < |AllChars()| ==> AllChars()[i] != AllChars()[j]
    ensures SettingsChar[1] != CommandChar[1] && SettingsChar[2..] == CommandChar[2..]
  {
    var cs := AllChars();
    forall i, j | 0 <= i < j < |cs|
      ensures cs[i] != cs[j]
    {
      assert cs[i][0] != cs[j][0] || cs[i][1] != cs[j][1];
    }
  }

  /** A characteristic as a copy (Go copies the struct when appending it to a slice). */
  datatype CharacteristicCopy = CharacteristicCopy(uuid: CharType, service: Service?)

  /** A service as a copy; `characteristics` is the list as it was at copy time. */
  datatype ServiceCopy = ServiceCopy(uuid: string, characteristics: seq<CharacteristicCopy>, device: Device?)

  class Characteristic {
    var uuid: CharType
    var service: Service?

    constructor (uuid: CharType)
      ensures this.uuid == uuid && service == null
    {
      this.uuid := uuid;
      service := null;
    }

    /** `AddParentService`. */
    method AddParentService(s: Service)
      modifies this
      ensures service == s && uuid == old(uuid)
    {
      service := s;
    }
  }

  class Service {
    var uuid: string
    var characteristics: seq<CharacteristicCopy>
    var device: Device?

    constructor (uuid: string)
      ensures this.uuid == uuid && characteristics == [] && device == null
    {
      this.uuid := uuid;
      characteristics := [];
      device := null;
    }

    /** `AddParentDevice`. */
    method AddParentDevice(d: Device)
      modifies this
      ensures device == d && uuid == old(uuid) && characteristics == old(characteristics)
    {
      device := d;
    }

    /**
     * `AddCharacteristic`: links the characteristic to this service, then
     * appends a copy of it; the earlier entries stay as they were.
     */
    method AddCharacteristic(c: Characteristic)
      modifies this, c
      ensures c.service == this && c.uuid == old(c.uuid)
      ensures characteristics == old(characteristics) + [CharacteristicCopy(c.uuid, this)]
      ensures uuid == old(uuid) && device == old(device)
    {
      c.AddParentService(this);
      characteristics := characteristics + [CharacteristicCopy(c.uuid, c.service)];
    }
  }

  class Device {
    var services: seq<ServiceCopy>

    constructor ()
      ensures services == []
    {
      services := [];
    }

    /**
     * `AddService`: links the service to this device, then appends a copy
     * of it. Characteristics added to the service afterwards are not in
     * the copy.
     */
    method AddService(s: Service)
      modifies this, s
      ensures s.device == this && s.uuid == old(s.uuid) && s.characteristics == old(s.characteristics)
      ensures services == old(services) + [ServiceCopy(s.uuid, s.characteristics, this)]
    {
      s.AddParentDevice(this);
      services := services + [ServiceCopy(s.uuid, s.characteristics, s.device)];
    }
  }
}
