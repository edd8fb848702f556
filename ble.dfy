/** Values the nRF52810 builds exchange with the `rubble` link layer: device
    addresses, advertising-data structures, beacons and the link layer's
    requests for its next timer interrupt. The link layer itself is not part
    of this model; these are only the values crossing its boundary. */
module Ble {
  import opened Hal

  datatype AddressKind = Public | Random

  /** A Bluetooth device address: six bytes and their kind. */
  datatype DeviceAddress = DeviceAddress(bytes: seq<u8>, kind: AddressKind)

  /** One AD structure of an advertising payload. `Unknown` carries a type
      byte and raw data; the other kinds are named as far as this model
      needs them (`OtherKind` stands for every decoded kind not used here). */
  datatype AdStructure =
    | Unknown(ty: u8, data: seq<u8>)
    | CompleteLocalName(name: string)
    | OtherKind(ty: u8)

  /** A non-connectable beacon: the advertiser's address and its AD structures. */
  datatype Beacon = Beacon(address: DeviceAddress, ad: seq<AdStructure>)

  /** The link layer's request for its timer: switch it off, leave it as it
      is, or fire at an instant (in microseconds of the BLE timer). */
  datatype NextUpdate = Disable | Keep | At(instant: nat)

  /** A radio configuration chosen by the link layer; opaque to the handlers. */
  datatype RadioCmd = RadioCmd(token: nat)

  /** What `LinkLayer::update` returns: how to reconfigure the radio and when
      to be called next. */
  datatype Cmd = Cmd(radio: RadioCmd, nextUpdate: NextUpdate)
}
