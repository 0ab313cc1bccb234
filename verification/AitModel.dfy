/** The entities of an Application Information Table, as ait.h declares them. */
module AitModel {
  import opened Common

  const PROTOCOL_CAROUSEL: uint16 := 1
  const PROTOCOL_HTTP: uint16 := 3
  const MAX_PROTOCOLS := 2

  const CONTROL_AUTOSTART: byte := 1
  const CONTROL_PRESENT: byte := 2
  const CONTROL_KILL: byte := 4

  const USAGE_TELETEXT: byte := 1

  const INVALID_ID: uint16 := 0xFFFF

  datatype Triplet = Triplet(originalNetworkId: uint16, transportStreamId: uint16, serviceId: uint16)

  const INVALID_TRIPLET := Triplet(INVALID_ID, INVALID_ID, INVALID_ID)

  predicate IsInvalid(t: Triplet) {
    t.originalNetworkId == INVALID_ID || t.transportStreamId == INVALID_ID || t.serviceId == INVALID_ID
  }

  datatype Profile = Profile(id: uint16, major: byte, minor: byte, micro: byte)

  /** `visibility == 2` marks a description that has not been parsed yet. */
  datatype AppDesc = AppDesc(
    visibility: byte, priority: byte, serviceBound: bool, profiles: seq<Profile>, labels: seq<byte>)

  datatype LangString = LangString(lang: seq<byte>, text: string)

  datatype Transport = Transport(
    protocolId: uint16, protocolLabel: byte,
    remote: bool, dvb: Triplet, componentTag: byte,
    baseUrl: string, extensionUrls: seq<string>,
    failedToLoad: bool)

  datatype Rating = Rating(scheme: string, region: string, value: byte)

  datatype App = App(
    orgId: nat, appId: uint16, controlCode: byte,
    transports: seq<Transport>,
    location: string,
    names: seq<LangString>,
    desc: AppDesc,
    usageType: byte,
    boundaries: seq<string>,
    ratings: seq<Rating>,
    graphics: seq<nat>,
    scheme: string,
    appUsage: string)

  const UNPARSED_DESC := AppDesc(2, 0, false, [], [])

  /** An application entry as the section loop creates it, before its descriptors are read. */
  function NewApp(orgId: nat, appId: uint16, controlCode: byte): App {
    App(orgId, appId, controlCode, [], "", [], UNPARSED_DESC, 0, [], [], [], "", "")
  }

  /** `mask` is the 256-bit record of received section numbers, one bit each. */
  datatype Table = Table(mask: seq<bv8>, version: byte, apps: seq<App>, complete: bool)
}
