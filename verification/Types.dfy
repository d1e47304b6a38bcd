// The vocabulary shared by the kernel, the node manager and the bridge.
module Types {

  datatype Vector = Vector(x: real, y: real, z: real)

  type Ipv4 = a: nat | a < 0x1_0000_0000

  // A call of a method of MosaicNodeManager, with its arguments: what MakeEvent packs into an event.
  datatype Call =
    | CreateRadioNode(id: nat, pos: Vector)
    | CreateWiredNode(id: nat)
    | CreateNodeB(pos: Vector)
    | ActivateRadioNode(id: nat, pos: Vector)
    | UpdateNodePosition(id: nat, pos: Vector)
    | RemoveNode(id: nat)
    | ConfigureWifiRadio(id: nat, power: real, ip: Ipv4)
    | ConfigureCellRadio(id: nat, ip: Ipv4)
    | SendWifiMsg(id: nat, dst: Ipv4, channel: nat, msg: nat, length: nat)
    | SendCellMsg(id: nat, dst: Ipv4, msg: nat, length: nat)

  // What an EventImpl does when it is invoked.
  datatype Job =
    | Deferred(call: Call)  // a command of MOSAIC, packed by the bridge
    | Timer(tag: nat)       // any event ns-3 itself scheduled
    | StopCall              // Simulator::Stop

  datatype Event = Event(ts: nat, uid: nat, context: nat, job: Job)

  // Every scheduling call consumes one value of m_uid and is handed a newly made EventImpl, so that
  // value also names the EventImpl. Zero is the null pointer.
  datatype EventId = EventId(impl: nat, ts: nat, context: nat, uid: nat)

  const PROTO_CCH := 3  // the Wi-Fi control channel

  const NO_IMPL := 0
  const DESTROY_UID := 2
  const FIRST_UID := 4
  const NO_CONTEXT := 0xffff_ffff

  function IdOf(e: Event): EventId {
    EventId(e.uid, e.ts, e.context, e.uid)
  }

  // Why the process ended: an exit(1), or an NS_ASSERT of the debug build.
  datatype Reason =
    | UnknownId | DuplicateId | PoolExhausted | UnknownNs3Node | InvalidState
    | MissingApp | NullMobility | WifiOnWired | BadChannel | BadAddress
    | LateNodeB | UnsupportedRadio
    | NegativeTime | ClockAssertion | SendFailed

  datatype Status = Running | Exited(why: Reason) | Diverged
}
