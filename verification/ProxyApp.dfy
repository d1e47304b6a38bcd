// MosaicProxyApp: a UDP socket behind a gate.
module ProxyApp {
  import opened Wrappers
  import Manager

  class MosaicProxyApp {
    var outDevice: Option<Manager.Device>  // set together with m_socket
    var active: bool
    var sendCount: nat
    var recvCount: nat

    ghost predicate Valid()
      reads this
    {
      outDevice.Some?
    }

    ghost function State(): Manager.App
      requires Valid()
      reads this
    {
      Manager.App(outDevice.value, active, sendCount, recvCount)
    }

    constructor ()
      ensures outDevice.None? && !active && sendCount == 0 && recvCount == 0
    {
      outDevice, active, sendCount, recvCount := None, false, 0, 0;
    }

    // A second call is a fatal error.
    method SetSockets(device: Manager.Device) returns (ok: bool)
      modifies this
      ensures ok <==> old(outDevice).None?
      ensures outDevice == if ok then Some(device) else old(outDevice)
      ensures active == old(active) && sendCount == old(sendCount) && recvCount == old(recvCount)
    {
      ok := outDevice.None?;
      if ok {
        outDevice := Some(device);
      }
    }

    method Enable()
      requires Valid()
      modifies this
      ensures Valid() && State() == old(State()).(active := true)
    {
      active := true;
    }

    method Disable()
      requires Valid()
      modifies this
      ensures Valid() && State() == old(State()).(active := false)
    {
      active := false;
    }

    // Whether the packet was handed to the socket.
    method TransmitPacket() returns (sent: bool)
      requires Valid()
      modifies this
      ensures Valid() && sent == old(active)
      ensures State() == if sent then old(State()).(sendCount := (old(sendCount) + 1) % 0x1_0000) else old(State())
    {
      if !active {
        return false;
      }
      sendCount := (sendCount + 1) % 0x1_0000;
      return true;
    }

    // Whether the packet was taken from the socket and the callback called.
    method Receive() returns (forwarded: bool)
      requires Valid()
      modifies this
      ensures Valid() && forwarded == old(active)
      ensures State() == if forwarded then old(State()).(recvCount := old(recvCount) + 1) else old(State())
    {
      if !active {
        return false;
      }
      recvCount := recvCount + 1;
      return true;
    }
  }
}
