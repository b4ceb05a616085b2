/** The embedded AmneziaWG devices one manager has made, as it sees them. */
module NetDevice {

  /** A device, by identity. */
  type Device = nat

  class Host {
    var next: Device
    var open: set<Device>
    var running: map<Device, string>

    constructor ()
      ensures next == 0 && open == {} && running == map[]
    {
      next, open, running := 0, {}, map[];
    }

    method New() returns (d: Device)
      modifies this
      ensures d == old(next) && next == d + 1
      ensures open == old(open) + {d} && running == old(running)[d := ""]
    {
      d := next;
      next, open, running := next + 1, open + {d}, running[d := ""];
    }

    method Close(d: Device)
      modifies this`open
      ensures open == old(open) - {d}
    {
      open := open - {d};
    }

    /** IpcSet applies its lines one by one: when it fails the device is left with some mixture. */
    method IpcSet(d: Device, conf: string, succeeds: bool, left: string)
      modifies this`running
      ensures running == old(running)[d := if succeeds then conf else left]
    {
      running := running[d := if succeeds then conf else left];
    }
  }
}
