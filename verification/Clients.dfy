/** The commands that reach the broker's socket. */
module Clients {
  import opened ComposerLink

  datatype ClientRequest =
    | CmdRegister(continuous: bool, unknownFlags: bool)
    | CmdToggle(mode: Mode)
    | CmdSetMode(mode: Mode)
    | CmdArm(mode: Mode)
    | CmdDisarm
    | CmdProbe(probe: nat)
    | CmdStatus
    | CmdOther

  /** A request and whether root sent it; anybody else is the tile. */
  datatype Command = Command(request: ClientRequest, root: bool)

  /** Commands that may arm the broker. */
  predicate AsksToArm(c: Command)
  {
    c.request.CmdArm? || c.request.CmdToggle?
  }

  /** Commands that may set the requested mode to this one. */
  predicate AsksForMode(c: Command, mode: Mode)
  {
    c.request == CmdSetMode(mode) || c.request == CmdArm(mode) || c.request == CmdToggle(mode)
  }

  class Listener {
    /** Every command received, oldest first. */
    ghost var received: seq<Command>
    /** How often a client was there. */
    ghost var knocks: nat

    constructor ()
      ensures received == [] && knocks == 0
    {
      received, knocks := [], 0;
    }

    method Poll() returns (client: bool)
      modifies this`knocks
      ensures knocks == if client then old(knocks) + 1 else old(knocks)
    {
      client := *;
      if client {
        knocks := knocks + 1;
      }
    }

    method Accept() returns (request: ClientRequest, root: bool)
      modifies this`received
      ensures received == old(received) + [Command(request, root)]
    {
      request := *;
      root := *;
      received := received + [Command(request, root)];
    }
  }
}
