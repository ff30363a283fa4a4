/** What the broker asks of the Android system it runs on. */
module Host {
  import opened ComposerLink

  /** An attempt to store the configured mode. */
  datatype Save = Save(mode: Mode, ok: bool)

  class Host {
    /** The suspend blocker: whether the broker last asked for it, and has it. */
    var blocking: bool
    /** Every verdict of the compatibility gates, every attempt to get the suspend
        blocker, every answer to whether this is a diagnostic build, and every attempt
        to store the mode. */
    ghost var gates: seq<bool>
    ghost var blocks: seq<bool>
    ghost var builds: seq<bool>
    ghost var saves: seq<Save>
    /** How many of the verdicts and attempts were bad. */
    ghost var faults: nat

    constructor ()
      ensures !blocking && gates == [] && blocks == [] && builds == [] && saves == []
    {
      blocking, gates, blocks, builds, saves, faults := false, [], [], [], [], 0;
    }

    method Compatible() returns (ok: bool)
      modifies this`gates, this`faults
      ensures faults == if ok then old(faults) else old(faults) + 1
      ensures gates == old(gates) + [ok]
    {
      ok := *;
      gates := gates + [ok];
      if !ok {
        faults := faults + 1;
      }
    }

    method Block() returns (ok: bool)
      modifies this`blocking, this`blocks, this`faults
      ensures faults == if ok then old(faults) else old(faults) + 1
      ensures blocks == old(blocks) + [ok] && blocking == ok
    {
      ok := *;
      blocking := ok;
      blocks := blocks + [ok];
      if !ok {
        faults := faults + 1;
      }
    }

    method Unblock()
      modifies this`blocking
      ensures !blocking
    {
      blocking := false;
    }

    method DiagnosticOnly() returns (yes: bool)
      modifies this`builds
      ensures builds == old(builds) + [yes]
    {
      yes := *;
      builds := builds + [yes];
    }

    method SaveMode(mode: Mode) returns (ok: bool)
      modifies this`saves, this`faults
      ensures faults == if ok then old(faults) else old(faults) + 1
      ensures saves == old(saves) + [Save(mode, ok)]
    {
      ok := *;
      saves := saves + [Save(mode, ok)];
      if !ok {
        faults := faults + 1;
      }
    }
  }
}
