/** The two grabbed volume keys that let the user end a takeover. */
module VolumeGuard {
  import opened Clock

  const CHORD_HOLD_MS := 3000

  /** What polling one key device returned: readable data with the key levels
      that were read, or an error. */
  datatype KeyPoll = Quiet | Levels(levels: seq<bool>) | ReadFailed | Lost

  predicate Healthy(p: KeyPoll)
  {
    p.Quiet? || p.Levels?
  }

  function Level(pressed: bool, p: KeyPoll): bool
  {
    if p.Levels? && p.levels != [] then p.levels[|p.levels| - 1] else pressed
  }

  /** One look at both keys: what was read, when, and whether it means escape. */
  datatype Look = Look(down: KeyPoll, up: KeyPoll, time: nat, escape: bool)

  /** What opening and grabbing the two devices brought. */
  datatype Grab = Grab(down: bool, up: bool, grabbed: bool)

  class VolumeGuard {
    var down: bool
    var up: bool
    var downPressed: bool
    var upPressed: bool
    /** When both keys went down, or 0. */
    var bothSince: nat
    /** Every look at the keys and every attempt to grab them. */
    ghost var looks: seq<Look>
    ghost var grabs: seq<Grab>
    /** How many looks meant escape, and how many attempts did not get both keys. */
    ghost var alarms: nat
    ghost var faults: nat

    ghost predicate Held()
      reads this
    {
      down && up
    }

    ghost predicate Free()
      reads this
    {
      !down && !up && !downPressed && !upPressed && bothSince == 0
    }

    /** At the last look both devices were there, and the keys had not been down
        together for three seconds. */
    ghost predicate Calm()
      reads this
    {
      && looks != []
      && var look := looks[|looks| - 1];
         && !look.escape && Healthy(look.down) && Healthy(look.up)
         && (downPressed && upPressed ==> look.time - bothSince < CHORD_HOLD_MS)
    }

    constructor ()
      ensures Free() && looks == [] && grabs == []
    {
      down, up, downPressed, upPressed, bothSince := false, false, false, false, 0;
      looks, grabs, alarms, faults := [], [], 0, 0;
    }

    method Open() returns (grab: Grab)
      modifies this`grabs, this`faults
      ensures grabs == old(grabs) + [grab]
      ensures faults == if grab == Grab(true, true, true) then old(faults) else old(faults) + 1
    {
      grab := *;
      grabs := grabs + [grab];
      if grab != Grab(true, true, true) {
        faults := faults + 1;
      }
    }

    /** Grabs both keys or neither, and both exactly when the devices allow it. */
    method Acquire() returns (ok: bool)
      requires Free()
      modifies this`down, this`up, this`downPressed, this`upPressed, this`bothSince, this`grabs,
               this`faults
      ensures ok ==> Held() && !downPressed && !upPressed && bothSince == 0
      ensures !ok ==> Free()
      ensures |grabs| == |old(grabs)| + 1 && old(grabs) <= grabs
      ensures ok <==> grabs[|old(grabs)|] == Grab(true, true, true)
      ensures faults == if ok then old(faults) else old(faults) + 1
    {
      var grab := Open();
      down, up := grab.down, grab.up;
      if !down || !up || !grab.grabbed {
        Release();
        return false;
      }
      return true;
    }

    method Release()
      modifies this`down, this`up, this`downPressed, this`upPressed, this`bothSince
      ensures Free()
    {
      down, up := false, false;
      downPressed, upPressed := false, false;
      bothSince := 0;
    }

    /** The key is where its last event left it. */
    method ReadOne(pressed: bool, poll: KeyPoll) returns (level: bool)
      ensures level == Level(pressed, poll)
    {
      level := pressed;
      if poll.Levels? {
        for i := 0 to |poll.levels|
          invariant level == if i == 0 then pressed else poll.levels[i - 1]
        {
          level := poll.levels[i];
        }
      }
    }

    /** Escapes when a key device is lost, or when both keys have been seen down
        at every look for three seconds. */
    method Update(clock: Clock, downPoll: KeyPoll, upPoll: KeyPoll) returns (escape: bool)
      modifies clock, this`downPressed, this`upPressed, this`bothSince
      ensures clock.now >= old(clock.now)
      ensures !Healthy(downPoll) || !Healthy(upPoll) ==> escape
      ensures Healthy(downPoll) && Healthy(upPoll) ==>
                && downPressed == Level(old(downPressed), downPoll)
                && upPressed == Level(old(upPressed), upPoll)
                && bothSince == (if !(downPressed && upPressed) then 0
                                 else if old(bothSince) != 0 then old(bothSince) else clock.now)
                && (escape <==> downPressed && upPressed && clock.now - bothSince >= CHORD_HOLD_MS)
    {
      if downPoll.Lost? || upPoll.Lost? {
        return true;
      }
      if downPoll.ReadFailed? {
        return true;
      }
      downPressed := ReadOne(downPressed, downPoll);
      if upPoll.ReadFailed? {
        return true;
      }
      upPressed := ReadOne(upPressed, upPoll);
      var now := clock.Read();
      if downPressed && upPressed {
        if bothSince == 0 {
          bothSince := now;
        }
        if now - bothSince >= CHORD_HOLD_MS {
          return true;
        }
      } else {
        bothSince := 0;
      }
      return false;
    }

    /** Looks at both keys. */
    method Watch(clock: Clock) returns (escape: bool)
      modifies clock, this`downPressed, this`upPressed, this`bothSince, this`looks, this`alarms
      ensures clock.now >= old(clock.now)
      ensures alarms == (if escape then old(alarms) + 1 else old(alarms)) && (Calm() <==> !escape)
      ensures |looks| == |old(looks)| + 1 && old(looks) <= looks
      ensures var look := looks[|old(looks)|];
                && look.escape == escape && look.time == clock.now
                && (!Healthy(look.down) || !Healthy(look.up) ==> escape)
                && (Healthy(look.down) && Healthy(look.up) ==>
                      && downPressed == Level(old(downPressed), look.down)
                      && upPressed == Level(old(upPressed), look.up)
                      && bothSince == (if !(downPressed && upPressed) then 0
                                       else if old(bothSince) != 0 then old(bothSince) else clock.now)
                      && (escape <==> downPressed && upPressed && clock.now - bothSince >= CHORD_HOLD_MS))
    {
      var downPoll: KeyPoll := *;
      var upPoll: KeyPoll := *;
      escape := Update(clock, downPoll, upPoll);
      looks := looks + [Look(downPoll, upPoll, clock.now, escape)];
      if escape {
        alarms := alarms + 1;
      }
    }
  }
}
