/**
 Android's preferred display mode and the journal that lets the broker put it
 back after any interruption.
 */
module PreferredMode {
  import opened Options
  import opened ComposerLink

  datatype JournalFile = Absent | Corrupt | Saved(mode: Mode)

  /** What survives a crash. The preferred mode is NATIVE when Android has none. */
  datatype Durable = Durable(journal: JournalFile, preferred: Mode)

  /** Startup recovery when its command succeeds. */
  function Replay(d: Durable): Durable
  {
    if d.journal.Saved? then Durable(Absent, d.journal.mode) else d
  }

  /** The user's mode is either in force or in the journal. */
  predicate Recoverable(d: Durable, user: Mode)
  {
    d.journal == Saved(user) || (d.journal == Absent && d.preferred == user)
  }

  /** Recovery restores the user's mode and removes the journal exactly from the
      recoverable states, and replaying it changes nothing. */
  lemma ReplayRestores(d: Durable, user: Mode)
    ensures Replay(d) == Durable(Absent, user) <==> Recoverable(d, user)
    ensures Replay(Replay(d)) == Replay(d)
  {
  }

  /** A durable state and the mode the user wanted at that moment. */
  datatype Moment = Moment(durable: Durable, user: Mode)

  /** What was asked of Android or of the file system, and whether it worked. */
  datatype Action =
    | ReadBack(ok: bool)
    | WroteJournal(mode: Mode, ok: bool)
    | Ran(mode: Mode, ok: bool)
    | ReadJournal(ok: bool)
    | Unlinked(ok: bool)

  /** What a recovery does, up to the step that fails, and what it reports. */
  predicate RecoverScript(journal: JournalFile, script: seq<Action>, ok: bool)
  {
    match journal
    case Absent => script == [] && ok
    case Corrupt => (script == [ReadJournal(false)] && ok) || (script == [ReadJournal(true)] && !ok)
    case Saved(mode) =>
      || (script == [ReadJournal(false)] && ok)
      || (script == [ReadJournal(true), Ran(mode, false)] && !ok)
      || (ok && (Restored(mode, script) || script == [ReadJournal(true), Ran(mode, true), Unlinked(false)]))
  }

  /** The journaled mode was put in force and then the journal removed. */
  predicate Restored(mode: Mode, script: seq<Action>)
  {
    script == [ReadJournal(true), Ran(mode, true), Unlinked(true)]
  }

  /** What an apply does, up to the step that fails and the recovery it then tries. */
  ghost predicate ApplyScript(snapshot: Mode, requested: Mode, script: seq<Action>, ok: bool)
  {
    || (ok && script == [ReadBack(true), WroteJournal(snapshot, true), Ran(requested, true)])
    || (!ok && script == [ReadBack(false)])
    || (!ok && script == [ReadBack(true), WroteJournal(snapshot, false)])
    || (!ok && exists rest, restored :: script == AfterRefusal(snapshot, requested, rest)
                                        && RecoverScript(Saved(snapshot), rest, restored))
  }

  function AfterRefusal(snapshot: Mode, requested: Mode, rest: seq<Action>): seq<Action>
  {
    [ReadBack(true), WroteJournal(snapshot, true), Ran(requested, false)] + rest
  }

  lemma RefusedScript(snapshot: Mode, requested: Mode, before: seq<Action>, after: seq<Action>, restored: bool)
    requires before + AfterRefusal(snapshot, requested, []) <= after
    requires RecoverScript(Saved(snapshot), after[|before| + 3..], restored)
    ensures ApplyScript(snapshot, requested, after[|before|..], false)
  {
    assert after[|before|..] == AfterRefusal(snapshot, requested, after[|before| + 3..]);
  }

  class ModeStore {
    var journal: JournalFile
    var preferred: Mode
    /** Every durable state so far, oldest first. */
    ghost var history: seq<Moment>
    /** A recovery command failed, the journal could not be read or removed. */
    ghost var recoveryFailed: bool
    /** The mode the user wants: what startup recovery leaves in force, or what was
        set from outside since. */
    ghost var user: Mode
    /** Everything asked of Android and the file system, in order. */
    ghost var actions: seq<Action>
    /** How many of those failed. */
    ghost var faults: nat

    ghost function Now(): Durable
      reads this
    {
      Durable(journal, preferred)
    }

    ghost predicate Valid()
      reads this
    {
      history != [] && history[|history| - 1] == Moment(Now(), user)
    }

    /** Wherever the process was interrupted from entry `from` on, recovery gives
        that mode back. */
    ghost predicate SafeSince(from: nat, mode: Mode)
      reads this
    {
      from <= |history| && forall i :: from <= i < |history| ==> Recoverable(history[i].durable, mode)
    }

    /** Wherever the process was interrupted, recovery gives back the mode the user
        wanted then. */
    ghost predicate AlwaysSafe()
      reads this
    {
      forall i :: 0 <= i < |history| ==> Recoverable(history[i].durable, history[i].user)
    }

    /** As long as no recovery failed, the journal exists exactly while the broker's
        mode is applied, and every durable state so far leads back to the user's mode. */
    ghost predicate Journaled(applied: bool)
      reads this
    {
      !recoveryFailed ==>
        && (if applied then journal == Saved(user) else Now() == Durable(Absent, user))
        && AlwaysSafe()
    }

    constructor (journal: JournalFile, preferred: Mode)
      ensures Valid() && Now() == Durable(journal, preferred) && history == [Moment(Now(), user)]
      ensures !recoveryFailed
      ensures user == Replay(Now()).preferred
    {
      this.journal, this.preferred := journal, preferred;
      user := Replay(Durable(journal, preferred)).preferred;
      history := [Moment(Durable(journal, preferred), Replay(Durable(journal, preferred)).preferred)];
      recoveryFailed, actions, faults := false, [], 0;
    }

    /** Whether a step that changes nothing durable works. */
    method Try(yes: Action, no: Action) returns (ok: bool)
      modifies this`actions, this`faults
      ensures actions == old(actions) + [if ok then yes else no]
      ensures faults == if ok then old(faults) else old(faults) + 1
    {
      ok := *;
      actions := actions + [if ok then yes else no];
      if !ok {
        faults := faults + 1;
      }
    }

    /** Somebody else sets Android's preferred mode while the broker's is not in force. */
    method ChangeOutside(mode: Mode)
      requires Valid() && !journal.Saved?
      modifies this`preferred, this`user, this`history
      ensures Valid() && preferred == mode && user == mode
      ensures history == old(history) + [Moment(Now(), user)]
      ensures forall applied :: old(Journaled(applied)) ==> Journaled(applied)
    {
      preferred, user := mode, mode;
      history := history + [Moment(Now(), user)];
    }

    /** Sets or clears Android's preferred mode. A command that reports failure may
        have taken effect. */
    method Command(mode: Mode) returns (ok: bool)
      requires Valid()
      modifies this`preferred, this`history, this`actions, this`faults
      ensures Valid() && actions == old(actions) + [Ran(mode, ok)]
      ensures faults == if ok then old(faults) else old(faults) + 1
      ensures ok ==> preferred == mode
      ensures preferred == old(preferred) || preferred == mode
      ensures history == old(history) + [Moment(Now(), user)]
    {
      ok := Try(Ran(mode, true), Ran(mode, false));
      var took: bool := *;
      if ok || took {
        preferred := mode;
      }
      history := history + [Moment(Now(), user)];
    }

    /** The journal is replaced atomically or not at all. */
    method WriteJournal(mode: Mode) returns (ok: bool)
      requires Valid()
      modifies this`journal, this`history, this`actions, this`faults
      ensures Valid() && actions == old(actions) + [WroteJournal(mode, ok)]
      ensures faults == if ok then old(faults) else old(faults) + 1
      ensures journal == if ok then Saved(mode) else old(journal)
      ensures history == old(history) + [Moment(Now(), user)]
    {
      ok := Try(WroteJournal(mode, true), WroteJournal(mode, false));
      if ok {
        journal := Saved(mode);
      }
      history := history + [Moment(Now(), user)];
    }

    /** Snapshots the mode in force, journals it, and applies the requested mode. The
        user's mode stays recoverable at every point on the way if and only if the
        snapshot is the user's mode. */
    method Apply(requested: Mode) returns (ok: bool)
      requires Valid()
      modifies this`journal, this`preferred, this`history, this`recoveryFailed, this`actions, this`faults
      ensures Valid() && old(actions) <= actions
      ensures old(history) <= history
      ensures ok ==> journal == Saved(old(preferred)) && preferred == requested
      ensures ok ==> |old(history)| < |history|
      ensures ApplyScript(old(preferred), requested, actions[|old(actions)|..], ok)
      ensures faults >= old(faults) && (ok <==> faults == old(faults))
      ensures ok ==> recoveryFailed == old(recoveryFailed)
      ensures old(recoveryFailed) ==> recoveryFailed
      ensures !ok && !recoveryFailed && old(journal).Absent? ==> Now() == old(Now())
      ensures old(Recoverable(Now(), preferred)) ==> SafeSince(|old(history)|, old(preferred))
      ensures ok ==> forall mode :: Recoverable(Now(), mode) <==> mode == old(preferred)
      ensures old(Journaled(false)) ==> Journaled(ok)
    {
      hide RecoverScript, Restored;
      var snapshot := preferred;
      var readable := Try(ReadBack(true), ReadBack(false));
      if !readable {
        return false;
      }
      var written := WriteJournal(snapshot);
      if !written {
        return false;
      }
      var applied := Command(requested);
      if !applied {
        ghost var before := history;
        var recovered := Recover();
        assert forall i :: 0 <= i < |before| ==> history[i] == before[i];
        RefusedScript(snapshot, requested, old(actions), actions, recovered);
        return false;
      }
      return true;
    }

    /** Replays the journal. One that cannot be read counts as absent. */
    method Recover() returns (ok: bool)
      requires Valid()
      modifies this`journal, this`preferred, this`history, this`recoveryFailed, this`actions, this`faults
      ensures Valid() && old(actions) <= actions
      ensures old(history) <= history && faults >= old(faults)
      ensures old(recoveryFailed) ==> recoveryFailed
      ensures !recoveryFailed ==> ok && Now() == Replay(old(Now()))
      ensures RecoverScript(old(journal), actions[|old(actions)|..], ok)
      ensures var script := actions[|old(actions)|..];
              var restored := old(journal).Saved? && Restored(old(journal).mode, script);
              && journal == (if restored then Absent else old(journal))
              && (recoveryFailed <==> old(recoveryFailed) || !(old(journal).Absent? || restored))
      ensures preferred == old(preferred) || old(journal) == Saved(preferred)
      ensures old(journal).Saved? ==>
                SafeSince(|old(history)|, old(journal).mode) && Recoverable(Now(), old(journal).mode)
      ensures !old(journal).Saved? ==> Now() == old(Now()) && history == old(history)
      ensures old(journal.Corrupt? || recoveryFailed || AlwaysSafe()) ==> Journaled(false)
    {
      if journal.Absent? {
        return true;
      }
      var readable := Try(ReadJournal(true), ReadJournal(false));
      if !readable {
        recoveryFailed := true;
        return true;
      }
      if journal.Corrupt? {
        recoveryFailed := true;
        return false;
      }
      ok := Command(journal.mode);
      if ok {
        var removed := Try(Unlinked(true), Unlinked(false));
        assert actions[|old(actions)|..] == [ReadJournal(true), Ran(journal.mode, true), Unlinked(removed)];
        if removed {
          journal := Absent;
          history := history + [Moment(Now(), user)];
        } else {
          recoveryFailed := true;
        }
      } else {
        recoveryFailed := true;
      }
    }
  }

  /** A recovery that leaves the journal behind, followed by a new apply: the fresh
      snapshot replaces the user's mode in the journal, and the user's mode is still
      recoverable if and only if it was in force by then. */
  method ApplyAfterFailedRecovery(store: ModeStore, requested: Mode)
    returns (applied: bool, ghost snapshot: Mode)
    requires store.Valid() && store.journal == Saved(store.user)
    modifies store`journal, store`preferred, store`history, store`recoveryFailed, store`actions, store`faults
    ensures snapshot == old(store.preferred) || snapshot == store.user
    ensures applied ==>
              && Recoverable(store.Now(), snapshot)
              && (Recoverable(store.Now(), store.user) <==> snapshot == store.user)
  {
    applied := false;
    var restored := store.Recover();
    snapshot := store.preferred;
    if store.journal.Saved? {
      applied := store.Apply(requested);
    }
  }
}
