/** The NR frequency lock: what is remembered, and the sections that run between two awaits. */
module FreqLock {
  import opened Store

  datatype Entry = Entry(arfcn: nat, scs: nat)

  datatype Phase = Unset | Temporary | Persistent | Unlocked

  /** What the last lock's guard is doing or has found. */
  datatype Guard = Idle | Checking | Okay | Reverted | Failed

  /** The file at start: absent or loaded, there but unusable, or there but not read, which passes for absent. */
  datatype Load = Loaded | Unusable | Unread

  /**
   `stored` is false when the file could not be loaded. `disk` is what a restart would read, and `blind` says
   that the file was not read and has not been written since; these two only the proofs read.
   */
  datatype Core = Core(saved: seq<Entry>, stored: bool, disk: seq<Entry>, blind: bool, phase: Phase, guard: Guard,
                       generation: nat)

  function Initial(file: seq<Entry>, load: Load): Core {
    Core(if load.Loaded? then file else [], !load.Unusable?, file, load.Unread?, Unset, Idle, 0)
  }

  /** Nothing to write: the file holds these entries already. */
  predicate Settled(c: Core, entries: seq<Entry>) {
    c.stored && c.saved == entries
  }

  function Persist(c: Core, entries: seq<Entry>, w: Written): Core {
    if w.Unwritten? then c else c.(saved := entries, stored := true, disk := entries, blind := false)
  }

  /** A lock the modem accepted: it starts a new generation, whether or not it could be saved. */
  function Locked(c: Core, persistent: bool, guarded: bool): Core {
    c.(phase := if persistent then Persistent else Temporary, generation := c.generation + 1,
       guard := if guarded then Checking else Idle)
  }

  /** Before the unlock is sent, so that a guard that comes later finds itself replaced. */
  function Unlocking(c: Core): Core {
    c.(generation := c.generation + 1, guard := if c.guard.Checking? then Idle else c.guard)
  }

  function Confirmed(c: Core, generation: nat): Core {
    if c.generation == generation then c.(guard := Okay) else c
  }

  function Ended(c: Core, generation: nat, back: seq<Entry>, done: bool): Core {
    if c.generation == generation then
      c.(guard := if done then Reverted else Failed, phase := if back == [] then Unlocked else Temporary)
    else c
  }

  class FreqLock {
    var saved: seq<Entry>
    var stored: bool
    ghost var disk: seq<Entry>
    ghost var blind: bool
    var phase: Phase
    var guard: Guard
    var generation: nat

    ghost function Model(): Core
      reads this
    {
      Core(saved, stored, disk, blind, phase, guard, generation)
    }

    /** `entries` is what the file holds; only a loaded one is used. */
    constructor (entries: seq<Entry>, load: Load)
      ensures Model() == Initial(entries, load)
    {
      saved := if load.Loaded? then entries else [];
      stored := !load.Unusable?;
      disk := entries;
      blind := load.Unread?;
      phase := Unset;
      guard := Idle;
      generation := 0;
    }

    /** `w` is how the write ends if there is one; a write that took place is remembered even if it failed. */
    method Save(entries: seq<Entry>, w: Written) returns (ok: bool)
      modifies this
      ensures ok == (old(Settled(Model(), entries)) || !w.Unwritten?)
      ensures Model() == if old(Settled(Model(), entries)) then old(Model()) else Persist(old(Model()), entries, w)
    {
      if stored && saved == entries {
        return true;
      }
      if !w.Unwritten? {
        saved := entries;
        stored := true;
        disk := entries;
        blind := false;
      }
      ok := !w.Unwritten?;
    }

    method Lock(persistent: bool, guarded: bool) returns (mine: nat)
      modifies this
      ensures Model() == Locked(old(Model()), persistent, guarded) && mine == generation
    {
      phase := if persistent then Persistent else Temporary;
      generation := generation + 1;
      guard := if guarded then Checking else Idle;
      mine := generation;
    }

    method Unlock()
      modifies this
      ensures Model() == Unlocking(old(Model()))
    {
      generation := generation + 1;
      if guard.Checking? {
        guard := Idle;
      }
    }

    method Confirm(mine: nat)
      modifies this
      ensures Model() == Confirmed(old(Model()), mine)
    {
      if generation == mine {
        guard := Okay;
      }
    }

    method EndGuard(mine: nat, back: seq<Entry>, done: bool)
      modifies this
      ensures Model() == Ended(old(Model()), mine, back, done)
    {
      if generation == mine {
        guard := if done then Reverted else Failed;
        phase := if back == [] then Unlocked else Temporary;
      }
    }
  }
}
