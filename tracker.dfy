/**
 * The attendance component's session: the recorded shifts, the open shift
 * and the running flag, with one method per handler and the timer tick.
 */
module Tracker {
  import opened Wrappers
  import opened ShiftStore

  /** What one timer firing does to the open shift: a copy with one more second. */
  function Advance(open: Option<Shift>): (r: Option<Shift>)
    ensures open.None? ==> r.None?
    ensures open.Some? ==> r.Some? && r.value.name == open.value.name && r.value.time == open.value.time + 1
  {
    if open.Some? then Some(open.value.(time := open.value.time + 1)) else open
  }

  /** The open shift after `n` timer firings. */
  function AdvanceBy(open: Option<Shift>, n: nat): Option<Shift>
  {
    if n == 0 then open else Advance(AdvanceBy(open, n - 1))
  }

  /** `n` firings add exactly `n` seconds and never touch the name. */
  lemma {:induction false} AdvanceByAdds(open: Option<Shift>, n: nat)
    ensures open.None? ==> AdvanceBy(open, n).None?
    ensures open.Some? ==>
      AdvanceBy(open, n) == Some(Shift(open.value.name, open.value.time + n))
  {
    if n > 0 {
      AdvanceByAdds(open, n - 1);
    }
  }

  class ShiftTracker {
    /** The recorded shifts, in the order they were first saved. */
    var shifts: seq<Shift>
    /** The shift being timed or edited, if any. */
    var current: Option<Shift>
    var running: bool

    /** The intended states: the clock never runs without an open shift. */
    predicate Valid()
      reads this
      ensures Valid() ==> (Ticking() <==> running)
    {
      running ==> current.Some?
    }

    /** The interval is registered only while running with an open shift. */
    predicate Ticking()
      reads this
      ensures Ticking() ==> Advance(current).Some? && Advance(current).value.time > current.value.time
    {
      running && current.Some?
    }

    /** The "add shift" button is shown without an open shift and enabled when not running. */
    predicate StartEnabled()
      reads this
      ensures StartEnabled() ==> Valid() && !Ticking()
    {
      current.None? && !running
    }

    /** The "stop" button is shown with an open shift and enabled while running. */
    predicate StopEnabled()
      reads this
      ensures StopEnabled() <==> Ticking()
      ensures StopEnabled() ==> Valid()
    {
      current.Some? && running
    }

    /** The "save" button is shown with an open shift and enabled when stopped with a non-empty name. */
    predicate SaveEnabled()
      reads this
      ensures SaveEnabled() ==> Valid() && !Ticking()
    {
      current.Some? && !running && current.value.name != ""
    }

    constructor ()
      ensures shifts == [] && current == None && !running
      ensures Valid() && StartEnabled()
    {
      shifts := [];
      current := None;
      running := false;
    }

    /** One firing of the one-second interval. */
    method Tick()
      modifies this
      ensures current == if old(Ticking()) then Advance(old(current)) else old(current)
      ensures shifts == old(shifts) && running == old(running)
      ensures old(Valid()) ==> Valid()
    {
      if running && current.Some? {
        current := Advance(current);
      }
    }

    /** Opens a fresh, empty shift and starts the clock; any unsaved open shift is dropped. */
    method Start()
      modifies this
      ensures current == Some(Shift("", 0)) && running
      ensures shifts == old(shifts)
      ensures Valid() && StopEnabled()
    {
      current := Some(Shift("", 0));
      running := true;
    }

    /** Stops the clock; the open shift stays as it is. */
    method Stop()
      modifies this
      ensures !running
      ensures current == old(current) && shifts == old(shifts)
      ensures Valid()
    {
      running := false;
    }

    /** Commits the open shift into the list by name and closes it. */
    method Save()
      modifies this
      ensures old(current).None? ==> shifts == old(shifts) && current == None
      ensures old(current).Some? ==> shifts == Merge(old(shifts), old(current).value) && current == None
      ensures running == old(running)
      ensures !old(running) ==> Valid() && StartEnabled()
    {
      if current.Some? {
        var c := current.value;
        var i := FindIndex(shifts, c.name);
        if i != -1 {
          shifts := shifts[i := c];
        } else {
          shifts := shifts + [c];
        }
        current := None;
      }
    }

    /** Reopens a recorded shift (by value) and starts the clock. */
    method Edit(shift: Shift)
      modifies this
      ensures current == Some(shift) && running
      ensures shifts == old(shifts)
      ensures Valid() && StopEnabled()
    {
      current := Some(shift);
      running := true;
    }

    /**
     * The manual time edit of entry `index`: the entry's time is raised to
     * `newTime` only if that is larger; the entry is then reopened and the
     * clock forced on.
     */
    method ChangeTime(index: nat, newTime: int)
      requires index < |shifts|
      modifies this
      ensures shifts == RaiseTime(old(shifts), index, newTime)
      ensures current == Some(shifts[index]) && running
      ensures Valid()
    {
      var updated := shifts;
      if newTime > updated[index].time {
        updated := updated[index := updated[index].(time := newTime)];
      }
      shifts := updated;
      current := Some(shifts[index]);
      running := true;
    }

    /** Typing into the name field of the open shift. */
    method Rename(name: string)
      requires current.Some?
      modifies this
      ensures current == Some(Shift(name, old(current).value.time))
      ensures shifts == old(shifts) && running == old(running)
      ensures Valid() == old(Valid())
    {
      current := Some(current.value.(name := name));
    }
  }

  /** Start, three ticks, type "Ana", stop, save: one entry of three seconds. */
  method RecordNewShift() returns (recorded: seq<Shift>)
    ensures recorded == [Shift("Ana", 3)]
  {
    var t := new ShiftTracker();
    t.Start();
    t.Tick();
    t.Tick();
    t.Tick();
    t.Rename("Ana");
    t.Stop();
    assert t.SaveEnabled();
    t.Save();
    recorded := t.shifts;
  }

  /** Reopening "Ana", two more ticks and saving replaces the entry instead of adding one. */
  method ReopenAndSave() returns (recorded: seq<Shift>)
    ensures recorded == [Shift("Ana", 5)]
  {
    var t := new ShiftTracker();
    t.Start();
    t.Tick();
    t.Tick();
    t.Tick();
    t.Rename("Ana");
    t.Stop();
    t.Save();
    t.Edit(t.shifts[0]);
    t.Tick();
    t.Tick();
    t.Stop();
    t.Save();
    assert FirstWithName([Shift("Ana", 3)], "Ana", 0);
    recorded := t.shifts;
  }

  /**
   * A time edit from 20 down to 10 seconds is dropped, but still reopens the
   * entry and runs. The setup is a shortcut: the list entry "Ana" of 20
   * seconds is opened by `Edit` directly, where the program would reach it
   * through Start, twenty ticks, Rename, Stop and Save.
   */
  method LowerTimeIgnored() returns (recorded: seq<Shift>, open: Option<Shift>, running: bool)
    ensures recorded == [Shift("Ana", 20)] && open == Some(Shift("Ana", 20)) && running
  {
    var t := new ShiftTracker();
    t.Edit(Shift("Ana", 20));
    t.Stop();
    t.Save();
    t.ChangeTime(0, 10);
    recorded, open, running := t.shifts, t.current, t.running;
  }
}
