/**
 * The page's process-wide state (main.js): the ordered list `projects` and
 * the parallel, index-keyed array `timers` of interval handles, with the
 * operations the buttons, the forms and page load call. Saving, rendering,
 * the clock and the confirmation prompt are outside; `now` and the prompt's
 * answer are parameters.
 */
module Tracker {
  import opened Projects
  import opened Progress

  /** What the interval registered in a `timers` slot does when it fires. */
  datatype Handle =
    | Refresh  // installed by startTimer: redraws the live time, changes no record
    | Accrue   // installed at page load: folds time into the record and saves

  /** Reading a slot of a JavaScript array: a hole, `undefined` or `null` all read as absent. */
  function SlotAt(slots: seq<Option<Handle>>, i: int): Option<Handle> {
    if 0 <= i < |slots| then slots[i] else None
  }

  /** `timers[i] = handle`: every other slot keeps what it held; writing past the end leaves holes. */
  function WithSlot(slots: seq<Option<Handle>>, i: nat, h: Handle): (r: seq<Option<Handle>>)
    ensures forall j :: SlotAt(r, j) == if j == i then Some(h) else SlotAt(slots, j)
  {
    if i < |slots| then slots[i := Some(h)]
    else slots + seq(i - |slots|, _ => None) + [Some(h)]
  }

  /** `if (timers[i]) { clearInterval(timers[i]); timers[i] = null; }`: slot i reads absent, nothing moves. */
  function ClearedSlot(slots: seq<Option<Handle>>, i: nat): (r: seq<Option<Handle>>)
    ensures |r| == |slots|
    ensures forall j :: SlotAt(r, j) == if j == i then None else SlotAt(slots, j)
  {
    if SlotAt(slots, i).Some? then slots[i := None] else slots
  }

  class TimeTracker {
    var projects: seq<Project>
    var timers: seq<Option<Handle>>

    /** Every record runs exactly when it has a start time. */
    ghost predicate Valid()
      reads this
    {
      forall j :: 0 <= j < |projects| ==> Consistent(projects[j])
    }

    function TimerAt(i: int): Option<Handle>
      reads this
    {
      SlotAt(timers, i)
    }

    /** Page start: the stored list (or the empty list) and no intervals yet. */
    constructor (loaded: seq<Project>)
      ensures projects == loaded && timers == []
    {
      projects := loaded;
      timers := [];
    }

    /** `createProject`: append one fresh, stopped record with zeroed counters. */
    method CreateProject(name: string, notes: string, goalTime: real, now: Timestamp)
      modifies this
      ensures projects == old(projects) + [NewProject(now, name, notes, goalTime)]
      ensures timers == old(timers)
      ensures old(Valid()) ==> Valid()
    {
      var newProject := Project(now, name, notes, goalTime, 0, 0, false, None);
      projects := projects + [newProject];
    }

    /**
     * `updateProject`: overwrite name, notes and goal of record i; its clock,
     * counter and id and every other record stay as they were. An index with
     * no record makes the source throw before writing anything (ok is false).
     */
    method UpdateProject(i: int, name: string, notes: string, goalTime: real) returns (ok: bool)
      modifies this
      ensures ok <==> 0 <= i < |old(projects)|
      ensures |projects| == |old(projects)| && timers == old(timers)
      ensures forall j :: 0 <= j < |projects| && j != i ==> projects[j] == old(projects[j])
      ensures ok ==> projects[i].name == name && projects[i].notes == notes && projects[i].goalTime == goalTime
      ensures ok ==> projects[i].id == old(projects[i].id) && projects[i].elapsedTime == old(projects[i].elapsedTime)
                     && projects[i].count == old(projects[i].count) && projects[i].isRunning == old(projects[i].isRunning)
                     && projects[i].lastStart == old(projects[i].lastStart)
      ensures old(Valid()) ==> Valid()
    {
      if !(0 <= i < |projects|) {
        return false;
      }
      projects := projects[i := projects[i].(name := name)];
      projects := projects[i := projects[i].(notes := notes)];
      projects := projects[i := projects[i].(goalTime := goalTime)];
      ok := true;
    }

    /**
     * `deleteProject`: after a confirmed prompt, record i is removed and the
     * later records shift down by one. Slot i of `timers` is cleared but the
     * array is not spliced, so later handles keep their old indices. A refused
     * prompt changes nothing; an index with no record throws before the prompt.
     * `discarded` is the record as it was dropped: marked stopped, with its
     * `lastStart` still set.
     */
    method DeleteProject(i: int, confirmed: bool) returns (ok: bool, ghost discarded: Option<Project>)
      modifies this
      ensures ok <==> 0 <= i < |old(projects)|
      ensures !(ok && confirmed) ==> projects == old(projects) && timers == old(timers) && discarded == None
      ensures ok && confirmed ==> projects == old(projects[..i]) + old(projects[i + 1..])
      ensures ok && confirmed ==> |projects| == |old(projects)| - 1
                                  && (forall j :: 0 <= j < i ==> projects[j] == old(projects[j]))
                                  && (forall j :: i <= j < |projects| ==> projects[j] == old(projects[j + 1]))
      ensures ok && confirmed ==> discarded == Some(old(projects[i]).(isRunning := false))
      ensures ok && confirmed ==> |timers| == |old(timers)| && TimerAt(i) == None
                                  && forall j :: j != i ==> TimerAt(j) == SlotAt(old(timers), j)
      ensures old(Valid()) ==> Valid()
    {
      discarded := None;
      if !(0 <= i < |projects|) {
        return false, discarded;
      }
      ok := true;
      if !confirmed {
        return;
      }
      if projects[i].isRunning {
        projects := projects[i := projects[i].(isRunning := false)];
      }
      discarded := Some(projects[i]);
      timers := ClearedSlot(timers, i);
      projects := projects[..i] + projects[i + 1..];
    }

    /**
     * `startTimer`, the start/stop button: record i becomes Toggled(record, now).
     * Starting installs a display-only interval in slot i; stopping clears
     * slot i. No other record and no other slot changes.
     */
    method StartTimer(i: int, now: Timestamp) returns (ok: bool)
      modifies this
      ensures ok <==> 0 <= i < |old(projects)|
      ensures !ok ==> projects == old(projects) && timers == old(timers)
      ensures ok ==> projects == old(projects)[i := Toggled(old(projects)[i], now)]
      ensures ok ==> TimerAt(i) == if old(projects)[i].isRunning then None else Some(Refresh)
      ensures forall j :: j != i ==> TimerAt(j) == SlotAt(old(timers), j)
      ensures old(Valid()) ==> Valid()
    {
      if !(0 <= i < |projects|) {
        return false;
      }
      var project := projects[i];
      if !project.isRunning {
        project := project.(isRunning := true);
        project := project.(lastStart := Some(now));
        timers := WithSlot(timers, i, Refresh);
      } else {
        project := project.(isRunning := false);
        if project.lastStart.Some? {
          project := project.(elapsedTime := project.elapsedTime + (now - project.lastStart.value));
          project := project.(lastStart := None);
        }
        timers := ClearedSlot(timers, i);
      }
      projects := projects[i := project];
      ok := true;
    }

    /** `addCount`: the counter of record i goes up by exactly one; nothing else changes. */
    method AddCount(i: int) returns (ok: bool)
      modifies this
      ensures ok <==> 0 <= i < |old(projects)|
      ensures !ok ==> projects == old(projects)
      ensures ok ==> projects == old(projects)[i := old(projects)[i].(count := old(projects)[i].count + 1)]
      ensures timers == old(timers)
      ensures old(Valid()) ==> Valid()
    {
      if !(0 <= i < |projects|) {
        return false;
      }
      projects := projects[i := projects[i].(count := projects[i].count + 1)];
      ok := true;
    }

    /**
     * The resume loop of `window.onload`: every running record gets
     * `lastStart = now` and an accruing interval in its slot; stopped
     * records and their slots are untouched.
     */
    method Restore(now: Timestamp)
      modifies this
      ensures |projects| == |old(projects)|
      ensures forall j :: 0 <= j < |projects| ==> projects[j] == Resumed(old(projects[j]), now)
      ensures forall j :: TimerAt(j) == if 0 <= j < |projects| && old(projects[j]).isRunning then Some(Accrue)
                                        else SlotAt(old(timers), j)
      ensures old(Valid()) ==> Valid()
    {
      var k := 0;
      while k < |projects|
        invariant 0 <= k <= |projects| == |old(projects)|
        invariant forall j :: 0 <= j < k ==> projects[j] == Resumed(old(projects[j]), now)
        invariant forall j :: k <= j < |projects| ==> projects[j] == old(projects[j])
        invariant forall j :: TimerAt(j) == if 0 <= j < k && old(projects[j]).isRunning then Some(Accrue)
                                            else SlotAt(old(timers), j)
      {
        if projects[k].isRunning {
          projects := projects[k := projects[k].(lastStart := Some(now))];
          timers := WithSlot(timers, k, Accrue);
        }
        k := k + 1;
      }
    }

    /**
     * One firing of the accruing interval of the project at index i:
     * record i becomes Ticked(record, now); no other record and no slot changes.
     */
    method Tick(i: nat, now: Timestamp)
      requires i < |projects|
      modifies this
      ensures projects == old(projects)[i := Ticked(old(projects)[i], now)]
      ensures timers == old(timers)
      ensures old(Valid()) && old(projects)[i].isRunning ==> Valid()
    {
      var project := projects[i];
      var since := if project.lastStart.Some? then project.lastStart.value else 0;
      project := project.(elapsedTime := project.elapsedTime + (now - since));
      project := project.(lastStart := Some(now));
      projects := projects[i := project];
    }

    /**
     * The figures `updateProjectDisplay` draws for index i: nothing when no
     * record (hence no element) has that index; otherwise the live time and,
     * only when the record has a goal, the progress towards it.
     */
    method Display(i: int, now: Timestamp) returns (shown: Option<int>, progress: Option<real>)
      ensures shown.Some? <==> 0 <= i < |projects|
      ensures shown.Some? ==> shown.value == LiveTime(projects[i], now)
      ensures progress.Some? <==> shown.Some? && projects[i].goalTime > 0.0
      ensures progress.Some? ==> progress.value == CalculateProgress(shown.value as real, projects[i].goalTime)
    {
      shown, progress := None, None;
      if !(0 <= i < |projects|) {
        return;
      }
      var project := projects[i];
      var displayTime := project.elapsedTime;
      if project.isRunning && project.lastStart.Some? {
        displayTime := displayTime + (now - project.lastStart.value);
      }
      shown := Some(displayTime);
      if project.goalTime > 0.0 {
        var currentElapsedTime := project.elapsedTime;
        if project.isRunning && project.lastStart.Some? {
          currentElapsedTime := currentElapsedTime + (now - project.lastStart.value);
        }
        progress := Some(CalculateProgress(currentElapsedTime as real, project.goalTime));
      }
    }
  }

  /**
   * After a reload with two running projects, deleting the first and then
   * stopping the second (now at index 0) leaves the second's accruing
   * interval registered in slot 1, past the end of the list.
   */
  method StaleHandleAfterDelete()
  {
    var a := Project(1, "a", "", 0.0, 0, 0, true, Some(5));
    var b := Project(2, "b", "", 0.0, 0, 0, true, Some(5));
    var tracker := new TimeTracker([a, b]);
    tracker.Restore(100);
    assert tracker.TimerAt(0) == Some(Accrue) && tracker.TimerAt(1) == Some(Accrue);
    var ok, _ := tracker.DeleteProject(0, true);
    ok := tracker.StartTimer(0, 200);
    assert |tracker.projects| == 1 && !tracker.projects[0].isRunning;
    assert tracker.TimerAt(0) == None && tracker.TimerAt(1) == Some(Accrue);
  }
}
