/**
 * One project record and the rules of its stopwatch (main.js). Time is
 * measured in milliseconds; `now` is always supplied by the caller.
 */
module Projects {

  datatype Option<T> = None | Some(value: T)

  /** A clock reading in milliseconds since the epoch; `Date.now()` is positive. */
  type Timestamp = t: int | t > 0 witness 1

  /**
   * A project as stored. `elapsedTime` holds only completed running
   * intervals; while running, `lastStart` is when the current one began.
   * `goalTime` is in milliseconds and may be fractional (it is hours times
   * 3600000 from a form field); zero means "no goal".
   */
  datatype Project = Project(
    id: Timestamp,
    name: string,
    notes: string,
    goalTime: real,
    elapsedTime: int,
    count: int,
    isRunning: bool,
    lastStart: Option<Timestamp>)

  /** The record invariant: a project runs exactly when it has a start time. */
  predicate Consistent(p: Project) {
    p.isRunning <==> p.lastStart.Some?
  }

  /** The record `createProject` appends. */
  function NewProject(now: Timestamp, name: string, notes: string, goalTime: real): (p: Project)
    ensures Consistent(p) && !p.isRunning
    ensures p.id == now && p.name == name && p.notes == notes && p.goalTime == goalTime
    ensures p.elapsedTime == 0 && p.count == 0 && LiveTime(p, now) == 0
  {
    Project(now, name, notes, goalTime, 0, 0, false, None)
  }

  /** The time the display shows at `now`: completed intervals plus the running one. */
  function LiveTime(p: Project, now: int): int {
    if p.isRunning && p.lastStart.Some? then p.elapsedTime + (now - p.lastStart.value)
    else p.elapsedTime
  }

  /**
   * `startTimer` on one record: a stopped project starts at `now`; a running
   * one folds the interval since `lastStart` into `elapsedTime` and stops.
   * Only the three clock fields change, and the result is always consistent.
   */
  function Toggled(p: Project, now: Timestamp): (r: Project)
    ensures Consistent(r) && r.isRunning == !p.isRunning
    ensures r.(elapsedTime := p.elapsedTime, isRunning := p.isRunning, lastStart := p.lastStart) == p
    ensures !p.isRunning ==> r.lastStart == Some(now) && r.elapsedTime == p.elapsedTime
    ensures p.isRunning && Consistent(p) ==> r.elapsedTime == LiveTime(p, now)
    ensures p.isRunning && p.lastStart.Some? && p.lastStart.value <= now ==> r.elapsedTime >= p.elapsedTime
  {
    if !p.isRunning then
      p.(isRunning := true, lastStart := Some(now))
    else if p.lastStart.Some? then
      p.(isRunning := false, elapsedTime := p.elapsedTime + (now - p.lastStart.value), lastStart := None)
    else
      p.(isRunning := false)
  }

  /**
   * One firing of the interval that `window.onload` installs for a resumed
   * project: fold the slice since `lastStart` and move `lastStart` to `now`.
   * On a running project the live time is unchanged at every instant and the
   * folded total equals the live time at `now`. A missing `lastStart` reads
   * as 0 (JavaScript's `now - null`), so a firing on a stopped project adds
   * the whole clock reading and leaves the record inconsistent.
   */
  function Ticked(p: Project, now: Timestamp): (r: Project)
    ensures r.(elapsedTime := p.elapsedTime, lastStart := p.lastStart) == p
    ensures r.lastStart == Some(now)
    ensures Consistent(r) <==> p.isRunning
    ensures p.isRunning && Consistent(p) ==> r.elapsedTime == LiveTime(p, now)
    ensures p.isRunning && Consistent(p) ==> forall later :: LiveTime(r, later) == LiveTime(p, later)
    ensures p.lastStart.None? ==> r.elapsedTime == p.elapsedTime + now
  {
    var since := if p.lastStart.Some? then p.lastStart.value else 0;
    p.(elapsedTime := p.elapsedTime + (now - since), lastStart := Some(now))
  }

  /**
   * What `window.onload` does to one loaded record: a running project gets
   * `lastStart = now`, a stopped one is left alone. The time between the old
   * `lastStart` and `now` is not counted.
   */
  function Resumed(p: Project, now: Timestamp): (r: Project)
    ensures Consistent(p) ==> Consistent(r)
    ensures !p.isRunning ==> r == p
    ensures p.isRunning ==> r == p.(lastStart := Some(now))
    ensures p.isRunning && Consistent(p) ==>
      forall later :: LiveTime(r, later) == LiveTime(p, later) - (now - p.lastStart.value)
  {
    if p.isRunning then p.(lastStart := Some(now)) else p
  }

  /** Starting at `t0` and stopping at `t1` adds exactly `t1 - t0`. */
  lemma StartStopAddsInterval(p: Project, t0: Timestamp, t1: Timestamp)
    requires !p.isRunning
    ensures Toggled(Toggled(p, t0), t1) == p.(elapsedTime := p.elapsedTime + (t1 - t0), lastStart := None)
  {
  }

  /** After a stop the live time no longer moves: the interval is folded once. */
  lemma StopFreezesLiveTime(p: Project, now: Timestamp, later: int)
    requires p.isRunning && Consistent(p)
    ensures LiveTime(Toggled(p, now), later) == LiveTime(p, now)
  {
  }

  /** One start/stop pair of the toggle button. */
  datatype Session = Session(start: Timestamp, stop: Timestamp)

  /** The project after each session is run in turn, starting stopped. */
  function RunSessions(p: Project, sessions: seq<Session>): Project
    decreases |sessions|
  {
    if sessions == [] then p
    else RunSessions(Toggled(Toggled(p, sessions[0].start), sessions[0].stop), sessions[1..])
  }

  /** The sum of the sessions' lengths; never negative when no session runs backwards. */
  function TotalDuration(sessions: seq<Session>): (d: int)
    ensures (forall k :: 0 <= k < |sessions| ==> sessions[k].start <= sessions[k].stop) ==> d >= 0
    decreases |sessions|
  {
    if sessions == [] then 0
    else (sessions[0].stop - sessions[0].start) + TotalDuration(sessions[1..])
  }

  /**
   * Repeated start/stop accumulates additively and never resets: from a
   * stopped, consistent record, `elapsedTime` grows by exactly the total
   * session length and nothing else changes.
   */
  lemma {:induction false} SessionsAccumulate(p: Project, sessions: seq<Session>)
    requires Consistent(p) && !p.isRunning
    ensures RunSessions(p, sessions) == p.(elapsedTime := p.elapsedTime + TotalDuration(sessions))
    decreases |sessions|
  {
    if sessions != [] {
      var s := sessions[0];
      var q := Toggled(Toggled(p, s.start), s.stop);
      StartStopAddsInterval(p, s.start, s.stop);
      assert q == p.(elapsedTime := p.elapsedTime + (s.stop - s.start));
      SessionsAccumulate(q, sessions[1..]);
    }
  }

  /** The project after the resumed interval has fired at each of `ticks`. */
  function TickAll(p: Project, ticks: seq<Timestamp>): Project
    decreases |ticks|
  {
    if ticks == [] then p else TickAll(Ticked(p, ticks[0]), ticks[1..])
  }

  /**
   * Ticks never double-count: however many firings happen on a running
   * project before it is stopped, the stopped record is the one a stop
   * without ticks would give.
   */
  lemma {:induction false} TicksThenStop(p: Project, ticks: seq<Timestamp>, stop: Timestamp)
    requires p.isRunning && Consistent(p)
    ensures TickAll(p, ticks).isRunning && Consistent(TickAll(p, ticks))
    ensures Toggled(TickAll(p, ticks), stop) == Toggled(p, stop)
    decreases |ticks|
  {
    if ticks != [] {
      var q := Ticked(p, ticks[0]);
      TicksThenStop(q, ticks[1..], stop);
      assert Toggled(q, stop) == Toggled(p, stop);
    }
  }
}
