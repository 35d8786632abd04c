/** Hard timers (timer.c): the skip list for any number of levels, and the check that fires
    timers while their callbacks start, stop and retune timers.

    The functions here do what the code does, with tick arithmetic modulo 2^32; TimerLemmas
    says what that amounts to.
 */
module TimerModel {
  import opened Sequences
  import opened Ticks
  import opened TimerRows

  const MASK_PLUS := 4   // RT_TIMER_SKIP_LIST_MASK + 1; the shift by 2 divides by it

  datatype Timer = Timer(init: nat, timeout: Tick, periodic: bool, active: bool)

  type Timers = map<Id, Timer>

  /** `temp` is the temporary list of rt_timer_check, which holds the timer that is firing. */
  datatype State = State(now: Tick, timers: Timers, rows: seq<seq<Id>>, temp: seq<Id>, random: nat)

  function Due(timers: Timers, id: Id): Tick {
    if id in timers then timers[id].timeout else 0
  }

  // ---- Starting and stopping --------------------------------------------------------------

  /** The inner loop of rt_timer_start on one row, from the position it has reached. */
  function Scan(row: seq<Id>, p: nat, timers: Timers, t: Tick): (q: nat)
    requires p <= |row|
    ensures p <= q <= |row|
    decreases |row| - p
  {
    if p < |row| && !Later(Due(timers, row[p]), t) then Scan(row, p + 1, timers, t) else p
  }

  function IndexOf(row: seq<Id>, x: Id): (i: nat)
    requires x in row
    ensures i < |row| && row[i] == x
  {
    if row[0] == x then 0 else 1 + IndexOf(row[1..], x)
  }

  /** From the place reached in one row to the same timer in the row below. */
  function Down(upper: seq<Id>, p: nat, lower: seq<Id>): (q: nat)
    requires p <= |upper|
    ensures q <= |lower|
  {
    if p == 0 || upper[p - 1] !in lower then 0 else IndexOf(lower, upper[p - 1]) + 1
  }

  /** Where the outer loop stops in row `r`. */
  function Position(rows: seq<seq<Id>>, timers: Timers, t: Tick, r: nat): (p: nat)
    requires r < |rows|
    ensures p <= |rows[r]|
  {
    if r == 0 then Scan(rows[0], 0, timers, t)
    else Scan(rows[r], Down(rows[r - 1], Position(rows, timers, t, r - 1), rows[r]), timers, t)
  }

  /** In how many rows a timer is linked; `random` is the counter of starts. */
  function Height(random: nat, levels: nat): (h: nat)
    ensures h <= levels && (0 < levels ==> 0 < h)
  {
    if levels <= 1 then levels
    else if random % MASK_PLUS != 0 then 1
    else 1 + Height(random / MASK_PLUS, levels - 1)
  }

  function PutAt(row: seq<Id>, p: nat, x: Id): seq<Id>
    requires p <= |row|
  {
    row[..p] + [x] + row[p..]
  }

  function LinkRows(rows: seq<seq<Id>>, timers: Timers, x: Id, t: Tick, top: nat): (r: seq<seq<Id>>)
    ensures |r| == |rows|
  {
    seq(|rows|, r requires 0 <= r < |rows| =>
      if r < top then rows[r] else PutAt(rows[r], Position(rows, timers, t, r), x))
  }

  function RemoveRows(rows: seq<seq<Id>>, x: Id): (r: seq<seq<Id>>)
    ensures |r| == |rows|
  {
    seq(|rows|, r requires 0 <= r < |rows| => Remove(rows[r], x))
  }

  /** _rt_timer_remove */
  function Unlinked(s: State, x: Id): State {
    s.(rows := RemoveRows(s.rows, x), temp := Remove(s.temp, x))
  }

  /** rt_timer_start */
  function Start(s: State, x: Id): State
    requires x in s.timers
  {
    var u := Unlinked(s, x);
    var t := Add(s.now, s.timers[x].init);
    var random := (s.random + 1) % TICKS;
    var timers := s.timers[x := s.timers[x].(timeout := t, active := true)];
    u.(timers := timers, random := random,
       rows := LinkRows(u.rows, timers, x, t, |u.rows| - Height(random, |u.rows|)))
  }

  /** rt_timer_stop: an error unless the timer is active. */
  function Stop(s: State, x: Id): State
    requires x in s.timers
  {
    if s.timers[x].active then
      Unlinked(s, x).(timers := s.timers[x := s.timers[x].(active := false)])
    else s
  }

  /** What a callback may do. */
  datatype Command =
    | DoStart(id: Id) | DoStop(id: Id)
    | SetTime(id: Id, ticks: nat) | SetOneShot(id: Id) | SetPeriodic(id: Id)

  function Run1(s: State, c: Command): State
    requires c.id in s.timers
  {
    match c
    case DoStart(x) => Start(s, x)
    case DoStop(x) => Stop(s, x)
    case SetTime(x, n) => s.(timers := s.timers[x := s.timers[x].(init := n)])
    case SetOneShot(x) => s.(timers := s.timers[x := s.timers[x].(periodic := false)])
    case SetPeriodic(x) => s.(timers := s.timers[x := s.timers[x].(periodic := true)])
  }

  type Script = seq<Command>

  ghost predicate Known(timers: Timers, script: Script) {
    forall i :: 0 <= i < |script| ==> script[i].id in timers
  }

  function Run(s: State, script: Script): (r: State)
    requires Known(s.timers, script)
    ensures r.timers.Keys == s.timers.Keys && |r.rows| == |s.rows| && r.now == s.now
    decreases |script|
  {
    if script == [] then s else
      var s1 := Run1(s, script[0]);
      assert forall i :: 0 <= i < |script[1..]| ==> script[1..][i] == script[i + 1];
      Run(s1, script[1..])
  }

  // ---- The check --------------------------------------------------------------------------

  function Bottom(s: State): seq<Id> {
    if s.rows == [] then [] else s.rows[|s.rows| - 1]
  }

  /** Whether the loop of rt_timer_check goes round once more. */
  predicate Fires(s: State) {
    Bottom(s) != [] && Bottom(s)[0] in s.timers && Expired(s.now, s.timers[Bottom(s)[0]].timeout)
  }

  /** Before the callback: the timer moves to the temporary list. */
  function Pull(s: State): State
    requires Fires(s)
  {
    var t := Bottom(s)[0];
    var u := Unlinked(s, t);
    u.(temp := [t], timers := if s.timers[t].periodic then s.timers else s.timers[t := s.timers[t].(active := false)])
  }

  /** After the callback: unless the callback started or stopped the timer itself, it leaves the
      temporary list, and starts again if it is periodic. */
  function Settle(s: State, t: Id): State
    requires t in s.timers
  {
    if s.temp == [] then s
    else
      var u := s.(temp := []);
      if u.timers[t].periodic && u.timers[t].active then
        Start(u.(timers := u.timers[t := u.timers[t].(active := false)]), t)
      else u
  }

  /** One turn of the loop, with the commands its callback gives. */
  function Turn(s: State, script: Script): State
    requires Fires(s) && Known(s.timers, script)
  {
    Settle(Run(Pull(s), script), Bottom(s)[0])
  }
}
