/** The crash-loop gate: what a boot records of the reset behind it and at which level it comes up
    (main/app_main.c, components/app/sys/lt_nvs.c, components/app/supervisor/sup.c). */
module BootGate {
  import opened Prelude

  const CRASH_LOG_LEN: nat := 3
  const CRASH_LOOP_WINDOW_S: nat := 60
  const SAFE_MODE_CLEAR_S: nat := 600

  datatype Reason = Unknown | PowerOn | External | Software | Panic | IntWdt | TaskWdt | OtherWdt | DeepSleep | Brownout | Stall

  predicate Abnormal(r: Reason) { r in {Panic, TaskWdt, IntWdt, OtherWdt, Brownout, Stall} }

  /** A restart asked for, a power cycle, a wake-up and an unknown cause are no crash; all others are. */
  lemma AbnormalIff(r: Reason)
    ensures Abnormal(r) <==> !(r.Unknown? || r.PowerOn? || r.External? || r.Software? || r.DeepSleep?)
  {
  }

  datatype Entry = Entry(reason: Reason, uptime: nat)

  /** An abnormal reset of a boot recorded as having lasted less than the crash window. */
  predicate Short(e: Entry) { Abnormal(e.reason) && e.uptime < CRASH_LOOP_WINDOW_S }

  /** What survives a reset: the NVS cells, and what the uptime cell in RTC memory reads as. `crash` is
      newest first. */
  datatype Cells = Cells(bootCnt: nat, crash: seq<Entry>, safeUntil: nat, safeLevel: nat, stallFlag: bool, uptime: nat)

  const BLANK := Entry(Unknown, 0)
  const FRESH := Cells(0, [BLANK, BLANK, BLANK], 0, 0, false, 0)

  // ---- one boot ----

  /** boot_reset_record: a pipeline-stall restart counts as abnormal whatever the hardware says. */
  function Recorded(c: Cells, hw: Reason): Cells
    requires |c.crash| == CRASH_LOG_LEN
  {
    c.(crash := [Entry(if c.stallFlag then Stall else hw, c.uptime), c.crash[0], c.crash[1]], stallFlag := false)
  }

  predicate IsLoop(crash: seq<Entry>)
    requires |crash| == CRASH_LOG_LEN
  {
    Short(crash[0]) && Short(crash[1]) && Short(crash[2])
  }

  /** boot_safe_mode on the recorded reset: the cells it leaves and the level of this boot. */
  function Gated(c: Cells): (Cells, nat)
    requires |c.crash| == CRASH_LOG_LEN
  {
    var cnt := (c.bootCnt + 1) % TWO_32;
    var inWindow := cnt <= c.safeUntil;
    var n := c.(bootCnt := cnt);
    if IsLoop(c.crash) then
      var level := if inWindow then 2 else 1;
      (n.(safeUntil := (cnt + 1) % TWO_32, safeLevel := level), level)
    else if inWindow then (n, if c.safeLevel == 0 || c.safeLevel > 2 then 1 else c.safeLevel)
    else (n, 0)
  }

  function Booted(c: Cells, hw: Reason): (Cells, nat)
    requires |c.crash| == CRASH_LOG_LEN
  {
    Gated(Recorded(c, hw))
  }

  /** Whatever the cells hold: the level is 0 outside a window without a loop, never above 2; a loop is
      level 1, or 2 inside a window, and opens a window of one more boot; without a loop a window keeps its
      level, and one that makes no sense counts as 1. */
  lemma AnyCellsGate(c: Cells)
    requires |c.crash| == CRASH_LOG_LEN
    ensures var (n, level) := Gated(c);
            var inWindow := n.bootCnt <= c.safeUntil;
            && n.bootCnt == (if c.bootCnt % TWO_32 == TWO_32 - 1 then 0 else c.bootCnt % TWO_32 + 1)
            && (level == 0 <==> !inWindow && !IsLoop(c.crash)) && level <= 2
            && (IsLoop(c.crash) ==> (level == 2 <==> inWindow) && n.safeLevel == level && n.safeUntil == (n.bootCnt + 1) % TWO_32)
            && (!IsLoop(c.crash) ==> n.safeUntil == c.safeUntil && n.safeLevel == c.safeLevel)
            && (!IsLoop(c.crash) && inWindow ==> (level == 2 <==> c.safeLevel == 2))
            && n.crash == c.crash && n.stallFlag == c.stallFlag && n.uptime == c.uptime
  {
  }

  // ---- one life ----

  /** What a boot's life leaves behind: how many seconds it lasted, the reset that ended it, whether the
      supervisor marked it as a stall, the last uptime a supervisor tick stored (none if it died before
      the first tick), whether RTC memory was lost with it (the cell then reads 0), whether the gate was
      cleared and whether that was an operator's doing. */
  datatype Life = Life(lasted: nat, reset: Reason, stalled: bool, ticked: Option<nat>, cellLost: bool,
                       cleared: bool, byHand: bool)

  function Lived(c: Cells, l: Life): Cells {
    var up := if l.cellLost then 0 else if l.ticked.Some? then l.ticked.value else c.uptime;
    var d := c.(uptime := up, stallFlag := c.stallFlag || l.stalled);
    if l.cleared then d.(safeUntil := 0, safeLevel := 0) else d
  }

  /** A tick stores no more than the life has lasted; and the supervisor clears the gate of its own
      accord only in safe or recovery mode, on a tick at SAFE_MODE_CLEAR_S or later. */
  predicate LifeOk(level: nat, l: Life) {
    && (l.ticked.Some? ==> l.ticked.value <= l.lasted)
    && (l.cleared && !l.byHand ==> level >= 1 && l.ticked.Some? && l.ticked.value >= SAFE_MODE_CLEAR_S)
  }

  // ---- runs of boots ----

  /** Cells and level after boot `k` of a device that starts from erased flash; boot 0 has reset
      reason `first`, boot k the reset that ended life k - 1. */
  function At(first: Reason, lives: seq<Life>, k: nat): (r: (Cells, nat))
    requires k <= |lives|
    ensures |r.0.crash| == CRASH_LOG_LEN && !r.0.stallFlag
  {
    if k == 0 then Booted(FRESH, first)
    else Booted(Lived(At(first, lives, k - 1).0, lives[k - 1]), lives[k - 1].reset)
  }

  /** Boot `k` recorded a short, abnormal reset. */
  predicate Bad(first: Reason, lives: seq<Life>, k: nat)
    requires k <= |lives|
  {
    Short(At(first, lives, k).0.crash[0])
  }

  /** Boot `k` finds three bad boots in the log (StreakIsThreeBad: it is the third or a later boot of a
      streak of bad ones). */
  predicate Streak(first: Reason, lives: seq<Life>, k: nat)
    requires k <= |lives|
  {
    IsLoop(At(first, lives, k).0.crash)
  }

  /** The level boot `k` ought to have: a streak that has just reached three is safe mode, one that goes
      on is recovery; the boot after a streak keeps its level; every other boot is normal. Clearing the
      gate in between undoes the memory of the streak. */
  function Expected(first: Reason, lives: seq<Life>, k: nat): nat
    requires k <= |lives|
  {
    var carried := k > 0 && Streak(first, lives, k - 1) && !lives[k - 1].cleared;
    if Streak(first, lives, k) then (if carried then 2 else 1)
    else if carried then Expected(first, lives, k - 1)
    else 0
  }

  /** What holds of the cells and level of boot number `n`, in a streak or not. */
  predicate GateOk(c: Cells, level: nat, n: nat, streak: bool, expected: nat) {
    && c.bootCnt == n
    && c.safeUntil <= n + 1
    && (c.safeUntil == n + 1 <==> streak)
    && (streak ==> c.safeLevel == level && level >= 1)
    && level == expected <= 2
  }

  lemma FirstBoot(first: Reason)
    ensures GateOk(Booted(FRESH, first).0, Booted(FRESH, first).1, 1, false, 0)
  {
  }

  /** One life and the boot behind it. */
  lemma GateStep(c: Cells, level: nat, l: Life, n: nat, streak: bool, expected: nat)
    requires |c.crash| == CRASH_LOG_LEN && n + 2 < TWO_32 && GateOk(c, level, n, streak, expected)
    ensures var (d, now) := Booted(Lived(c, l), l.reset);
            var carried, loop := streak && !l.cleared, IsLoop(d.crash);
            GateOk(d, now, n + 1, loop, if loop then (if carried then 2 else 1) else if carried then expected else 0)
  {
  }

  lemma LogShifts(first: Reason, lives: seq<Life>, k: nat)
    requires 0 < k <= |lives|
    ensures var now, before := At(first, lives, k).0.crash, At(first, lives, k - 1).0.crash;
            now[1] == before[0] && now[2] == before[1]
  {
  }

  lemma StreakIsThreeBad(first: Reason, lives: seq<Life>, k: nat)
    requires k <= |lives|
    ensures Streak(first, lives, k) <==>
              k >= 2 && Bad(first, lives, k) && Bad(first, lives, k - 1) && Bad(first, lives, k - 2)
  {
    if k >= 1 {
      LogShifts(first, lives, k);
    }
    if k >= 2 {
      LogShifts(first, lives, k - 1);
    }
    if k == 1 {
      assert At(first, lives, 0).0.crash[1] == BLANK;
    }
  }

  lemma {:induction false} Invariant(first: Reason, lives: seq<Life>, k: nat)
    requires k <= |lives| < TWO_32 - 2
    ensures GateOk(At(first, lives, k).0, At(first, lives, k).1, k + 1, Streak(first, lives, k), Expected(first, lives, k))
  {
    if k == 0 {
      FirstBoot(first);
    } else {
      hide Booted, Lived, GateOk;
      Invariant(first, lives, k - 1);
      var q := At(first, lives, k - 1);
      GateStep(q.0, q.1, lives[k - 1], k, Streak(first, lives, k - 1), Expected(first, lives, k - 1));
    }
  }

  // ---- the theorems ----

  /** Over any run of boots, each boot comes up at exactly the level the streaks call for. */
  lemma {:induction false} LevelIsExpected(first: Reason, lives: seq<Life>, k: nat)
    requires k <= |lives| < TWO_32 - 2
    ensures At(first, lives, k).1 == Expected(first, lives, k)
  {
    Invariant(first, lives, k);
  }

  /** In plain words. The boot at which a streak reaches three is at level 1; every later boot of the
      streak is at level 2, or at level 1 exactly if the gate was cleared just before. That was then an
      operator, or RTC memory was lost: the supervisor's own clearing takes a life too long to be part of
      a streak as long as its uptime is remembered. */
  lemma {:induction false} StreakEscalates(first: Reason, lives: seq<Life>, k: nat)
    requires 0 < k <= |lives| < TWO_32 - 2 && Streak(first, lives, k)
    requires LifeOk(At(first, lives, k - 1).1, lives[k - 1])
    ensures At(first, lives, k).1 == if Streak(first, lives, k - 1) && !lives[k - 1].cleared then 2 else 1
    ensures lives[k - 1].cleared ==> lives[k - 1].byHand || lives[k - 1].cellLost
  {
    Invariant(first, lives, k);
  }

  /** A boot that is neither in a streak nor right after one is normal; so the level is back to 0 from
      the second boot after a streak ends until a new streak reaches three. */
  lemma {:induction false} BackToNormal(first: Reason, lives: seq<Life>, k: nat)
    requires k <= |lives| < TWO_32 - 2 && !Streak(first, lives, k)
    requires k == 0 || !Streak(first, lives, k - 1) || lives[k - 1].cleared
    ensures At(first, lives, k).1 == 0
  {
    Invariant(first, lives, k);
  }

  // ---- what the record says of a crash ----

  /** The uptime boot `k` reads: that of the latest tick of any earlier life, unless RTC memory was lost
      since. */
  function LastTick(lives: seq<Life>, k: nat): nat
    requires k <= |lives|
  {
    if k == 0 || lives[k - 1].cellLost then 0
    else if lives[k - 1].ticked.Some? then lives[k - 1].ticked.value
    else LastTick(lives, k - 1)
  }

  /** Life `j` ended in an abnormal reset. */
  predicate Crashed(lives: seq<Life>, j: nat)
    requires j < |lives|
  {
    lives[j].stalled || Abnormal(lives[j].reset)
  }

  lemma {:induction false} LogEntry(first: Reason, lives: seq<Life>, k: nat)
    requires 0 < k <= |lives|
    ensures At(first, lives, k - 1).0.uptime == LastTick(lives, k - 1)
    ensures At(first, lives, k).0.crash[0] ==
              Entry(if lives[k - 1].stalled then Stall else lives[k - 1].reset, LastTick(lives, k))
  {
    if k > 1 {
      LogEntry(first, lives, k - 1);
      UptimeKept(Lived(At(first, lives, k - 2).0, lives[k - 2]), lives[k - 2].reset);
    } else {
      UptimeKept(FRESH, first);
    }
  }

  lemma UptimeKept(c: Cells, hw: Reason)
    requires |c.crash| == CRASH_LOG_LEN
    ensures Booted(c, hw).0.uptime == c.uptime
  {
  }

  /** A boot is counted bad exactly if the life before it crashed and the latest tick remembered, of
      whichever life, was below the window. */
  lemma BadIff(first: Reason, lives: seq<Life>, k: nat)
    requires 0 < k <= |lives|
    ensures Bad(first, lives, k) <==> Crashed(lives, k - 1) && LastTick(lives, k) < CRASH_LOOP_WINDOW_S
  {
    LogEntry(first, lives, k);
  }

  /** The first boot of all has no life behind it: it is bad exactly if the hardware says so. */
  lemma FirstBootBadIff(first: Reason, lives: seq<Life>)
    ensures Bad(first, lives, 0) <==> Abnormal(first)
  {
  }

  /** So a crash within the window is missed exactly if that life died before its first tick, RTC memory
      survived, and the latest tick of the lives before it was past the window. */
  lemma CrashIsMissedIff(first: Reason, lives: seq<Life>, k: nat)
    requires 0 < k <= |lives| && Crashed(lives, k - 1) && lives[k - 1].lasted < CRASH_LOOP_WINDOW_S
    requires LifeOk(At(first, lives, k - 1).1, lives[k - 1])
    ensures !Bad(first, lives, k) <==>
              var l := lives[k - 1]; l.ticked.None? && !l.cellLost && LastTick(lives, k - 1) >= CRASH_LOOP_WINDOW_S
  {
    BadIff(first, lives, k);
  }

  /** Any number of such crashes in a row is no streak, and the device never leaves normal mode. */
  lemma {:induction false} EarlyDeathsAreNoStreak(first: Reason, lives: seq<Life>, i: nat, k: nat)
    requires i < k <= |lives| < TWO_32 - 2 && LastTick(lives, i) >= CRASH_LOOP_WINDOW_S
    requires forall j :: i <= j < k ==> lives[j].ticked.None? && !lives[j].cellLost
    ensures !Bad(first, lives, k) && !Streak(first, lives, k) && LastTick(lives, k) == LastTick(lives, i)
    ensures k > i + 1 ==> At(first, lives, k).1 == 0
    decreases k
  {
    if k > i + 1 {
      EarlyDeathsAreNoStreak(first, lives, i, k - 1);
      BackToNormal(first, lives, k);
    }
    BadIff(first, lives, k);
    StreakIsThreeBad(first, lives, k);
  }

  /** A life of 1000 seconds, then three that panic in their first second. */
  const LONG := Life(1000, Software, false, Some(1000), false, false, false)
  const QUICK := Life(0, Panic, false, None, false, false, false)

  /** The run of the device on which three crashes in a row, each within its first second, bring no safe
      mode: every boot is at level 0. */
  lemma ThreeQuickCrashesUnseen()
    ensures var lives := [LONG, QUICK, QUICK, QUICK];
            && (forall j :: 0 <= j < |lives| ==> LifeOk(At(PowerOn, lives, j).1, lives[j]))
            && (forall j :: 1 <= j < 4 ==> Crashed(lives, j) && lives[j].lasted < CRASH_LOOP_WINDOW_S)
            && (forall k :: 0 <= k <= 4 ==> At(PowerOn, lives, k).1 == 0)
  {
    var lives := [LONG, QUICK, QUICK, QUICK];
    FirstBoot(PowerOn);
    hide At, Streak;
    forall k | 0 <= k <= 4 ensures At(PowerOn, lives, k).1 == 0 {
      for j := 0 to k + 1
        invariant forall i :: 0 <= i < j ==> !Streak(PowerOn, lives, i)
      {
        StreakIsThreeBad(PowerOn, lives, j);
        if j > 1 {
          EarlyDeathsAreNoStreak(PowerOn, lives, 1, j);
        }
      }
      BackToNormal(PowerOn, lives, k);
    }
  }

  // ---- in place ----

  class Gate {
    var bootCnt: nat
    const crash: array<Entry>
    var safeUntil: nat
    var safeLevel: nat
    var stallFlag: bool
    var uptime: nat

    ghost function View(): Cells
      reads this, crash
    {
      Cells(bootCnt, crash[..], safeUntil, safeLevel, stallFlag, uptime)
    }

    constructor ()
      ensures fresh(crash) && crash.Length == CRASH_LOG_LEN && View() == FRESH
    {
      bootCnt, safeUntil, safeLevel, stallFlag, uptime := 0, 0, 0, false, 0;
      crash := new Entry[CRASH_LOG_LEN](_ => BLANK);
    }

    method Push(reason: Reason, up: nat)
      requires crash.Length == CRASH_LOG_LEN
      modifies crash
      ensures crash[..] == [Entry(reason, up), old(crash[0]), old(crash[1])]
    {
      crash[2] := crash[1];
      crash[1] := crash[0];
      crash[0] := Entry(reason, up);
    }

    method ResetRecord(hw: Reason)
      requires crash.Length == CRASH_LOG_LEN
      modifies this`stallFlag, crash
      ensures View() == Recorded(old(View()), hw)
    {
      var reason := hw;
      if stallFlag {
        stallFlag := false;
        reason := Stall;
      }
      Push(reason, uptime);
    }

    method CrashLoop() returns (loop: bool)
      requires crash.Length == CRASH_LOG_LEN
      ensures loop == IsLoop(crash[..])
    {
      for i := 0 to crash.Length
        invariant forall j :: 0 <= j < i ==> Short(crash[j])
      {
        if !Abnormal(crash[i].reason) || crash[i].uptime >= CRASH_LOOP_WINDOW_S {
          return false;
        }
      }
      return true;
    }

    method SafeMode() returns (level: nat)
      requires crash.Length == CRASH_LOG_LEN
      modifies this`bootCnt, this`safeUntil, this`safeLevel
      ensures (View(), level) == Gated(old(View()))
    {
      bootCnt := (bootCnt + 1) % TWO_32;
      level := 0;
      var inWindow := bootCnt <= safeUntil;
      var loop := CrashLoop();
      if loop {
        level := if inWindow then 2 else 1;
        safeUntil := (bootCnt + 1) % TWO_32;
        safeLevel := level;
      } else if inWindow {
        level := if safeLevel > 2 then 0 else safeLevel;
        if level == 0 {
          level := 1;
        }
      }
    }

    /** A supervisor tick at `up` seconds: the uptime cell, and the gate cleared once safe or recovery
        mode has lasted long enough. */
    method Tick(up: nat, inSafeMode: bool, alreadyCleared: bool) returns (cleared: bool)
      modifies this`uptime, this`safeUntil, this`safeLevel
      ensures cleared <==> !alreadyCleared && inSafeMode && up >= SAFE_MODE_CLEAR_S
      ensures View() == Lived(old(View()), Life(up, Unknown, false, Some(up), false, cleared, false))
    {
      uptime := up;
      if alreadyCleared || !inSafeMode || up < SAFE_MODE_CLEAR_S {
        return false;
      }
      safeUntil := 0;
      safeLevel := 0;
      return true;
    }

    method Boot(hw: Reason) returns (level: nat)
      requires crash.Length == CRASH_LOG_LEN
      modifies this, crash
      ensures (View(), level) == Booted(old(View()), hw)
    {
      ResetRecord(hw);
      level := SafeMode();
    }
  }
}
