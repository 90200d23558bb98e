/** OTA across power cuts and reboots: components/app/ota/ota.c's persistent writes,
    components/app/supervisor/sup.c's boot decision and validation, and the bootloader's rollback.
    A reset may come between any two persistent writes. */
module OtaCrash {
  import opened Prelude
  import opened Ota

  datatype SlotId = A | B
  datatype Img = New | PendingVerify | Valid | Invalid | Undefined

  function Other(s: SlotId): SlotId { if s == A then B else A }

  /** One application slot: its state in the boot record, and the bytes in it. */
  datatype Slot = Slot(img: Img, image: seq<Byte>)

  /** An image this unit may boot: it names the unit's hardware and project and its signature is good. */
  predicate Genuine(b: Board, image: seq<Byte>) { TargetMatches(b, image) && b.signed(image) }

  lemma GenuineIff(b: Board, image: seq<Byte>)
    ensures Genuine(b, image) <==>
              b.signed(image) && |image| >= 4096 && b.sameProject(image[0x20..0x120]) && image[0x120..0x138] == b.hwid
  {
    TargetMatchesIff(b, image);
  }

  /** What survives a reset. */
  datatype Disk = Disk(flag: bool, boot: SlotId, a: Slot, b: Slot)
  {
    function At(s: SlotId): Slot { if s == A then a else b }
    function Put(s: SlotId, v: Slot): Disk { if s == A then this.(a := v) else this.(b := v) }
  }

  datatype Push = NoPush | Filling | Checked | Flagged | Applied

  /** A boot in progress. `marked` is the window of ota_try_validate between marking the image and
      clearing the flag; `clearFailed` records a flag clear that did not reach flash. */
  datatype Unit = Unit(
    disk: Disk, running: SlotId,
    ticked: bool, awaiting: bool, marked: bool, push: Push, clearFailed: bool)

  datatype Event =
    | Reset
    | FirstTick(clearOk: bool)
    | ClearStale(clearOk: bool)
    | EraseTarget
    | Fill(data: seq<Byte>)
    | GiveUp(clearOk: bool)
    | PassChecks(size: nat, sha: seq<Byte>)
    | PersistFlag
    | SwitchBoot
    | MarkValid
    | ClearAfterMark(clearOk: bool)

  predicate OnTrial(u: Unit) { u.disk.At(u.running).img == PendingVerify }

  /** The bootloader: a new image gets one trial; a trial that was not confirmed is rolled back. */
  function Bootloader(d: Disk): (Disk, SlotId)
  {
    var s := d.At(d.boot);
    match s.img
    case New => (d.Put(d.boot, s.(img := PendingVerify)), d.boot)
    case PendingVerify => (d.Put(d.boot, s.(img := Invalid)).(boot := Other(d.boot)), Other(d.boot))
    case _ => (d, d.boot)
  }

  function ClearFlagU(u: Unit, ok: bool): Unit {
    if ok then u.(disk := u.disk.(flag := false)) else u.(clearFailed := true)
  }

  /** When each event can come. The checks pass only on the very bytes in the target slot: the declared
      size, the announced hash, this unit's hardware and project, a good signature. */
  predicate Enabled(u: Unit, e: Event, b: Board)
  {
    match e
    case Reset => true
    case FirstTick(_) => !u.ticked
    case ClearStale(_) => u.push == NoPush && !OnTrial(u)
    case EraseTarget => u.push == NoPush && !OnTrial(u)
    case Fill(_) => u.push == Filling
    case GiveUp(_) => u.push == Filling || u.push == Checked || u.push == Flagged
    case PassChecks(size, sha) =>
      var image := u.disk.At(Other(u.running)).image;
      u.push == Filling && |image| == size && b.sha256(image) == sha && Genuine(b, image)
    case PersistFlag => u.push == Checked
    case SwitchBoot => u.push == Flagged
    case MarkValid => u.awaiting && !u.marked
    case ClearAfterMark(_) => u.marked
  }

  function Next(u: Unit, e: Event, b: Board): Unit
    requires Enabled(u, e, b)
  {
    var d, r, o := u.disk, u.running, Other(u.running);
    match e
    case Reset => var (d', r') := Bootloader(d); Unit(d', r', false, false, false, NoPush, false)
    case FirstTick(ok) =>
      if OnTrial(u) then u.(ticked := true, awaiting := true)
      else if !d.flag then u.(ticked := true)
      else ClearFlagU(u, ok).(ticked := true)
    case ClearStale(ok) => ClearFlagU(u, ok)
    case EraseTarget => u.(push := Filling, disk := d.Put(o, d.At(o).(image := [])))
    case Fill(data) => u.(disk := d.Put(o, d.At(o).(image := d.At(o).image + data)))
    case GiveUp(ok) => (if u.push == Flagged then ClearFlagU(u, ok) else u).(push := NoPush)
    case PassChecks(_, _) => u.(push := Checked)
    case PersistFlag => u.(push := Flagged, disk := d.(flag := true))
    case SwitchBoot => u.(push := Applied, disk := d.Put(o, d.At(o).(img := New)).(boot := o))
    case MarkValid => u.(marked := true, disk := d.Put(r, d.At(r).(img := Valid)))
    case ClearAfterMark(ok) => ClearFlagU(u, ok).(marked := false, awaiting := false)
  }

  /** The state after a sequence of events, as long as each was possible when it came. */
  function After(u: Unit, es: seq<Event>, b: Board): Option<Unit>
    decreases |es|
  {
    if es == [] then Some(u)
    else if Enabled(u, es[0], b) then After(Next(u, es[0], b), es[1..], b)
    else None
  }

  lemma {:induction false} AfterConcat(u: Unit, xs: seq<Event>, ys: seq<Event>, b: Board)
    requires After(u, xs, b).Some?
    ensures After(u, xs + ys, b) == After(After(u, xs, b).value, ys, b)
    decreases |xs|
  {
    if xs == [] {
      assert xs + ys == ys;
    } else {
      assert (xs + ys)[1..] == xs[1..] + ys;
      AfterConcat(Next(u, xs[0], b), xs[1..], ys, b);
    }
  }

  /** A unit as it leaves the factory and boots: slot A holds the image it runs. */
  predicate Factory(u: Unit, b: Board)
  {
    && u == Unit(u.disk, A, false, false, false, NoPush, false)
    && !u.disk.flag && u.disk.boot == A && Genuine(b, u.disk.a.image)
    && Settled(u.disk.a.img) && u.disk.b.img != PendingVerify
  }

  predicate Settled(i: Img) { i == Valid || i == Undefined }

  /** Such as one with any image of its own in slot A, the other slot empty. */
  lemma LeavesTheFactory(b: Board, image: seq<Byte>)
    requires Genuine(b, image)
    ensures var d := Disk(false, A, Slot(Undefined, image), Slot(Undefined, []));
            Factory(Unit(d, A, false, false, false, NoPush, false), b)
  {
  }

  predicate Inv(u: Unit, b: Board)
  {
    var d, r, o := u.disk, u.running, Other(u.running);
    && Genuine(b, d.At(d.boot).image) && Genuine(b, d.At(r).image)
    && (d.boot != r ==> u.push == Applied && d.At(o).img == New)
    && (u.push == Applied ==> d.boot == o)
    && (u.push != NoPush ==> !OnTrial(u))
    && (u.push == Checked || u.push == Flagged ==> Genuine(b, d.At(o).image))
    && (OnTrial(u) ==> Genuine(b, d.At(o).image) && Settled(d.At(o).img) && !u.marked)
    && (Settled(d.At(r).img) || OnTrial(u))
    && (u.marked ==> u.awaiting && !OnTrial(u)) && (u.awaiting && !u.marked ==> OnTrial(u)) && (u.awaiting ==> u.ticked)
    && (u.ticked && d.flag ==> OnTrial(u) || u.marked || u.push == Flagged || u.push == Applied || u.clearFailed)
    && (u.ticked && OnTrial(u) ==> u.awaiting)
    && (u.clearFailed ==> !OnTrial(u))
  }

  lemma StepKeepsInv(u: Unit, e: Event, b: Board)
    requires Inv(u, b) && Enabled(u, e, b)
    ensures Inv(Next(u, e, b), b)
  {
    hide Genuine;
  }

  lemma {:induction false} HistoryKeepsInv(u: Unit, es: seq<Event>, b: Board)
    requires Inv(u, b) && After(u, es, b).Some?
    ensures Inv(After(u, es, b).value, b)
    decreases |es|
  {
    if es != [] {
      StepKeepsInv(u, es[0], b);
      HistoryKeepsInv(Next(u, es[0], b), es[1..], b);
    }
  }

  // ---- what it means, for every history of events and resets ----

  /** Neither the slot that would boot next nor the one running ever holds bytes other than those of a
      signed image for this very unit, wherever power is cut. */
  lemma {:induction false} NeverBootsUnverified(u: Unit, es: seq<Event>, b: Board)
    requires Factory(u, b) && After(u, es, b).Some?
    ensures var v := After(u, es, b).value;
            Genuine(b, v.disk.At(v.disk.boot).image) && Genuine(b, v.disk.At(v.running).image)
    ensures var n := Next(After(u, es, b).value, Reset, b); Genuine(b, n.disk.At(n.running).image)
  {
    HistoryKeepsInv(u, es, b);
    StepKeepsInv(After(u, es, b).value, Reset, b);
  }

  /** Once the first supervisor tick of a boot has passed, a set flag means a running image on trial,
      except exactly in three windows: between confirming the image and clearing its flag, between
      persisting the flag of a new push and the reboot, and after a clear that did not reach flash. */
  lemma {:induction false} FlagMeansTrialIff(u: Unit, es: seq<Event>, b: Board)
    requires Factory(u, b) && After(u, es, b).Some?
    requires var v := After(u, es, b).value; v.ticked && v.disk.flag
    ensures var v := After(u, es, b).value;
            OnTrial(v) <==> !v.marked && v.push !in {Flagged, Applied} && !v.clearFailed
  {
    HistoryKeepsInv(u, es, b);
  }

  /** The first tick itself, whether or not its clear reaches flash: the flag is set after it exactly if
      it was set and either the image is on trial or the clear failed; and then a trial is awaited. */
  lemma {:induction false} FirstTickSettlesTheFlag(u: Unit, es: seq<Event>, b: Board, clearOk: bool)
    requires Factory(u, b) && After(u, es, b).Some? && !After(u, es, b).value.ticked
    ensures var v := After(u, es, b).value;
            var t := Next(v, FirstTick(clearOk), b);
            && (t.disk.flag <==> v.disk.flag && (OnTrial(t) || !clearOk))
            && t.ticked && (t.awaiting <==> OnTrial(t))
            && (t.disk.flag && !OnTrial(t) ==> t.clearFailed)
  {
    HistoryKeepsInv(u, es, b);
  }

  /** The commit window is real: from any factory state, and any image that passes, the flag is set and
      nothing is on trial between its being persisted and the switch. */
  lemma FlagWithoutTrial(u: Unit, b: Board, image: seq<Byte>)
    requires Factory(u, b) && Genuine(b, image)
    ensures var es := [FirstTick(true), EraseTarget, Fill(image), PassChecks(|image|, b.sha256(image)), PersistFlag];
            && After(u, es, b).Some?
            && var v := After(u, es, b).value; v.ticked && v.disk.flag && !OnTrial(v) && v.push == Flagged
  {
    var u1 := Next(u, FirstTick(true), b);
    var u2 := Next(u1, EraseTarget, b);
    var u3 := Next(u2, Fill(image), b);
    assert u3.disk.At(Other(u3.running)).image == [] + image == image;
    var u4 := Next(u3, PassChecks(|image|, b.sha256(image)), b);
    var es3 := [PassChecks(|image|, b.sha256(image)), PersistFlag];
    assert es3[1..] == [PersistFlag] && [PersistFlag][1..] == [];
    assert After(u4, [PersistFlag], b) == After(Next(u4, PersistFlag, b), [], b);
    assert After(u3, es3, b) == After(u4, [PersistFlag], b);
    var es2 := [Fill(image)] + es3;
    assert es2[1..] == es3 && After(u2, es2, b) == After(u3, es3, b);
    var es1 := [EraseTarget] + es2;
    assert es1[1..] == es2 && After(u1, es1, b) == After(u2, es2, b);
    var es := [FirstTick(true)] + es1;
    assert es[1..] == es1 && After(u, es, b) == After(u1, es1, b);
    assert es == [FirstTick(true), EraseTarget, Fill(image), PassChecks(|image|, b.sha256(image)), PersistFlag];
  }

  /** An applied image boots once on trial; a second reset before it is confirmed brings back the
      image that was running when it was applied, and that one is not on trial. */
  lemma {:induction false} OneTrialThenRollback(u: Unit, es: seq<Event>, b: Board)
    requires Factory(u, b) && After(u, es, b).Some? && After(u, es, b).value.push == Applied
    ensures var v := After(u, es, b).value; var trial := Next(v, Reset, b); var back := Next(trial, Reset, b);
            && trial.running == Other(v.running) && OnTrial(trial)
            && back.running == v.running && Settled(back.disk.At(back.running).img)
            && back.disk.At(trial.running).img == Invalid && back.disk.flag == v.disk.flag
  {
    HistoryKeepsInv(u, es, b);
    var v := After(u, es, b).value;
    StepKeepsInv(v, Reset, b);
    StepKeepsInv(Next(v, Reset, b), Reset, b);
  }

  /** Once confirmed, an image stays: whether or not the flag behind it could be cleared, every further reset
      without a new push boots the same slot, settled and no more on trial. */
  lemma {:induction false} ConfirmedImageStays(u: Unit, es: seq<Event>, b: Board, clearOk: bool)
    requires Factory(u, b) && After(u, es, b).Some?
    requires After(u, es, b).value.awaiting && !After(u, es, b).value.marked
    ensures var v := After(u, es, b).value;
            var marked := Next(v, MarkValid, b);
            var r := Next(marked, Reset, b);
            var r' := Next(Next(marked, ClearAfterMark(clearOk), b), Reset, b);
            && r.running == v.running && r.disk == marked.disk && Settled(r.disk.At(r.running).img)
            && r'.running == v.running && Settled(r'.disk.At(r'.running).img) && r'.disk.flag == (v.disk.flag && !clearOk)
            && Next(r, Reset, b) == r
  {
    HistoryKeepsInv(u, es, b);
    StepKeepsInv(After(u, es, b).value, MarkValid, b);
  }

  // ---- sup.c's once-per-tick half, in the source's own form ----

  class Supervisor {
    const board: Board
    var bootChecked: bool
    var awaiting: bool
    var disk: Disk
    var running: SlotId
    ghost var push: Push
    ghost var clearFailed: bool

    ghost function View(): Unit
      reads this
    {
      Unit(disk, running, bootChecked, awaiting, false, push, clearFailed)
    }

    constructor (b: Board, d: Disk, r: SlotId)
      ensures board == b && View() == Unit(d, r, false, false, false, NoPush, false)
    {
      board, disk, running := b, d, r;
      bootChecked, awaiting, push, clearFailed := false, false, NoPush, false;
    }

    method ClearFlag(ok: bool)
      modifies this`disk, this`clearFailed
      ensures View() == ClearFlagU(old(View()), ok)
    {
      if ok {
        disk := disk.(flag := false);
      } else {
        clearFailed := true;
      }
    }

    /** The once-per-boot decision of ota_lifecycle with ota_boot_decide's body. */
    method BootDecide(clearOk: bool)
      modifies this
      ensures View() == if old(bootChecked) then old(View()) else Next(old(View()), FirstTick(clearOk), board)
    {
      if bootChecked {
        return;
      }
      bootChecked := true;
      if disk.At(running).img == PendingVerify {
        awaiting := true;
        return;
      }
      if !disk.flag {
        return;
      }
      ClearFlag(clearOk);
    }

    /** ota_try_validate: `healthy` is the health gate, `markOk` and `clearOk` the two writes. */
    method TryValidate(healthy: bool, markOk: bool, clearOk: bool)
      modifies this
      ensures View() == if old(awaiting) && healthy && markOk
                        then Next(Next(old(View()), MarkValid, board), ClearAfterMark(clearOk), board)
                        else old(View())
    {
      if !awaiting || !healthy || !markOk {
        return;
      }
      disk := disk.Put(running, disk.At(running).(img := Valid));
      ClearFlag(clearOk);
      awaiting := false;
    }
  }
}
