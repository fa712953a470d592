/** Lifecycle of a TI SimpleLink open node (`NodeSimpleLinkBase`).

    The node drives two collaborators: OpenOCD for flashing, reset and the
    debugger, and a serial redirection for the console, and it waits for its
    TTY with `common.wait_no_tty` / `common.wait_tty`. Each collaborator call
    is abstracted by the integer it returns (0 for success), given here in
    `Results`; opening the serial port is abstracted by whether it succeeds.
    Every operation returns an `Outcome`: the calls made, in order, and the
    summed error count.
 */
module SimpleLink {
  import opened Steps
  import opened Options

  const TTY: string := "/dev/iotlab/ttyON_SIMPLELINK"
  const BAUDRATE: nat := 115200
  const OPENOCD_PATH: string := "/opt/ti-openocd-0.10.0/bin/openocd"

  /** The per-board constants. `fwIdle` is set by the concrete board class. */
  datatype Board = Board(tty: string, baudrate: nat, openocdPath: string, fwIdle: string)

  /** A SimpleLink board with the given idle firmware. */
  function SimpleLinkBoard(fwIdle: string): (b: Board)
    ensures b.tty == TTY && b.baudrate == BAUDRATE && b.openocdPath == OPENOCD_PATH
    ensures b.fwIdle == fwIdle
  {
    Board(TTY, BAUDRATE, OPENOCD_PATH, fwIdle)
  }

  /** What each collaborator call returns during one operation. */
  datatype Results = Results(
    waitNoTty: int,
    waitTty: int,
    ocdFlash: int,
    ocdReset: int,
    ocdDebugStart: int,
    ocdDebugStop: int,
    serialOpens: bool,
    serialStart: int,
    serialStop: int)

  /** Every collaborator succeeds. */
  predicate AllSucceed(r: Results) {
    && r.waitNoTty == 0 && r.waitTty == 0
    && r.ocdFlash == 0 && r.ocdReset == 0 && r.ocdDebugStart == 0 && r.ocdDebugStop == 0
    && r.serialOpens && r.serialStart == 0 && r.serialStop == 0
  }

  /** No collaborator reports a negative count. */
  predicate NonNegative(r: Results) {
    && r.waitNoTty >= 0 && r.waitTty >= 0
    && r.ocdFlash >= 0 && r.ocdReset >= 0 && r.ocdDebugStart >= 0 && r.ocdDebugStop >= 0
    && r.serialStart >= 0 && r.serialStop >= 0
  }

  /** `clear_serial`: open the port and flush its input buffer; a port that
      cannot be opened counts as one error instead of raising. */
  function ClearSerialPort(b: Board, opens: bool): (o: Outcome)
    ensures Consistent(o)
    ensures Actions(o.trace) == [Steps.ClearSerial(b.tty, b.baudrate)]
    ensures o.total == 0 <==> opens
    ensures o.total == 1 <==> !opens
  {
    Counted(Steps.ClearSerial(b.tty, b.baudrate), if opens then 0 else 1)
  }

  /** `firmware_path or self.FW_IDLE`: Python treats `None` and the empty
      string as false. */
  function FlashTarget(b: Board, path: Option<string>): (p: string)
    ensures path.None? ==> p == b.fwIdle
    ensures path.Some? && path.value == "" ==> p == b.fwIdle
    ensures path.Some? && path.value != "" ==> p == path.value
  {
    match path
    case None => b.fwIdle
    case Some(s) => if |s| == 0 then b.fwIdle else s
  }

  /** `flash`: OpenOCD flash, then clear the serial port whatever the flash
      returned; both results are added. */
  function Flash(b: Board, r: Results, path: Option<string>): (o: Outcome)
    ensures Consistent(o)
    ensures Actions(o.trace) == [OcdFlash(FlashTarget(b, path)), Steps.ClearSerial(b.tty, b.baudrate)]
    ensures Kept(o.trace) == [true, true]
    ensures o.total == r.ocdFlash + (if r.serialOpens then 0 else 1)
  {
    Then(Counted(OcdFlash(FlashTarget(b, path)), r.ocdFlash),
         ClearSerialPort(b, r.serialOpens))
  }

  /** `setup`: wait for the TTY to vanish and reappear, flash, start the
      serial redirection. The first wait is made but not counted. */
  function Setup(b: Board, r: Results, firmware: Option<string>): (o: Outcome)
    ensures Consistent(o)
    ensures Actions(o.trace)
         == [WaitNoTty(b.tty), WaitTty(b.tty), OcdFlash(FlashTarget(b, firmware)),
             Steps.ClearSerial(b.tty, b.baudrate), SerialStart]
    ensures Kept(o.trace) == [false, true, true, true, true]
    ensures o.total == r.waitTty + r.ocdFlash + (if r.serialOpens then 0 else 1) + r.serialStart
  {
    Then(Discarded(WaitNoTty(b.tty), r.waitNoTty),
    Then(Counted(WaitTty(b.tty), r.waitTty),
    Then(Flash(b, r, firmware),
         Counted(SerialStart, r.serialStart))))
  }

  /** `teardown`: wait for the TTY, stop the debugger, stop the serial
      redirection, flash the idle firmware. The first wait is not counted. */
  function Teardown(b: Board, r: Results): (o: Outcome)
    ensures Consistent(o)
    ensures Actions(o.trace)
         == [WaitNoTty(b.tty), WaitTty(b.tty), OcdDebugStop, SerialStop,
             OcdFlash(b.fwIdle), Steps.ClearSerial(b.tty, b.baudrate)]
    ensures Kept(o.trace) == [false, true, true, true, true, true]
    ensures o.total
         == r.waitTty + r.ocdDebugStop + r.serialStop + r.ocdFlash + (if r.serialOpens then 0 else 1)
  {
    Then(Discarded(WaitNoTty(b.tty), r.waitNoTty),
    Then(Counted(WaitTty(b.tty), r.waitTty),
    Then(DebugStop(r),
    Then(Counted(SerialStop, r.serialStop),
         Flash(b, r, None)))))
  }

  /** `reset`: the OpenOCD reset alone, with no TTY wait. */
  function Reset(r: Results): (o: Outcome)
    ensures Consistent(o)
    ensures Actions(o.trace) == [OcdReset]
    ensures o.total == r.ocdReset
  {
    Counted(OcdReset, r.ocdReset)
  }

  /** `debug_start`: the OpenOCD debugger start alone. */
  function DebugStart(r: Results): (o: Outcome)
    ensures Consistent(o)
    ensures Actions(o.trace) == [OcdDebugStart]
    ensures o.total == r.ocdDebugStart
  {
    Counted(OcdDebugStart, r.ocdDebugStart)
  }

  /** `debug_stop`: the OpenOCD debugger stop alone. */
  function DebugStop(r: Results): (o: Outcome)
    ensures Consistent(o)
    ensures Actions(o.trace) == [OcdDebugStop]
    ensures o.total == r.ocdDebugStop
  {
    Counted(OcdDebugStop, r.ocdDebugStop)
  }

  /** `status`: nothing is probed, since the node may be powered off. */
  function Status(): (o: Outcome)
    ensures Consistent(o)
    ensures o.trace == [] && o.total == 0
  {
    Done()
  }

  /** Which calls an operation makes never depends on what earlier calls
      returned: no operation stops early. */
  lemma NeverAbortsEarly(b: Board, r1: Results, r2: Results, firmware: Option<string>)
    ensures Actions(Setup(b, r1, firmware).trace) == Actions(Setup(b, r2, firmware).trace)
    ensures Actions(Teardown(b, r1).trace) == Actions(Teardown(b, r2).trace)
    ensures Actions(Flash(b, r1, firmware).trace) == Actions(Flash(b, r2, firmware).trace)
  {
  }

  /** The result of the first `wait_no_tty` never changes what setup or
      teardown return. */
  lemma WaitNoTtyIgnored(b: Board, r: Results, firmware: Option<string>, w: int)
    ensures Setup(b, r.(waitNoTty := w), firmware).total == Setup(b, r, firmware).total
    ensures Teardown(b, r.(waitNoTty := w)).total == Teardown(b, r).total
  {
  }

  /** Teardown stops the debugger before the serial redirection, and both
      before flashing the idle firmware. */
  lemma TeardownOrder(b: Board, r: Results)
    ensures CalledBefore(Teardown(b, r).trace, OcdDebugStop, SerialStop)
    ensures CalledBefore(Teardown(b, r).trace, SerialStop, OcdFlash(b.fwIdle))
    ensures CalledBefore(Teardown(b, r).trace, OcdDebugStop, OcdFlash(b.fwIdle))
  {
    var t := Teardown(b, r).trace;
    ActionAt(t, 2);
    ActionAt(t, 3);
    ActionAt(t, 4);
    assert t[2].action == OcdDebugStop && t[3].action == SerialStop && t[4].action == OcdFlash(b.fwIdle);
  }

  /** Setup waits for the TTY before flashing and flashes before starting
      the serial redirection. */
  lemma SetupOrder(b: Board, r: Results, firmware: Option<string>)
    ensures CalledBefore(Setup(b, r, firmware).trace, WaitNoTty(b.tty), WaitTty(b.tty))
    ensures CalledBefore(Setup(b, r, firmware).trace, WaitTty(b.tty), OcdFlash(FlashTarget(b, firmware)))
    ensures CalledBefore(Setup(b, r, firmware).trace, OcdFlash(FlashTarget(b, firmware)), SerialStart)
  {
    var t := Setup(b, r, firmware).trace;
    ActionAt(t, 0);
    ActionAt(t, 1);
    ActionAt(t, 2);
    ActionAt(t, 4);
    assert t[0].action == WaitNoTty(b.tty) && t[1].action == WaitTty(b.tty);
    assert t[2].action == OcdFlash(FlashTarget(b, firmware)) && t[4].action == SerialStart;
  }

  /** With every collaborator succeeding, every operation returns 0. */
  lemma AllSucceedGivesZero(b: Board, r: Results, firmware: Option<string>)
    requires AllSucceed(r)
    ensures Setup(b, r, firmware).total == 0
    ensures Teardown(b, r).total == 0
    ensures Flash(b, r, firmware).total == 0
    ensures Reset(r).total == 0 && DebugStart(r).total == 0 && DebugStop(r).total == 0
  {
  }

  /** With non-negative collaborator results every count is non-negative
      (teardown included, whether or not setup ran), and a TTY that never
      reappears makes setup and teardown report an error. */
  lemma CountsNonNegative(b: Board, r: Results, firmware: Option<string>)
    requires NonNegative(r)
    ensures Setup(b, r, firmware).total >= 0
    ensures Teardown(b, r).total >= 0
    ensures r.waitTty > 0 ==> Setup(b, r, firmware).total > 0 && Teardown(b, r).total > 0
    ensures !r.serialOpens ==> Flash(b, r, firmware).total > 0
  {
  }

  /** Setup flashes the idle firmware when given no firmware or an empty
      path; teardown always flashes the idle firmware. */
  lemma IdleFirmwareDefault(b: Board, r: Results)
    ensures OcdFlash(b.fwIdle) in Actions(Setup(b, r, None).trace)
    ensures OcdFlash(b.fwIdle) in Actions(Setup(b, r, Some("")).trace)
    ensures OcdFlash(b.fwIdle) in Actions(Teardown(b, r).trace)
  {
  }
}
