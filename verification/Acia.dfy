/** The 6551 and its transmitter protocol (core/vice-3.3/src/aciacore.c). The scheduler appears as
    the map it refines, cut down to the two alarms of the chip: each pending or not, and when. */
module Acia {
  import opened Primitives
  import Alarm

  const TRANSMIT_DR_EMPTY: bv8 := 0x10
  const RECEIVE_DR_FULL: bv8 := 0x08
  const OVERRUN_ERROR: bv8 := 0x04
  const MODEM_LINES: bv8 := 0x60
  const IRQ: bv8 := 0x80
  const DTR: bv8 := 0x01
  const IRQ_DISABLED: bv8 := 0x02
  const TRANSMITTER_MASK: bv8 := 0x0c
  const TX_WITH_IRQ: bv8 := 0x04
  const PARITY_BITS: bv8 := 0xe0
  const BPS_MASK: bv8 := 0x0f

  /** The transmit state counts down from DrWritten. */
  datatype TxState = NoTransmit | TxStarted | DrWritten
  {
    function Down(): TxState {
      if DrWritten? then TxStarted else NoTransmit
    }
  }

  datatype Register = Dr | Sr | Cmd | Ctrl | Undefined | Ectrl

  datatype Timer = Off | On(clk: nat)

  /** A byte handed to the serial driver: when, and the character time in force at that moment. */
  datatype Sent = Sent(byte: Byte, at: int, ticks: nat)

  function Bytes(sent: seq<Sent>): (s: seq<Byte>) {
    seq(|sent|, i requires 0 <= i < |sent| => sent[i].byte)
  }

  /** No byte leaves before the one in front of it has had its time on the line. */
  ghost predicate Spaced(sent: seq<Sent>) {
    forall i :: 0 < i < |sent| ==> sent[i - 1].at + sent[i - 1].ticks <= sent[i].at
  }

  /** The status with TDRE clear. */
  function Cleared(status: bv8): (s: bv8)
    ensures s == status & !TRANSMIT_DR_EMPTY && s & TRANSMIT_DR_EMPTY == 0
  {
    status & !TRANSMIT_DR_EMPTY
  }

  class Acia {
    var txTimer: Timer
    var rxTimer: Timer
    var ticks: nat
    var ticksRx: nat
    var open: bool
    var inTx: TxState
    var irq: bool
    var interrupt: bool
    var cmd: bv8
    var ctrl: bv8
    var ectrl: bv8
    var status: bv8
    var rxdata: Byte
    var txdata: Byte
    var alarmActiveTx: bool
    var alarmActiveRx: bool
    var alarmClkTx: Alarm.Clock
    var alarmClkRx: Alarm.Clock
    var rts: bool
    var dtr: bool
    /** what the serial driver has been given */
    var sent: seq<Sent>

    /** The transmit flag and clock the chip keeps agree with the scheduler, and the clock is not the sentinel. */
    predicate TxTimed()
      reads this`alarmActiveTx, this`txTimer, this`alarmClkTx
    {
      txTimer == (if alarmActiveTx then On(alarmClkTx) else Off) && (alarmActiveTx ==> alarmClkTx < Alarm.NEVER)
    }

    predicate RxTimed()
      reads this`alarmActiveRx, this`rxTimer, this`alarmClkRx
    {
      rxTimer == (if alarmActiveRx then On(alarmClkRx) else Off) && (alarmActiveRx ==> alarmClkRx < Alarm.NEVER)
    }

    predicate Valid()
      reads this
    {
      TxTimed() && RxTimed() && ticks > 0 && ticksRx > 0 && status & IRQ == 0
    }

    predicate Protocol(now: int)
      reads this
    {
      State().Kept(now)
    }

    /** Line ready for a regular dialogue: DTR on, the device open, the protocol kept. */
    predicate Ready(now: int)
      reads this
    {
      Valid() && cmd & DTR != 0 && open && Protocol(now)
    }

    /** The bytes on their way: those sent and the one still waiting. */
    function Traffic(): seq<Byte>
      reads this
    {
      State().Traffic()
    }

    /** The transmitter as a value. */
    function State(): Line
      reads this
    {
      Line(sent, txdata, inTx, txTimer, status & TRANSMIT_DR_EMPTY != 0, ticks, alarmActiveRx)
    }

    /** The receiver and the interrupt request. */
    function Listening(): Port
      reads this
    {
      Port(cmd, ticksRx, rxTimer, irq)
    }

    /** After initialisation and a hardware reset: line closed, transmitter idle, TDRE set. */
    constructor (ticks: nat, ticksRx: nat)
      requires ticks > 0 && ticksRx > 0
      ensures Valid() && !open && inTx.NoTransmit? && sent == [] && status == TRANSMIT_DR_EMPTY && cmd == 0
      ensures txTimer == Off && rxTimer == Off && this.ticks == ticks && this.ticksRx == ticksRx && Protocol(0)
    {
      txTimer, rxTimer, this.ticks, this.ticksRx := Off, Off, ticks, ticksRx;
      open, inTx, irq, interrupt, cmd, ctrl, ectrl, status := false, NoTransmit, false, false, 0, 0, 0,
        TRANSMIT_DR_EMPTY;
      rxdata, txdata, alarmActiveTx, alarmActiveRx, alarmClkTx, alarmClkRx := 0, 0, false, false, 0, 0;
      rts, dtr, sent := false, false, [];
    }

    /** New character times, worked out from the control registers; a running reception is timed afresh. */
    method SetTicks(clk: Alarm.Clock, newTicks: nat)
      requires newTicks > 0 && clk + newTicks * 5 / 4 < Alarm.NEVER
      modifies this`ticks, this`ticksRx, this`alarmClkRx, this`rxTimer
      ensures ticks == newTicks && ticksRx == newTicks * 5 / 4 > 0
      ensures State() == old(State()).(ticks := newTicks) && (old(Ready(clk)) ==> Ready(clk))
      ensures if alarmActiveRx then rxTimer == On(alarmClkRx) && alarmClkRx == clk + ticksRx
              else rxTimer == old(rxTimer) && alarmClkRx == old(alarmClkRx)
    {
      ticks := newTicks;
      ticksRx := newTicks * 5 / 4;
      if alarmActiveRx {
        alarmClkRx := clk + ticksRx;
        rxTimer := On(alarmClkRx);
      }
    }

    /** RTS and DTR follow the command register; RTS also switches reception on and off. */
    method SetHandshakeLines(clk: Alarm.Clock, newTicks: nat)
      requires RxTimed() && ticks > 0 && ticksRx > 0 && newTicks > 0 && clk + newTicks * 5 / 4 < Alarm.NEVER
      modifies this`rts, this`dtr, this`alarmActiveRx, this`ticks, this`ticksRx, this`alarmClkRx, this`rxTimer
      ensures RxTimed() && dtr == (cmd & DTR != 0) && rts == (cmd & TRANSMITTER_MASK != 0) && alarmActiveRx == rts
      ensures (ticks == old(ticks) && ticksRx == old(ticksRx)) || (ticks == newTicks && ticksRx == newTicks * 5 / 4)
      ensures old(alarmActiveRx) == rts ==> ticks == old(ticks) && rxTimer == old(rxTimer)
      ensures !rts ==> ticks == old(ticks) && ticksRx == old(ticksRx)
      ensures !old(alarmActiveRx) && rts ==>
                ticks == newTicks && ticksRx == newTicks * 5 / 4 && rxTimer == On(clk + newTicks * 5 / 4)
      ensures old(alarmActiveRx) == rts ==> ticksRx == old(ticksRx)
    {
      if cmd & TRANSMITTER_MASK == 0 {
        rts := false;
        if alarmActiveRx {
          alarmActiveRx := false;
          rxTimer := Off;
        }
      } else {
        rts := true;
        if !alarmActiveRx {
          alarmActiveRx := true;
          SetTicks(clk, newTicks);
        }
      }
      dtr := cmd & DTR != 0;
    }

    // ----- register writes

    /** A byte written replaces one still waiting, so nothing is lost exactly when nothing waits,
        which on a ready line is what TDRE says. */
    lemma NothingLostExactly(byte: Byte, now: int)
      requires Ready(now)
      ensures Bytes(sent) + [byte] == Traffic() + [byte] <==> status & TRANSMIT_DR_EMPTY != 0
    {
      if inTx.DrWritten? {
        assert |Bytes(sent) + [byte]| < |Traffic() + [byte]|;
      } else {
        assert Traffic() == Bytes(sent);
      }
    }

    /** Starts the transmit alarm unless it runs already. */
    method StartTransmitter(clk: Alarm.Clock)
      requires TxTimed() && clk + 1 < Alarm.NEVER
      modifies this`alarmClkTx, this`txTimer, this`alarmActiveTx
      ensures TxTimed() && txTimer == if old(alarmActiveTx) then old(txTimer) else On(clk + 1)
    {
      if !alarmActiveTx {
        alarmClkTx := clk + 1;
        txTimer := On(alarmClkTx);
        alarmActiveTx := true;
      }
    }

    /** The new byte takes the place of one that still waits. */
    method WriteData(byte: Byte, clk: Alarm.Clock)
      requires Valid() && clk + 1 < Alarm.NEVER
      modifies this`txdata, this`inTx, this`alarmClkTx, this`txTimer, this`alarmActiveTx, this`status
      ensures Valid() && txdata == byte
      ensures cmd & DTR != 0 ==>
              inTx == DrWritten && status == old(status) & !TRANSMIT_DR_EMPTY && Traffic() == Bytes(sent) + [byte]
      ensures cmd & DTR != 0 ==> txTimer == if old(alarmActiveTx) then old(txTimer) else On(clk + 1)
      ensures cmd & DTR != 0 ==> State() == Next(old(State()), DataWritten(byte), clk)
      ensures cmd & DTR == 0 ==> inTx == old(inTx) && status == old(status) && txTimer == old(txTimer)
      ensures old(Ready(clk)) ==> Ready(clk)
    {
      hide Bytes, Line.Kept, Next, Line.Traffic;
      txdata := byte;
      if cmd & DTR != 0 {
        AcceptData(byte, clk);
        NextFacts(old(State()), byte, clk);
      }
    }

    method AcceptData(byte: Byte, clk: Alarm.Clock)
      requires Valid() && clk + 1 < Alarm.NEVER && txdata == byte
      modifies this`inTx, this`alarmClkTx, this`txTimer, this`alarmActiveTx, this`status
      ensures Valid() && inTx == DrWritten && status == old(status) & !TRANSMIT_DR_EMPTY
      ensures State() == Next(old(State()), DataWritten(byte), clk)
    {
      hide Bytes, Line.Kept, Cleared;
      inTx := DrWritten;
      StartTransmitter(clk);
      status := Cleared(status);
    }

    /** The transmitter goes idle and the command register keeps its parity bits alone. */
    method CloseLine()
      modifies this`open, this`status, this`cmd, this`inTx, this`interrupt, this`irq, this`txTimer, this`alarmActiveTx
      ensures !open && inTx.NoTransmit? && !irq && !interrupt && txTimer == Off && !alarmActiveTx
      ensures cmd == old(cmd) & PARITY_BITS && cmd & TRANSMITTER_MASK == 0 && cmd & DTR == 0
      ensures status == old(status) & !OVERRUN_ERROR && status & TRANSMIT_DR_EMPTY == old(status) & TRANSMIT_DR_EMPTY
    {
      open := false;
      status := status & !OVERRUN_ERROR;
      cmd := cmd & PARITY_BITS;
      inTx := NoTransmit;
      interrupt, irq := false, false;
      txTimer := Off;
      alarmActiveTx := false;
    }

    /** Writing the status register resets the chip: the line is closed and a waiting byte forgotten. TDRE
        is left as it was, so the protocol survives exactly when no byte waited and the last one had left. */
    method ProgrammedReset(clk: Alarm.Clock, newTicks: nat)
      requires Valid() && newTicks > 0 && clk + newTicks * 5 / 4 < Alarm.NEVER
      modifies this
      ensures Valid() && !open && inTx.NoTransmit? && !irq && !interrupt && txTimer == Off &&
              rxTimer == Off && !dtr && !rts
      ensures cmd == old(cmd) & PARITY_BITS && status == old(status) & !OVERRUN_ERROR && sent == old(sent) &&
              Traffic() == Bytes(sent)
      ensures ticks == old(ticks) && ticksRx == old(ticksRx)
      ensures Protocol(clk) <==> old(status) & TRANSMIT_DR_EMPTY != 0 && LineClear(sent, clk)
    {
      hide Bytes, Line.Kept;
      CloseLine();
      SetHandshakeLines(clk, newTicks);
      ResetKept(State(), clk);
    }

    /** The command register: DTR opens and closes the line. `opens` is whether the driver manages to.
        Dropping DTR on an open line stops the transmit alarm, so the protocol survives that exactly when
        nothing was being sent. */
    method WriteCommand(byte: bv8, clk: Alarm.Clock, newTicks: nat, opens: bool)
      requires Valid() && newTicks > 0 && clk + newTicks * 5 / 4 < Alarm.NEVER
      modifies this`cmd, this`open, this`rts, this`dtr, this`alarmActiveRx, this`ticks, this`ticksRx,
        this`alarmClkRx, this`rxTimer,
               this`txTimer, this`alarmActiveTx
      ensures Valid() && cmd == byte
      ensures (ticks == old(ticks) && ticksRx == old(ticksRx)) || (ticks == newTicks && ticksRx == newTicks * 5 / 4)
      ensures open == (byte & DTR != 0 && (old(open) || opens))
      ensures old(open) && byte & DTR == 0 ==> txTimer == Off
      ensures !(old(open) && byte & DTR == 0) ==> txTimer == old(txTimer)
      ensures old(open) && byte & DTR != 0 ==>
                && alarmActiveRx == (byte & TRANSMITTER_MASK != 0)
                && ticks == (if !old(alarmActiveRx) && alarmActiveRx then newTicks else old(ticks))
                && ticksRx == (if !old(alarmActiveRx) && alarmActiveRx then newTicks * 5 / 4 else old(ticksRx))
                && rxTimer == (if !alarmActiveRx then Off
                               else if old(alarmActiveRx) then old(rxTimer) else On(clk + newTicks * 5 / 4))
      ensures old(Protocol(clk)) ==> (Protocol(clk) <==> !(old(open) && byte & DTR == 0) || inTx.NoTransmit?)
      ensures old(Protocol(clk)) && byte & DTR != 0 && open ==> Ready(clk)
      ensures old(Ready(clk)) && byte & DTR != 0 ==> Ready(clk)
    {
      hide Line.Kept;
      ghost var line, was := State(), open;
      cmd := byte;
      SetHandshakeLines(clk, newTicks);
      OpenOrClose(clk, newTicks, opens);
      CommandKept(line, State(), was && byte & DTR == 0, clk);
    }

    /** The device follows DTR. */
    method OpenOrClose(clk: Alarm.Clock, newTicks: nat, opens: bool)
      requires Valid() && newTicks > 0 && clk + newTicks * 5 / 4 < Alarm.NEVER
      modifies this`open, this`alarmActiveRx, this`ticks, this`ticksRx, this`alarmClkRx, this`rxTimer,
               this`txTimer, this`alarmActiveTx
      ensures Valid() && open == (cmd & DTR != 0 && (old(open) || opens))
      ensures txTimer == if old(open) && cmd & DTR == 0 then Off else old(txTimer)
      ensures old(open) || cmd & DTR == 0 ==>
                alarmActiveRx == old(alarmActiveRx) && rxTimer == old(rxTimer) &&
                ticks == old(ticks) && ticksRx == old(ticksRx)
      ensures (ticks == old(ticks) && ticksRx == old(ticksRx)) || (ticks == newTicks && ticksRx == newTicks * 5 / 4)
    {
      if cmd & DTR != 0 && !open {
        open := opens;
        alarmActiveRx := true;
        SetTicks(clk, newTicks);
      } else if open && cmd & DTR == 0 {
        txTimer := Off;
        alarmActiveTx := false;
        open := false;
      }
    }

    /** Either control register sets the character times. */
    method StoreRate(enhanced: bool, byte: bv8, clk: Alarm.Clock, newTicks: nat)
      requires Valid() && newTicks > 0 && clk + newTicks * 5 / 4 < Alarm.NEVER
      modifies this`ctrl, this`ectrl, this`ticks, this`ticksRx, this`alarmClkRx, this`rxTimer
      ensures Valid() && State() == old(State()).(ticks := newTicks) && ticksRx == newTicks * 5 / 4
      ensures rxTimer == (if rxTimer.On? then On(clk + newTicks * 5 / 4) else Off) && rxTimer.On? == old(rxTimer).On?
      ensures if enhanced then ectrl == byte && ctrl == old(ctrl) else ctrl == byte && ectrl == old(ectrl)
      ensures old(Ready(clk)) ==> Ready(clk)
    {
      hide Bytes, Line.Kept;
      if enhanced {
        ectrl := byte;
      } else {
        ctrl := byte;
      }
      SetTicks(clk, newTicks);
    }

    method Store(reg: Register, byte: Byte, clk: Alarm.Clock, newTicks: nat, opens: bool)
      requires Valid() && newTicks > 0 && clk + newTicks * 5 / 4 + 1 < Alarm.NEVER
      modifies this
      ensures Valid() && sent == old(sent)
      ensures (ticks == old(ticks) && ticksRx == old(ticksRx)) || (ticks == newTicks && ticksRx == newTicks * 5 / 4)
      ensures reg.Dr? && cmd & DTR != 0 ==> Traffic() == Bytes(sent) + [byte]
      ensures reg.Ctrl? ==>
                && State() == old(State()).(ticks := newTicks) && ctrl == byte as bv8
                && Listening() == Heard(old(Listening()), old(State()), ControlWritten(byte, newTicks), clk)
      ensures reg.Cmd? ==> cmd == byte as bv8
      ensures reg.Ectrl? ==> ectrl == if ctrl & BPS_MASK == 0 then byte as bv8 else old(ectrl)
      ensures !reg.Dr? && !reg.Sr? ==> Traffic() == old(Traffic())
      ensures reg.Sr? ==> Traffic() == Bytes(sent)
      ensures old(Ready(clk)) && !reg.Sr? && (reg.Cmd? ==> (byte as bv8) & DTR != 0) ==> Ready(clk)
    {
      hide Bytes, Line.Kept, Ready, Protocol;
      match reg
      case Dr => WriteData(byte, clk);
      case Sr => ProgrammedReset(clk, newTicks);
      case Ctrl => StoreRate(false, byte as bv8, clk, newTicks);
      case Cmd => WriteCommand(byte as bv8, clk, newTicks, opens);
      case Undefined =>
      case Ectrl =>
        if ctrl & BPS_MASK == 0 {
          StoreRate(true, byte as bv8, clk, newTicks);
        }
    }

    /** Reading the status clears the interrupt it shows. */
    method ReadStatus(modem: bv8) returns (byte: bv8)
      modifies this`status, this`interrupt, this`irq
      ensures !irq && !interrupt && byte == status | (if old(irq) then IRQ else 0)
      ensures status == (old(status) & !MODEM_LINES) | (modem & 0x20)
    {
      status := (status & !MODEM_LINES) | (modem & 0x20);
      byte := status | if irq then IRQ else 0;
      interrupt, irq := false, false;
    }

    /** What a status read shows: the request at the top, the modem lines, and below them the state of the chip. */
    lemma StatusSeen(before: bv8, modem: bv8, after: bv8, request: bool, byte: bv8)
      requires before & IRQ == 0 && after == (before & !MODEM_LINES) | (modem & 0x20)
      requires byte == after | (if request then IRQ else 0)
      ensures (byte & 0x80 != 0) == request && byte & 0x60 == modem & 0x20 && byte & 0x1f == before & 0x1f
      ensures after & IRQ == 0 && after & TRANSMIT_DR_EMPTY == before & TRANSMIT_DR_EMPTY
    {
    }

    /** Reading the data register makes room for the next byte. */
    method ReadData() returns (byte: bv8)
      modifies this`status
      ensures byte == rxdata as bv8 && status == old(status) & !RECEIVE_DR_FULL
      ensures status & IRQ == old(status) & IRQ && status & TRANSMIT_DR_EMPTY == old(status) & TRANSMIT_DR_EMPTY
    {
      status := status & !RECEIVE_DR_FULL;
      byte := rxdata as bv8;
    }

    /** Reading data or status has side effects, none of them on the transmitter. The top bit of the status is
        the interrupt request, which reading it takes back. */
    method Read(reg: Register, modem: bv8) returns (byte: bv8)
      requires Valid()
      modifies this`status, this`interrupt, this`irq
      ensures Valid() && State() == old(State())
      ensures reg.Sr? ==> !irq && !interrupt && (byte & 0x80 != 0) == old(irq) && byte & 0x60 == modem & 0x20 &&
                          byte & 0x1f == old(status) & 0x1f
      ensures !reg.Sr? ==> irq == old(irq) && interrupt == old(interrupt)
      ensures reg.Dr? ==> byte == rxdata as bv8 && status == old(status) & !RECEIVE_DR_FULL
      ensures (reg.Cmd? ==> byte == cmd) && (reg.Ctrl? ==> byte == ctrl) && (reg.Undefined? ==> byte == 0xff)
      ensures reg.Ectrl? ==> byte == ectrl + if ctrl & BPS_MASK == 0 then 4 else 0
    {
      hide Bytes, Line.Kept, Line.Traffic, Acia.TxTimed, Acia.RxTimed;
      ghost var before, request := status, irq;
      match reg
      case Dr => byte := ReadData();
      case Sr =>
        byte := ReadStatus(modem);
        StatusSeen(before, modem, status, request, byte);
      case Ctrl => byte := ctrl;
      case Cmd => byte := cmd;
      case Undefined => byte := 0xff;
      case Ectrl => byte := ectrl + if ctrl & BPS_MASK == 0 then 4 else 0;
    }

    // ----- the alarms

    /** Hands the waiting byte to the serial driver; TDRE is set again. */
    method SendWaiting(clk: Alarm.Clock)
      modifies this`sent, this`status, this`interrupt, this`irq
      ensures sent == old(sent) + [Sent(txdata, clk, ticks)]
      ensures status == old(status) | TRANSMIT_DR_EMPTY && status & TRANSMIT_DR_EMPTY != 0
      ensures irq == (old(irq) || cmd & 0x0c == 0x04) && interrupt == (old(interrupt) || cmd & 0x0c == 0x04)
    {
      sent := sent + [Sent(txdata, clk, ticks)];
      status := status | TRANSMIT_DR_EMPTY;
      if cmd & TRANSMITTER_MASK == TX_WITH_IRQ {
        interrupt, irq := true, true;
      }
    }

    /** The transmit alarm. It always lets go or sets itself later than now, as the draining loop needs. */
    method IntTx(clk: Alarm.Clock)
      requires Valid() && alarmActiveTx && alarmClkTx <= clk && clk + ticks < Alarm.NEVER
      modifies this`sent, this`status, this`interrupt, this`irq, this`inTx, this`alarmClkTx, this`txTimer,
        this`alarmActiveTx
      ensures Valid() && inTx == old(inTx).Down()
      ensures sent == old(sent) + if old(inTx).DrWritten? && open then [Sent(txdata, clk, ticks)] else []
      ensures txTimer == if inTx.NoTransmit? then Off else On(clk + ticks)
      ensures txTimer.On? ==> clk < txTimer.clk < Alarm.NEVER
      ensures var raised := old(inTx).DrWritten? && open && cmd & 0x0c == 0x04;
              irq == (old(irq) || raised) && interrupt == (old(interrupt) || raised)
      ensures open ==> Traffic() == old(Traffic()) && (old(Protocol(clk)) ==> State() == Transmitted(old(State()), clk))
      ensures old(Ready(clk)) ==> Ready(clk) && (Spaced(old(sent)) ==> Spaced(sent))
    {
      hide Bytes;
      if inTx.DrWritten? && open {
        SendWaiting(clk);
      }
      inTx := inTx.Down();
      if !inTx.NoTransmit? {
        alarmClkTx := clk + ticks;
        txTimer := On(alarmClkTx);
        alarmActiveTx := true;
      } else {
        txTimer := Off;
        alarmActiveTx := false;
      }
      SentOneMore(old(sent), Sent(txdata, clk, ticks));
    }

    lemma SentOneMore(before: seq<Sent>, s: Sent)
      ensures Bytes(before + [s]) == Bytes(before) + [s.byte]
      ensures Bytes(before) + [] == Bytes(before) && before + [] == before
    {
    }

    /** A byte from the line; an earlier one not yet read is lost. */
    method Receive(byte: Byte)
      modifies this`rxdata, this`status, this`interrupt, this`irq
      ensures rxdata == byte && status & TRANSMIT_DR_EMPTY == old(status) & TRANSMIT_DR_EMPTY
      ensures irq == (old(irq) || cmd & 0x02 == 0) && interrupt == (old(interrupt) || cmd & 0x02 == 0)
      ensures status ==
              old(status) | RECEIVE_DR_FULL | (if old(status) & RECEIVE_DR_FULL != 0 then OVERRUN_ERROR else 0)
    {
      rxdata := byte;
      if cmd & IRQ_DISABLED == 0 {
        interrupt, irq := true, true;
      }
      if status & RECEIVE_DR_FULL != 0 {
        status := status | OVERRUN_ERROR;
      } else {
        status := status | RECEIVE_DR_FULL;
      }
    }

    /** The receive alarm: what the driver has received, if anything, and the next character time. */
    method IntRx(clk: Alarm.Clock, received: Option<Byte>)
      requires Valid() && clk + ticksRx < Alarm.NEVER
      modifies this`rxdata, this`status, this`interrupt, this`irq, this`alarmClkRx, this`rxTimer, this`alarmActiveRx
      ensures Valid() && rxTimer == On(clk + ticksRx) && clk < alarmClkRx
      ensures open && received.Some? ==>
              rxdata == received.value &&
              status == old(status) | RECEIVE_DR_FULL | (if old(status) & RECEIVE_DR_FULL != 0
              then OVERRUN_ERROR else 0)
      ensures !(open && received.Some?) ==> rxdata == old(rxdata) && status == old(status)
      ensures var raised := open && received.Some? && cmd & 0x02 == 0;
              irq == (old(irq) || raised) && interrupt == (old(interrupt) || raised)
      ensures State() == old(State()).(receiving := true) && Traffic() == old(Traffic()) &&
              (old(Ready(clk)) ==> Ready(clk))
    {
      hide Bytes;
      if open && received.Some? {
        Receive(received.value);
      }
      alarmClkRx := clk + ticksRx;
      rxTimer := On(alarmClkRx);
      alarmActiveRx := true;
    }

    // ----- whole runs

    /** Time passes and one thing happens; the transmit alarm only fires when it is due, as the draining
        loop sees to. */
    method Happen(e: Event, clk: Alarm.Clock, ghost before: int)
      requires Ready(before) && before <= clk && Fits(e, clk) && ticks <= SLOWEST && ticksRx <= SLOWEST * 5 / 4
      modifies this
      ensures Ready(clk) && ticks <= SLOWEST && ticksRx <= SLOWEST * 5 / 4
      ensures State() == Next(old(State()), e, clk) && Listening() == Heard(old(Listening()), old(State()), e, clk)
    {
      hide Raises;
      assert Ready(clk);
      hide Bytes, Line.Traffic, Line.Kept, Transmitted;
      match e
      case DataWritten(byte) => WriteData(byte, clk);
      case CommandWritten(byte, newTicks) => WriteCommand(byte, clk, newTicks, true);
      case ControlWritten(byte, newTicks) => Store(Ctrl, byte, clk, newTicks, true);
      case ReadRegister(reg, modem) => var r := Read(reg, modem);
      case TxDue => TransmitDue(clk);
      case RxDue(received) => ReceiveDue(clk, received);
    }

    method TransmitDue(clk: Alarm.Clock)
      requires Ready(clk) && clk + ticks < Alarm.NEVER
      modifies this
      ensures Ready(clk) && ticks == old(ticks) && ticksRx == old(ticksRx)
      ensures State() == Next(old(State()), TxDue, clk)
      ensures Listening() == Heard(old(Listening()), old(State()), TxDue, clk)
    {
      hide Bytes, Line.Traffic, Line.Kept, Transmitted;
      if alarmActiveTx && alarmClkTx <= clk {
        IntTx(clk);
      }
    }

    method ReceiveDue(clk: Alarm.Clock, received: Option<Byte>)
      requires Ready(clk) && clk + ticksRx < Alarm.NEVER
      modifies this
      ensures Ready(clk) && ticks == old(ticks) && ticksRx == old(ticksRx)
      ensures State() == Next(old(State()), RxDue(received), clk)
      ensures Listening() == Heard(old(Listening()), old(State()), RxDue(received), clk)
    {
      hide Bytes, Line.Traffic, Line.Kept;
      if alarmActiveRx && alarmClkRx <= clk {
        IntRx(clk, received);
      }
    }

    /** From a ready line, any run takes the transmitter where the step function takes it, and sends keep
        their distance. The bytes sent and the one still waiting are those already on their way followed
        by all bytes written, in order, exactly when every write found TDRE set. */
    method Drive(events: seq<Timed>, start: Alarm.Clock)
      requires Ready(start) && Spaced(sent) && Timely(events, start)
      requires forall i :: 0 <= i < |events| ==> Fits(events[i].event, events[i].clk)
      requires ticks <= SLOWEST && ticksRx <= SLOWEST * 5 / 4
      modifies this
      ensures Ready(if events == [] then start else events[|events| - 1].clk) && Spaced(sent)
      ensures State() == After(old(State()), events) && Listening() == HeardAll(old(Listening()), old(State()), events)
      ensures Traffic() == old(Traffic()) + Written(events) <==> Conforming(old(State()), events)
      ensures irq <==> Pending(old(Listening()), old(State()), events)
    {
      ghost var now, line, port := start, State(), Listening();
      for i := 0 to |events|
        invariant Ready(now) && now == (if i == 0 then start else events[i - 1].clk)
        invariant State() == After(line, events[..i]) && Spaced(sent)
        invariant Listening() == HeardAll(port, line, events[..i])
        invariant ticks <= SLOWEST && ticksRx <= SLOWEST * 5 / 4
      {
        NextKept(State(), events[i].event, now, events[i].clk);
        Happen(events[i].event, events[i].clk, now);
        assert events[..i + 1] == events[..i] + [events[i]];
        AfterMore(line, events[..i], events[i]);
        now := events[i].clk;
      }
      assert events[..|events|] == events;
      TrafficExactly(line, events);
      RequestExactly(port, line, events);
    }

    /** So the status read after a run shows a request exactly when, since it was last read, a byte went out or
        came in with its interrupt enabled at that moment. */
    method DriveAndLook(events: seq<Timed>, start: Alarm.Clock, modem: bv8) returns (byte: bv8)
      requires Ready(start) && Spaced(sent) && Timely(events, start)
      requires forall i :: 0 <= i < |events| ==> Fits(events[i].event, events[i].clk)
      requires ticks <= SLOWEST && ticksRx <= SLOWEST * 5 / 4
      modifies this
      ensures byte & 0x80 != 0 <==> Pending(old(Listening()), old(State()), events)
      ensures !irq && !interrupt && State() == After(old(State()), events)
    {
      Drive(events, start);
      byte := Read(Sr, modem);
    }
  }

  /** The transmitter: what was sent, the data register, the state and its alarm, TDRE, the character
      time, and whether reception runs, which decides when a command changes the character time. */
  datatype Line = Line(sent: seq<Sent>, txdata: Byte, inTx: TxState, timer: Timer, tdre: bool, ticks: nat,
    receiving: bool)
  {
    /** The bytes on their way: those sent and the one still waiting. */
    function Traffic(): seq<Byte> {
      Bytes(sent) + if inTx.DrWritten? then [txdata] else []
    }

    /** TDRE is clear exactly while a written byte waits, the transmit alarm runs exactly while there is
        something to time, and it is not set for a moment when the last byte is still on the line. */
    predicate Kept(now: int) {
      && (tdre <==> !inTx.DrWritten?)
      && (inTx.NoTransmit? <==> timer.Off?)
      && LineClear(sent, if timer.On? then timer.clk else now)
    }
  }

  /** The command register, the reception time and alarm, and the interrupt request. */
  datatype Port = Port(cmd: bv8, ticksRx: nat, rxTimer: Timer, irq: bool)

  /** The last byte has had its time on the line. */
  predicate LineClear(sent: seq<Sent>, now: int) {
    sent != [] ==> var last := sent[|sent| - 1]; last.at + last.ticks <= now
  }

  lemma ResetKept(line: Line, now: int)
    requires line.inTx.NoTransmit? && line.timer.Off?
    ensures line.Kept(now) <==> line.tdre && LineClear(line.sent, now)
  {
  }

  /** A command leaves a line as it should be unless it stops the alarm of a byte not yet through. */
  lemma CommandKept(line: Line, next: Line, closed: bool, now: int)
    requires next ==
             line.(timer := if closed then Off else line.timer, ticks := next.ticks, receiving := next.receiving)
    ensures line.Kept(now) ==> (next.Kept(now) <==> !closed || line.inTx.NoTransmit?)
  {
  }

  /** One event on a line with DTR on and the device open. */
  function Next(line: Line, e: Event, clk: Alarm.Clock): Line {
    match e
    case DataWritten(byte) =>
      line.(txdata := byte, inTx := DrWritten, tdre := false, timer := if line.timer.On? then line.timer
        else On(clk + 1))
    case CommandWritten(cmd, newTicks) =>
      var receiving := cmd & TRANSMITTER_MASK != 0;
      line.(receiving := receiving, ticks := if !line.receiving && receiving then newTicks else line.ticks)
    case ControlWritten(_, newTicks) => line.(ticks := newTicks)
    case ReadRegister(_, _) => line
    case TxDue => if line.timer.On? && line.timer.clk <= clk then Transmitted(line, clk) else line
    case RxDue(_) => line
  }

  /** The receiver and the interrupt request after one event, on such a line. */
  function Heard(port: Port, line: Line, e: Event, clk: Alarm.Clock): Port {
    match e
    case DataWritten(_) => port
    case CommandWritten(cmd, newTicks) =>
      if cmd & TRANSMITTER_MASK == 0 then port.(cmd := cmd, rxTimer := Off)
      else if port.rxTimer.On? then port.(cmd := cmd)
      else port.(cmd := cmd, ticksRx := newTicks * 5 / 4, rxTimer := On(clk + newTicks * 5 / 4))
    case ControlWritten(_, newTicks) =>
      port.(ticksRx := newTicks * 5 / 4, rxTimer := if port.rxTimer.On? then On(clk + newTicks * 5 / 4) else Off)
    case ReadRegister(reg, _) => if reg.Sr? then port.(irq := false) else port
    case TxDue => port.(irq := port.irq || Raises(port, line, e, clk))
    case RxDue(_) =>
      port.(irq := port.irq || Raises(port, line, e, clk),
            rxTimer := if port.rxTimer.On? && port.rxTimer.clk <= clk then On(clk + port.ticksRx) else port.rxTimer)
  }

  /** A byte goes out or comes in with its interrupt enabled. */
  predicate Raises(port: Port, line: Line, e: Event, clk: Alarm.Clock) {
    match e
    case TxDue => line.timer.On? && line.timer.clk <= clk && line.inTx.DrWritten? && port.cmd & 0x0c == 0x04
    case RxDue(received) =>
      port.rxTimer.On? && port.rxTimer.clk <= clk && received.Some? && port.cmd & 0x02 == 0
    case _ => false
  }

  /** The receiver after a run that starts with this one and with this line. */
  function HeardAll(port: Port, line: Line, events: seq<Timed>): Port {
    if events == [] then port
    else
      var before, last := events[..|events| - 1], events[|events| - 1];
      Heard(HeardAll(port, line, before), After(line, before), last.event, last.clk)
  }

  predicate StatusRead(e: Event) {
    e.ReadRegister? && e.reg.Sr?
  }

  /** Event i of the run raises the interrupt. */
  predicate RaisedAt(port: Port, line: Line, events: seq<Timed>, i: nat)
    requires i < |events|
  {
    Raises(HeardAll(port, line, events[..i]), After(line, events[..i]), events[i].event, events[i].clk)
  }

  /** Since the last reading of the status a byte went out or came in with its interrupt enabled at that moment,
      or nothing has read the status and the request was there before. */
  ghost predicate Pending(port: Port, line: Line, events: seq<Timed>) {
    || (exists i :: 0 <= i < |events| && RaisedAt(port, line, events, i) &&
                    forall j :: i < j < |events| ==> !StatusRead(events[j].event))
    || (port.irq && forall j :: 0 <= j < |events| ==> !StatusRead(events[j].event))
  }

  /** The interrupt request is there exactly then. */
  lemma {:induction false} RequestExactly(port: Port, line: Line, events: seq<Timed>)
    ensures HeardAll(port, line, events).irq <==> Pending(port, line, events)
    decreases |events|
  {
    if events != [] {
      var n := |events| - 1;
      RequestExactly(port, line, events[..n]);
      PendingMore(port, line, events);
    }
  }

  lemma PendingMore(port: Port, line: Line, events: seq<Timed>)
    requires events != []
    ensures var n := |events| - 1;
            Pending(port, line, events) <==>
              RaisedAt(port, line, events, n) || (Pending(port, line, events[..n]) && !StatusRead(events[n].event))
  {
    hide After, HeardAll, Raises;
    var n := |events| - 1;
    var before := events[..n];
    assert forall i :: 0 <= i <= n ==> before[..i] == events[..i];
    assert forall i :: 0 <= i < n ==> RaisedAt(port, line, before, i) == RaisedAt(port, line, events, i);
  }

  function Transmitted(line: Line, clk: Alarm.Clock): Line {
    var next := line.inTx.Down();
    line.(sent := line.sent + if line.inTx.DrWritten? then [Sent(line.txdata, clk, line.ticks)] else [],
          tdre := line.tdre || line.inTx.DrWritten?, inTx := next,
          timer := if next.NoTransmit? then Off else On(clk + line.ticks))
  }

  function After(line: Line, events: seq<Timed>): Line {
    if events == [] then line
    else
      var last := events[|events| - 1];
      Next(After(line, events[..|events| - 1]), last.event, last.clk)
  }

  /** All bytes written in a run. */
  function Written(events: seq<Timed>): seq<Byte> {
    if events == [] then []
    else
      var last := events[|events| - 1].event;
      Written(events[..|events| - 1]) + if last.DataWritten? then [last.byte] else []
  }

  /** Every write finds TDRE set. */
  predicate Conforming(line: Line, events: seq<Timed>) {
    forall i :: 0 <= i < |events| && events[i].event.DataWritten? ==> After(line, events[..i]).tdre
  }

  /** Every event keeps the protocol and the distance between sends. */
  lemma NextKept(line: Line, e: Event, now: int, clk: Alarm.Clock)
    requires line.Kept(now) && now <= clk && line.ticks > 0
    ensures Next(line, e, clk).Kept(clk)
    ensures Spaced(line.sent) ==> Spaced(Next(line, e, clk).sent)
  {
  }

  /** A written byte is the pending one, and a running alarm goes on. */
  lemma NextFacts(line: Line, byte: Byte, clk: Alarm.Clock)
    ensures var next := Next(line, DataWritten(byte), clk);
            && next.Traffic() == Bytes(line.sent) + [byte] && next.sent == line.sent
            && next.timer == (if line.timer.On? then line.timer else On(clk + 1))
            && (line.Kept(clk) && line.ticks > 0 ==> next.Kept(clk))
            && Next(line.(txdata := byte), DataWritten(byte), clk) == next
  {
    if line.Kept(clk) && line.ticks > 0 {
      NextKept(line, DataWritten(byte), clk, clk);
    }
  }

  lemma NextTraffic(line: Line, e: Event, clk: Alarm.Clock)
    requires line.tdre <==> !line.inTx.DrWritten?
    ensures var next := Next(line, e, clk);
            && (next.tdre <==> !next.inTx.DrWritten?)
            && (!e.DataWritten? ==> next.Traffic() == line.Traffic())
            && (e.DataWritten? && line.tdre ==> next.Traffic() == line.Traffic() + [e.byte])
            && (e.DataWritten? && !line.tdre ==> |next.Traffic()| == |line.Traffic()|)
  {
    BytesMore(line.sent, Sent(line.txdata, clk, line.ticks));
    assert line.sent + [] == line.sent && Bytes(line.sent) + [] == Bytes(line.sent);
  }

  lemma BytesMore(before: seq<Sent>, s: Sent)
    ensures Bytes(before + [s]) == Bytes(before) + [s.byte]
  {
  }

  /** Traffic gains every byte written exactly when TDRE was set at every write; each other write costs a byte. */
  lemma {:induction false} TrafficExactly(line: Line, events: seq<Timed>)
    requires line.tdre <==> !line.inTx.DrWritten?
    ensures var last := After(line, events);
            && (last.tdre <==> !last.inTx.DrWritten?)
            && |last.Traffic()| <= |line.Traffic()| + |Written(events)|
            && (Conforming(line, events) ==> last.Traffic() == line.Traffic() + Written(events))
            && (!Conforming(line, events) ==> |last.Traffic()| < |line.Traffic()| + |Written(events)|)
    decreases |events|
  {
    hide Next, Line.Traffic;
    if events == [] {
      assert line.Traffic() + [] == line.Traffic();
    } else {
      var n := |events| - 1;
      var before, last := events[..n], events[n];
      TrafficExactly(line, before);
      NextTraffic(After(line, before), last.event, last.clk);
      ConformingMore(line, events);
      assert line.Traffic() + Written(before) + [] == line.Traffic() + Written(before);
    }
  }

  /** Once TDRE is clear with no alarm to set it, as after a reset while a byte waits, a program that waits for
      it never sends again. */
  lemma {:induction false} WaitsForever(line: Line, events: seq<Timed>)
    requires !line.tdre && line.timer.Off? && Conforming(line, events)
    ensures Written(events) == [] && After(line, events).sent == line.sent
    ensures !After(line, events).tdre && After(line, events).timer.Off?
    decreases |events|
  {
    if events != [] {
      ConformingMore(line, events);
      WaitsForever(line, events[..|events| - 1]);
    }
  }

  lemma ConformingMore(line: Line, events: seq<Timed>)
    requires events != []
    ensures var n := |events| - 1;
            Conforming(line, events) <==>
              Conforming(line, events[..n]) && (events[n].event.DataWritten? ==> After(line, events[..n]).tdre)
  {
    hide After;
    var before := events[..|events| - 1];
    assert forall i :: 0 <= i < |before| ==> before[..i] == events[..i];
  }

  lemma AfterMore(line: Line, events: seq<Timed>, e: Timed)
    ensures After(line, events + [e]) == Next(After(line, events), e.event, e.clk)
    ensures forall port :: HeardAll(port, line, events + [e]) ==
                           Heard(HeardAll(port, line, events), After(line, events), e.event, e.clk)
    ensures Written(events + [e]) == Written(events) + if e.event.DataWritten? then [e.event.byte] else []
  {
    assert (events + [e])[..|events|] == events;
  }

  /** The longest character time considered; anything that keeps the clocks from overflowing will do. */
  const SLOWEST: nat := 0x1000000

  datatype Event =
    | DataWritten(byte: Byte)
    | CommandWritten(cmd: bv8, ticks: nat)
    | ControlWritten(ctrl: Byte, ticks: nat)
    | ReadRegister(reg: Register, modem: bv8)
    | TxDue
    | RxDue(received: Option<Byte>)

  /** DTR stays on, and clocks stay below the sentinel. */
  predicate Fits(e: Event, clk: Alarm.Clock) {
    && clk + 2 * SLOWEST < Alarm.NEVER
    && (e.CommandWritten? ==> e.cmd & DTR != 0 && 0 < e.ticks <= SLOWEST)
    && (e.ControlWritten? ==> 0 < e.ticks <= SLOWEST)
  }

  datatype Timed = Timed(event: Event, clk: Alarm.Clock)

  /** Events come in clock order. */
  ghost predicate Timely(events: seq<Timed>, start: Alarm.Clock) {
    && (events != [] ==> start <= events[0].clk)
    && forall i :: 0 < i < |events| ==> events[i - 1].clk <= events[i].clk
  }
}
