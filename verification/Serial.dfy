/** The serial chip with its two alarms in an alarm context shared with other devices, drained before every
    access (core/vice-3.3/src/aciacore.c, core/vice-3.3/src/alarm.h, core/vice-3.3/src/6510core.c). */
module Serial {
  import opened Primitives
  import opened Alarm
  import opened Drain
  import opened Acia

  /** The chip's timers are its alarms in the context. */
  ghost predicate Wired(context: AlarmContext, chip: Acia, tx: Alarm, rx: Alarm)
    reads context, context.pending, context.list, chip
  {
    && context.Valid() && tx in context.list && rx in context.list && tx != rx
    && Mirrors(context.Map(), tx, chip.txTimer) && Mirrors(context.Map(), rx, chip.rxTimer)
  }

  ghost predicate Mirrors(m: map<Alarm, Clock>, alarm: Alarm, timer: Timer) {
    if timer.On? then alarm in m && m[alarm] == timer.clk else alarm !in m
  }

  /** Both alarms of the chip can be pending beside those of the other devices. */
  ghost predicate Roomy(m: map<Alarm, Clock>, tx: Alarm, rx: Alarm) {
    |m.Keys - {tx, rx}| + 2 <= MAX_PENDING
  }

  /** Character times within bounds, and the clock far enough from the sentinel. */
  ghost predicate InTime(chip: Acia, clk: int)
    reads chip
  {
    chip.ticks <= SLOWEST && chip.ticksRx <= SLOWEST * 5 / 4 && clk + 2 * SLOWEST < NEVER
  }

  /** What the callbacks of a drain have done so far. */
  function Done(rs: seq<Reaction>): Callbacks {
    (i: nat) => if i < |rs| then rs[i] else Drop
  }

  lemma GoingOn(log: seq<Fired>, m: map<Alarm, Clock>, now: map<Alarm, Clock>, rs: seq<Reaction>, r: Reaction,
                clk: Clock)
    requires Going(log, m, now, Done(rs), clk) && |rs| == |log| && Forward(Done(rs), clk)
    requires r.Again? ==> clk < r.clk < NEVER
    ensures Going(log, m, now, Done(rs + [r]), clk) && Forward(Done(rs + [r]), clk) && Done(rs + [r])(|rs|) == r
  {
    assert forall i: nat :: i < |log| ==> Done(rs + [r])(i) == Done(rs)(i);
    forall k: nat | Done(rs + [r])(k).Again?
      ensures clk < Done(rs + [r])(k).clk < NEVER
    {
      assert k < |rs| ==> Done(rs + [r])(k) == Done(rs)(k);
    }
  }

  /** The callback of the alarm that is due: the transmitter's, the receiver's, or another device's. */
  method CallBack(chip: Acia, alarm: Alarm, tx: Alarm, rx: Alarm, clk: Clock, received: Option<Byte>, other: Reaction)
    returns (r: Reaction)
    requires chip.Ready(clk) && Spaced(chip.sent) && InTime(chip, clk) && tx != rx
    requires alarm == tx ==> chip.txTimer.On? && chip.txTimer.clk <= clk
    requires alarm == rx ==> chip.rxTimer.On?
    requires other.Again? ==> clk < other.clk < NEVER
    modifies chip
    ensures chip.Ready(clk) && Spaced(chip.sent) && InTime(chip, clk) && (r.Again? ==> clk < r.clk < NEVER)
    ensures alarm == tx ==> chip.State() == Next(old(chip.State()), TxDue, clk) && chip.rxTimer == old(chip.rxTimer)
    ensures alarm == tx ==> r == if chip.txTimer.On? then Again(chip.txTimer.clk) else Drop
    ensures alarm != tx ==> chip.State() == old(chip.State()) && chip.txTimer == old(chip.txTimer)
    ensures alarm == rx ==> chip.rxTimer.On? && r == Again(chip.rxTimer.clk)
    ensures alarm != tx && alarm != rx ==> unchanged(chip) && r == other
  {
    hide Bytes, Line.Kept, Line.Traffic, Transmitted;
    r := other;
    if alarm == tx {
      chip.IntTx(clk);
      r := if chip.txTimer.On? then Again(chip.txTimer.clk) else Drop;
    } else if alarm == rx {
      chip.IntRx(clk, received);
      r := Again(chip.rxTimer.clk);
    }
  }

  /** Rewiring after one alarm has reacted. */
  lemma StillWired(m: map<Alarm, Clock>, alarm: Alarm, r: Reaction, other: Alarm, timer: Timer)
    requires Mirrors(m, other, timer) && alarm != other
    ensures Mirrors(React(m, alarm, r), other, timer)
  {
  }

  lemma MirrorsReaction(m: map<Alarm, Clock>, alarm: Alarm, timer: Timer, r: Reaction)
    requires timer.On? ==> 0 <= timer.clk < CLOCKS
    requires r == if timer.On? then Again(timer.clk) else Drop
    ensures Mirrors(React(m, alarm, r), alarm, timer)
  {
  }

  /** One alarm that is due. */
  method ServeOne(context: AlarmContext, chip: Acia, tx: Alarm, rx: Alarm, clk: Clock, received: Option<Byte>,
                  other: Reaction)
    returns (f: Fired, r: Reaction)
    requires Wired(context, chip, tx, rx) && chip.Ready(clk) && Spaced(chip.sent) && InTime(chip, clk)
    requires context.nextClk <= clk < NEVER && (other.Again? ==> clk < other.clk < NEVER)
    modifies context, context.pending, context.Members(), chip
    ensures Wired(context, chip, tx, rx) && chip.Ready(clk) && Spaced(chip.sent) && InTime(chip, clk)
    ensures context.list == old(context.list) && context.Map() == React(old(context.Map()), f.alarm, r)
    ensures f.alarm in old(context.Map()) && old(context.Map())[f.alarm] == f.due == old(context.nextClk)
    ensures f.offset == clk - f.due && (r.Again? ==> clk < r.clk < NEVER)
    ensures chip.State() == if f.alarm == tx then Next(old(chip.State()), TxDue, clk) else old(chip.State())
  {
    hide AlarmContext.SlotsValid, AlarmContext.CacheValid, AlarmContext.ListValid, AlarmContext.Map, Acia.Ready,
      InTime, Spaced, Next, Acia.State, React, Mirrors;
    var alarm := NextAlarm(context);
    ghost var m := context.Map();
    DueTimer(m, tx, chip.txTimer, alarm, clk);
    DueTimer(m, rx, chip.rxTimer, alarm, clk);
    r := CallBack(chip, alarm, tx, rx, clk, received, other);
    f := Dispatch(context, clk, r);
    if alarm == tx {
      MirrorsReaction(m, tx, chip.txTimer, r);
      StillWired(m, alarm, r, rx, chip.rxTimer);
    } else if alarm == rx {
      MirrorsReaction(m, rx, chip.rxTimer, r);
      StillWired(m, alarm, r, tx, chip.txTimer);
    } else {
      StillWired(m, alarm, r, tx, chip.txTimer);
      StillWired(m, alarm, r, rx, chip.rxTimer);
    }
  }

  method NextAlarm(context: AlarmContext) returns (alarm: Alarm)
    requires context.Valid() && context.nextClk < NEVER
    ensures IsNext(context, alarm) && alarm in context.Map() && context.Map()[alarm] == context.nextClk
  {
    hide AlarmContext.CacheValid, AlarmContext.ListValid, AlarmContext.Map;
    context.NextIsLeast();
    alarm := context.pending[context.nextIdx].alarm;
  }

  lemma DueTimer(m: map<Alarm, Clock>, mine: Alarm, timer: Timer, alarm: Alarm, clk: Clock)
    requires Mirrors(m, mine, timer) && alarm in m && m[alarm] <= clk
    ensures alarm == mine ==> timer.On? && timer.clk <= clk
  {
  }

  lemma StartGoing(m: map<Alarm, Clock>, clk: Clock)
    ensures Going([], m, m, Done([]), clk) && Forward(Done([]), clk)
  {
  }

  lemma NextLeast(context: AlarmContext)
    requires context.Valid()
    ensures forall a :: a in context.Map() ==> context.nextClk <= context.Map()[a]
  {
    context.NextIsLeast();
  }

  /** What the drain has done to the transmitter: its alarm fires at most once, as it is set later than now. */
  ghost predicate Served(log: seq<Fired>, tx: Alarm, line: Line, now: Line, clk: Clock) {
    now == if tx in FiredAlarms(log) then Next(line, TxDue, clk) else line
  }

  lemma TimerShown(chip: Acia)
    ensures chip.State().timer == chip.txTimer
  {
  }

  lemma ServedMeans(m: map<Alarm, Clock>, tx: Alarm, line: Line, now: Line, log: seq<Fired>, clk: Clock)
    requires Mirrors(m, tx, line.timer) && Served(log, tx, line, now, clk) && FiredAlarms(log) == Due(m, clk)
    ensures now == Next(line, TxDue, clk)
  {
  }

  lemma NoneNew(log: seq<Fired>, m: map<Alarm, Clock>, now: map<Alarm, Clock>, callbacks: Callbacks, clk: Clock)
    requires Going(log, m, now, callbacks, clk)
    ensures InOrder(log, m, clk) && now.Keys <= m.Keys
  {
  }

  /** Every alarm of the context that is due fires, the chip's among them; the transmitter takes exactly the step it
      takes when its time has come. */
  method Serve(context: AlarmContext, chip: Acia, tx: Alarm, rx: Alarm, clk: Clock, received: nat -> Option<Byte>,
               others: Callbacks)
    returns (log: seq<Fired>)
    requires Wired(context, chip, tx, rx) && chip.Ready(clk) && Spaced(chip.sent) && InTime(chip, clk)
    requires clk < NEVER && Forward(others, clk)
    modifies context, context.pending, context.Members(), chip
    ensures Wired(context, chip, tx, rx) && chip.Ready(clk) && Spaced(chip.sent) && InTime(chip, clk)
    ensures context.list == old(context.list) && context.Map().Keys <= old(context.Map()).Keys
    ensures FiredAlarms(log) == Due(old(context.Map()), clk) && InOrder(log, old(context.Map()), clk)
    ensures forall a :: a in context.Map() ==> clk < context.Map()[a]
    ensures chip.State() == Next(old(chip.State()), TxDue, clk)
  {
    hide AlarmContext.SlotsValid, AlarmContext.CacheValid, AlarmContext.ListValid, AlarmContext.Map, Acia.Ready,
      InTime, Spaced, Next, Acia.State, React, Mirrors, InOrder, Rest, Done, Going;
    log := [];
    StartGoing(context.Map(), clk);
    ghost var rs, m, line := [], context.Map(), chip.State();
    TimerShown(chip);
    while clk >= context.nextClk
      invariant Wired(context, chip, tx, rx) && context.list == old(context.list)
      invariant chip.Ready(clk) && Spaced(chip.sent) && InTime(chip, clk)
      invariant |rs| == |log| && Forward(Done(rs), clk) && Going(log, m, context.Map(), Done(rs), clk)
      invariant Served(log, tx, line, chip.State(), clk)
      decreases |Due(m, clk)| - |log|
    {
      ghost var now := context.Map();
      NextLeast(context);
      var f, r := ServeOne(context, chip, tx, rx, clk, received(|log|), others(|log|));
      GoingOn(log, m, now, rs, r, clk);
      rs := rs + [r];
      OneMore(log, f, m, now, Done(rs), clk);
      Room(log, f, m, clk);
      FiredOneMore(log, f);
      log := log + [f];
    }
    NextLeast(context);
    AllFired(log, m, context.Map(), Done(rs), clk);
    NoneNew(log, m, context.Map(), Done(rs), clk);
    ServedMeans(m, tx, line, chip.State(), log, clk);
  }

  // ----- accesses to the chip

  function Moved(m: map<Alarm, Clock>, alarm: Alarm, timer: Timer): map<Alarm, Clock>
    requires timer.On? ==> timer.clk < CLOCKS
  {
    if timer.On? then m[alarm := timer.clk] else m - {alarm}
  }

  /** The alarm goes where the chip's timer is. */
  method SetTimer(context: AlarmContext, alarm: Alarm, timer: Timer)
    requires context.Valid() && alarm in context.list && (timer.On? ==> timer.clk < NEVER)
    requires alarm in context.Map() || |context.Map()| < MAX_PENDING
    modifies context, context.pending, context.list
    ensures context.Valid() && context.list == old(context.list)
    ensures context.Map() == Moved(old(context.Map()), alarm, timer)
  {
    hide AlarmContext.CacheValid, AlarmContext.ListValid, AlarmContext.Map;
    context.MapSize();
    if timer.On? {
      var ok := context.Set(alarm, timer.clk);
    } else {
      context.Unset(alarm);
    }
  }

  lemma MovedOne(m: map<Alarm, Clock>, alarm: Alarm, mine: set<Alarm>, timer: Timer)
    requires alarm in mine && (timer.On? ==> timer.clk < CLOCKS)
    ensures Mirrors(Moved(m, alarm, timer), alarm, timer) && Moved(m, alarm, timer) - mine == m - mine
    ensures Moved(m, alarm, timer).Keys - mine == m.Keys - mine
    ensures forall a, t :: a != alarm && Mirrors(m, a, t) ==> Mirrors(Moved(m, alarm, timer), a, t)
  {
    assert Moved(m, alarm, timer).Keys - mine == m.Keys - mine;
  }

  lemma RoomForOne(m: map<Alarm, Clock>, tx: Alarm, rx: Alarm, alarm: Alarm)
    requires Roomy(m, tx, rx) && alarm in {tx, rx}
    ensures alarm in m || |m| < MAX_PENDING
  {
    Without(m.Keys, tx, rx);
  }

  lemma StillRoomy(m: map<Alarm, Clock>, now: map<Alarm, Clock>, tx: Alarm, rx: Alarm)
    requires Roomy(m, tx, rx) && now.Keys - {tx, rx} == m.Keys - {tx, rx}
    ensures Roomy(now, tx, rx)
  {
  }

  lemma Without(keys: set<Alarm>, tx: Alarm, rx: Alarm)
    ensures |keys| <= |keys - {tx, rx}| + (if tx in keys then 1 else 0) + (if rx in keys then 1 else 0)
  {
    var others, mine := keys - {tx, rx}, keys * {tx, rx};
    assert keys == others + mine && others !! mine;
    assert mine == (if tx in keys then {tx} else {}) + (if rx in keys then {rx} else {});
  }

  /** After an access to the chip its alarms follow its timers. */
  method Rewire(context: AlarmContext, chip: Acia, tx: Alarm, rx: Alarm)
    requires context.Valid() && tx in context.list && rx in context.list && tx != rx && chip.Valid()
    requires Roomy(context.Map(), tx, rx)
    modifies context, context.pending, context.list
    ensures Wired(context, chip, tx, rx) && context.list == old(context.list) && Roomy(context.Map(), tx, rx)
    ensures context.Map() - {tx, rx} == old(context.Map()) - {tx, rx}
  {
    hide AlarmContext.SlotsValid, AlarmContext.CacheValid, AlarmContext.ListValid, AlarmContext.Map, Mirrors, Roomy,
      Moved;
    ghost var mine, m := {tx, rx}, context.Map();
    TimersBelow(chip);
    MovedOne(m, tx, mine, chip.txTimer);
    RoomForOne(m, tx, rx, tx);
    SetTimer(context, tx, chip.txTimer);
    ghost var next := context.Map();
    StillRoomy(m, next, tx, rx);
    MovedOne(next, rx, mine, chip.rxTimer);
    RoomForOne(next, tx, rx, rx);
    SetTimer(context, rx, chip.rxTimer);
    StillRoomy(next, context.Map(), tx, rx);
  }

  lemma TimersBelow(chip: Acia)
    requires chip.Valid()
    ensures (chip.txTimer.On? ==> chip.txTimer.clk < NEVER) && (chip.rxTimer.On? ==> chip.rxTimer.clk < NEVER)
  {
  }

  /** A program's access to the chip, as opposed to an alarm. */
  predicate IsAccess(e: Event) {
    !e.TxDue? && !e.RxDue?
  }

  /** Before every access the transmit alarm fires if it is due. */
  function Interleaved(events: seq<Timed>): seq<Timed> {
    if events == [] then []
    else
      var last := events[|events| - 1];
      Interleaved(events[..|events| - 1]) + [Timed(TxDue, last.clk), last]
  }

  lemma {:induction false} SameWrites(events: seq<Timed>)
    ensures Written(Interleaved(events)) == Written(events)
    decreases |events|
  {
    if events != [] {
      var before, last := events[..|events| - 1], events[|events| - 1];
      SameWrites(before);
      InterleavedMore(Interleaved(before), last);
    }
  }

  lemma InterleavedMore(done: seq<Timed>, e: Timed)
    ensures Written(done + [Timed(TxDue, e.clk), e]) == Written(done) +
            if e.event.DataWritten? then [e.event.byte] else []
    ensures forall line: Line :: After(line, done + [Timed(TxDue, e.clk), e]) ==
                                 Next(Next(After(line, done), TxDue, e.clk), e.event, e.clk)
  {
    var due := Timed(TxDue, e.clk);
    assert done + [due, e] == done + [due] + [e];
    forall line: Line
      ensures After(line, done + [due, e]) == Next(Next(After(line, done), TxDue, e.clk), e.event, e.clk)
    {
      AfterMore(line, done, due);
      AfterMore(line, done + [due], e);
    }
    AfterMore(Line([], 0, NoTransmit, Off, true, 0, false), done, due);
    AfterMore(Line([], 0, NoTransmit, Off, true, 0, false), done + [due], e);
    assert Written(done) + [] == Written(done);
  }

  lemma LaterReady(chip: Acia, now: int, clk: int)
    requires chip.Ready(now) && now <= clk
    ensures chip.Ready(clk)
  {
  }

  lemma StillSpaced(line: Line, e: Event, clk: Clock)
    requires line.Kept(clk) && line.ticks > 0 && Spaced(line.sent)
    ensures Spaced(Next(line, e, clk).sent)
  {
    NextKept(line, e, clk, clk);
  }

  lemma LineFacts(chip: Acia, clk: int)
    requires chip.Ready(clk)
    ensures chip.State().Kept(clk) && chip.State().ticks > 0 && chip.Valid()
    ensures chip.State().sent == chip.sent && chip.State().Traffic() == chip.Traffic()
    ensures chip.State().tdre <==> !chip.State().inTx.DrWritten?
  {
  }

  /** One access: whatever is due fires, then the access is made and the alarms follow. */
  method Touch(context: AlarmContext, chip: Acia, tx: Alarm, rx: Alarm, e: Timed, received: nat -> Option<Byte>,
               others: Callbacks, ghost now: int)
    requires Wired(context, chip, tx, rx) && Roomy(context.Map(), tx, rx) && chip.Ready(now) && now <= e.clk
    requires Spaced(chip.sent) && InTime(chip, e.clk) && Fits(e.event, e.clk) && IsAccess(e.event)
    requires e.clk < NEVER && Forward(others, e.clk)
    modifies context, context.pending, context.Members(), chip
    ensures Wired(context, chip, tx, rx) && Roomy(context.Map(), tx, rx) && context.list == old(context.list)
    ensures chip.Ready(e.clk) && Spaced(chip.sent) && InTime(chip, e.clk)
    ensures chip.State() == Next(Next(old(chip.State()), TxDue, e.clk), e.event, e.clk)
  {
    hide AlarmContext.SlotsValid, AlarmContext.CacheValid, AlarmContext.ListValid, AlarmContext.Map, Acia.Ready,
      Spaced, Next, Acia.State, Mirrors, Roomy, Acia.Valid, Fits;
    LaterReady(chip, now, e.clk);
    ghost var m := context.Map();
    var log := Serve(context, chip, tx, rx, e.clk, received, others);
    FewerRoomy(m, context.Map(), tx, rx);
    LineFacts(chip, e.clk);
    StillSpaced(chip.State(), e.event, e.clk);
    chip.Happen(e.event, e.clk, e.clk);
    LineFacts(chip, e.clk);
    Rewire(context, chip, tx, rx);
  }

  lemma FewerRoomy(m: map<Alarm, Clock>, now: map<Alarm, Clock>, tx: Alarm, rx: Alarm)
    requires Roomy(m, tx, rx) && now.Keys <= m.Keys
    ensures Roomy(now, tx, rx)
  {
    Smaller(now.Keys - {tx, rx}, m.Keys - {tx, rx});
  }

  /** A program that works the chip, with every alarm fired by the scheduler and none by chance: the transmitter
      goes where the step function takes it with an alarm before each access, sends keep their distance, and no byte
      is lost exactly when every write then finds TDRE set. */
  method Operate(context: AlarmContext, chip: Acia, tx: Alarm, rx: Alarm, events: seq<Timed>, start: Clock,
                 received: nat -> Option<Byte>, others: nat -> Callbacks)
    requires Wired(context, chip, tx, rx) && Roomy(context.Map(), tx, rx) && chip.Ready(start) && Spaced(chip.sent)
    requires Timely(events, start) && chip.ticks <= SLOWEST && chip.ticksRx <= SLOWEST * 5 / 4
    requires forall i :: 0 <= i < |events| ==> Fits(events[i].event, events[i].clk) && IsAccess(events[i].event)
    requires forall i :: 0 <= i < |events| ==> Forward(others(i), events[i].clk)
    modifies context, context.pending, context.Members(), chip
    ensures Wired(context, chip, tx, rx) && Roomy(context.Map(), tx, rx)
    ensures chip.Ready(if events == [] then start else events[|events| - 1].clk) && Spaced(chip.sent)
    ensures chip.State() == After(old(chip.State()), Interleaved(events))
    ensures chip.Traffic() == old(chip.Traffic()) + Written(events) <==>
              Conforming(old(chip.State()), Interleaved(events))
  {
    hide AlarmContext.SlotsValid, AlarmContext.CacheValid, AlarmContext.ListValid, AlarmContext.Map, Acia.Ready,
      Spaced, Next, Acia.State, Mirrors, Roomy, Acia.Valid, Line.Traffic, Acia.Traffic, Conforming;
    ghost var now: int, line := start, chip.State();
    LineFacts(chip, start);
    for i := 0 to |events|
      invariant Wired(context, chip, tx, rx) && Roomy(context.Map(), tx, rx) && context.list == old(context.list)
      invariant chip.Ready(now) && Spaced(chip.sent) && now == (if i == 0 then start else events[i - 1].clk)
      invariant chip.ticks <= SLOWEST && chip.ticksRx <= SLOWEST * 5 / 4
      invariant chip.State() == After(line, Interleaved(events[..i]))
    {
      Touch(context, chip, tx, rx, events[i], received, others(i), now);
      assert events[..i + 1][..i] == events[..i];
      InterleavedMore(Interleaved(events[..i]), events[i]);
      now := events[i].clk;
    }
    assert events[..|events|] == events;
    LineFacts(chip, now);
    TrafficExactly(line, Interleaved(events));
    SameWrites(events);
  }
}
