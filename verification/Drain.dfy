/** The loop that fires every alarm that has come due (core/vice-3.3/src/6510core.c,
    core/vice-3.3/src/alarm.h). */
module Drain {
  import opened Alarm

  /** What a callback does with its own alarm: let it go, or set it again. */
  datatype Reaction = Drop | Again(clk: Clock)

  /** One dispatch: the alarm, the clock it was set for, and how late it is. */
  datatype Fired = Fired(alarm: Alarm, due: Clock, offset: Clock)

  /** What the k-th callback of the loop does. As this may be any sequence, callbacks may decide
      by anything they like. */
  type Callbacks = nat -> Reaction

  /** A callback that sets its alarm again sets it later than now. */
  ghost predicate Forward(callbacks: Callbacks, clk: Clock) {
    forall k: nat :: callbacks(k).Again? ==> clk < callbacks(k).clk < NEVER
  }

  /** The alarms due at a clock. */
  function Due(m: map<Alarm, Clock>, clk: Clock): set<Alarm> {
    set a | a in m && m[a] <= clk
  }

  /** Who the first n dispatches fired. */
  function FiredBy(log: seq<Fired>, n: nat): set<Alarm>
    requires n <= |log|
  {
    if n == 0 then {} else FiredBy(log, n - 1) + {log[n - 1].alarm}
  }

  function FiredAlarms(log: seq<Fired>): set<Alarm> {
    FiredBy(log, |log|)
  }

  /** Each entry has the clock its alarm was set for and the right lateness, no alarm fires twice,
      and they fire in clock order. */
  ghost predicate InOrder(log: seq<Fired>, m: map<Alarm, Clock>, clk: Clock) {
    && (forall i :: 0 <= i < |log| ==>
          log[i].alarm in m && m[log[i].alarm] == log[i].due <= clk && log[i].offset == clk - log[i].due)
    && (forall i, j :: 0 <= i < j < |log| ==> log[i].alarm != log[j].alarm && log[i].due <= log[j].due)
  }

  /** Alarms not fired are as they were; a fired one is where its callback put it. */
  ghost predicate Rest(log: seq<Fired>, m: map<Alarm, Clock>, now: map<Alarm, Clock>, callbacks: Callbacks) {
    && (forall a :: a in m && a !in FiredAlarms(log) ==> a in now && now[a] == m[a])
    && (forall a :: a in now ==> a in m)
    && (forall i :: 0 <= i < |log| ==>
          (log[i].alarm in now <==> callbacks(i).Again?) &&
            (callbacks(i).Again? ==> now[log[i].alarm] == callbacks(i).clk))
  }

  function React(m: map<Alarm, Clock>, alarm: Alarm, r: Reaction): map<Alarm, Clock> {
    if r.Again? then m[alarm := r.clk] else m - {alarm}
  }

  /** The alarm the context will fire next. */
  ghost predicate IsNext(context: AlarmContext, alarm: Alarm)
    reads context, context.pending
  {
    0 <= context.nextIdx < context.pending.Length && context.pending[context.nextIdx].alarm == alarm
  }

  /** Fire the next alarm: its callback sees the lateness and does one thing to that alarm. */
  method Dispatch(context: AlarmContext, clk: Clock, r: Reaction) returns (f: Fired)
    requires context.Valid() && context.nextClk <= clk < NEVER && (r.Again? ==> r.clk < NEVER)
    modifies context, context.pending, context.Members()
    ensures context.Valid() && context.list == old(context.list)
    ensures f.alarm in old(context.Map()) && old(context.Map())[f.alarm] == f.due == old(context.nextClk) &&
            f.offset == clk - f.due
    ensures old(IsNext(context, f.alarm))
    ensures context.Map() == React(old(context.Map()), f.alarm, r)
  {
    hide AlarmContext.CacheValid, AlarmContext.ListValid;
    context.NextIsLeast();
    var offset := (clk - context.nextClk) % CLOCKS;
    var alarm := context.pending[context.nextIdx].alarm;
    f := Fired(alarm, context.nextClk, offset);
    match r
    case Drop => context.Unset(alarm);
    case Again(t) => var ok := context.Set(alarm, t);
  }

  /** The loop's invariant. */
  ghost predicate Going(log: seq<Fired>, m: map<Alarm, Clock>, now: map<Alarm, Clock>, callbacks: Callbacks,
                        clk: Clock) {
    && InOrder(log, m, clk) && Rest(log, m, now, callbacks)
    && (log != [] ==> forall a :: a in m && a !in FiredAlarms(log) ==> log[|log| - 1].due <= m[a])
  }

  lemma {:induction false} FiredIn(log: seq<Fired>, i: nat, n: nat)
    requires i < n <= |log|
    ensures log[i].alarm in FiredBy(log, n)
  {
    if i < n - 1 {
      FiredIn(log, i, n - 1);
    }
  }

  /** Everyone fired was due, and as many were fired as there are entries. */
  lemma {:induction false} FiredCount(log: seq<Fired>, n: nat, m: map<Alarm, Clock>, clk: Clock)
    requires InOrder(log, m, clk) && n <= |log|
    ensures FiredBy(log, n) <= Due(m, clk) && |FiredBy(log, n)| == n
    ensures forall i :: n <= i < |log| ==> log[i].alarm !in FiredBy(log, n)
  {
    if n > 0 {
      FiredCount(log, n - 1, m, clk);
    }
  }

  lemma {:induction false} FiredAppend(log: seq<Fired>, f: Fired, n: nat)
    requires n <= |log|
    ensures FiredBy(log + [f], n) == FiredBy(log, n)
  {
    if n > 0 {
      FiredAppend(log, f, n - 1);
    }
  }

  lemma FiredOneMore(log: seq<Fired>, f: Fired)
    ensures FiredAlarms(log + [f]) == FiredAlarms(log) + {f.alarm}
  {
    FiredAppend(log, f, |log|);
  }

  /** An alarm that is due now has not been fired yet. */
  lemma NotYet(log: seq<Fired>, alarm: Alarm, m: map<Alarm, Clock>, now: map<Alarm, Clock>,
               callbacks: Callbacks, clk: Clock)
    requires Rest(log, m, now, callbacks) && Forward(callbacks, clk) && alarm in now && now[alarm] <= clk
    ensures forall i :: 0 <= i < |log| ==> log[i].alarm != alarm
    ensures alarm !in FiredAlarms(log) && alarm in m && m[alarm] == now[alarm]
  {
    forall i | 0 <= i < |log|
      ensures log[i].alarm != alarm
    {
      assert callbacks(i).Again? ==> clk < callbacks(i).clk;
    }
    NotFired(log, |log|, alarm);
  }

  lemma {:induction false} NotFired(log: seq<Fired>, n: nat, alarm: Alarm)
    requires n <= |log| && forall i :: 0 <= i < n ==> log[i].alarm != alarm
    ensures alarm !in FiredBy(log, n)
  {
    if n > 0 {
      NotFired(log, n - 1, alarm);
    }
  }

  lemma OrderGrows(log: seq<Fired>, f: Fired, m: map<Alarm, Clock>, clk: Clock)
    requires InOrder(log, m, clk) && f.alarm in m && m[f.alarm] == f.due <= clk && f.offset == clk - f.due
    requires forall i :: 0 <= i < |log| ==> log[i].alarm != f.alarm
    requires log != [] ==> log[|log| - 1].due <= f.due
    ensures InOrder(log + [f], m, clk)
  {
  }

  lemma RestGrows(log: seq<Fired>, f: Fired, m: map<Alarm, Clock>, now: map<Alarm, Clock>, callbacks: Callbacks)
    requires Rest(log, m, now, callbacks) && f.alarm in m
    requires forall i :: 0 <= i < |log| ==> log[i].alarm != f.alarm
    ensures Rest(log + [f], m, React(now, f.alarm, callbacks(|log|)), callbacks)
  {
    FiredOneMore(log, f);
  }

  /** One more alarm fired. */
  lemma OneMore(log: seq<Fired>, f: Fired, m: map<Alarm, Clock>, now: map<Alarm, Clock>, callbacks: Callbacks,
                clk: Clock)
    requires Going(log, m, now, callbacks, clk) && Forward(callbacks, clk)
    requires f.alarm in now && now[f.alarm] == f.due <= clk && f.offset == clk - f.due
    requires forall a :: a in now ==> f.due <= now[a]
    ensures Going(log + [f], m, React(now, f.alarm, callbacks(|log|)), callbacks, clk)
    ensures f.alarm !in FiredAlarms(log) && f.alarm in Due(m, clk)
  {
    NotYet(log, f.alarm, m, now, callbacks, clk);
    OrderGrows(log, f, m, clk);
    RestGrows(log, f, m, now, callbacks);
    FiredOneMore(log, f);
  }

  /** The loop ends with nothing due: every alarm that was due has fired, once, in clock order, and each
      of them is where its callback put it, later than now; the others are untouched. */
  method ProcessAlarms(context: AlarmContext, clk: Clock, callbacks: Callbacks) returns (log: seq<Fired>)
    requires context.Valid() && clk < NEVER && Forward(callbacks, clk)
    modifies context, context.pending, context.Members()
    ensures context.Valid() && context.list == old(context.list)
    ensures InOrder(log, old(context.Map()), clk) && FiredAlarms(log) == Due(old(context.Map()), clk)
    ensures |log| == |Due(old(context.Map()), clk)|
    ensures Rest(log, old(context.Map()), context.Map(), callbacks)
    ensures forall a :: a in context.Map() ==> clk < context.Map()[a]
  {
    log := [];
    ghost var m := context.Map();
    while clk >= context.nextClk
      invariant context.Valid() && context.list == old(context.list)
      invariant Going(log, m, context.Map(), callbacks, clk)
      decreases |Due(m, clk)| - |log|
    {
      ghost var now := context.Map();
      context.NextIsLeast();
      var f := Dispatch(context, clk, callbacks(|log|));
      OneMore(log, f, m, now, callbacks, clk);
      Room(log, f, m, clk);
      log := log + [f];
    }
    context.NextIsLeast();
    AllFired(log, m, context.Map(), callbacks, clk);
  }

  lemma Room(log: seq<Fired>, f: Fired, m: map<Alarm, Clock>, clk: Clock)
    requires InOrder(log, m, clk) && f.alarm !in FiredAlarms(log) && f.alarm in Due(m, clk)
    ensures |log| < |Due(m, clk)|
  {
    FiredCount(log, |log|, m, clk);
    Smaller(FiredAlarms(log) + {f.alarm}, Due(m, clk));
  }

  lemma {:induction false} Smaller<T>(a: set<T>, b: set<T>)
    requires a <= b
    ensures |a| <= |b| && (|a| == |b| ==> a == b)
  {
    assert b == a + (b - a) && a !! (b - a);
    assert |b| == |a| + |b - a|;
  }

  lemma AllFired(log: seq<Fired>, m: map<Alarm, Clock>, now: map<Alarm, Clock>, callbacks: Callbacks, clk: Clock)
    requires Going(log, m, now, callbacks, clk) && forall a :: a in now ==> clk < now[a]
    ensures FiredAlarms(log) == Due(m, clk) && |log| == |Due(m, clk)|
  {
    FiredCount(log, |log|, m, clk);
  }
}
