/** The alarm scheduler: an unordered array of pending alarms with a cached minimum
    (core/vice-3.3/src/alarm.h, core/vice-3.3/src/alarm.c). */
module Alarm {

  const CLOCKS := 0x1_0000_0000
  const NEVER: Clock := 0xffff_ffff
  const MAX_PENDING := 0x100

  type Clock = c: int | 0 <= c < CLOCKS

  datatype Pending = Pending(alarm: Alarm?, clk: Clock)

  /** An alarm's back-pointer to its slot, and its links in the list of all alarms of its context. */
  class Alarm {
    const context: AlarmContext
    var pendingIdx: int
    var next: Alarm?
    var prev: Alarm?

    constructor (context: AlarmContext)
      ensures this.context == context && pendingIdx == -1 && next == null && prev == null
    {
      this.context := context;
      pendingIdx, next, prev := -1, null, null;
    }
  }

  class AlarmContext {
    const pending: array<Pending>
    var num: nat
    var nextClk: Clock
    var nextIdx: int
    var alarms: Alarm?
    /** the alarms of this context, in list order */
    ghost var list: seq<Alarm>

    /** Slots and back-pointers are inverse to each other, so no alarm has two slots. */
    ghost predicate SlotsValid()
      reads this`num, this`list, pending, list
    {
      && pending.Length == MAX_PENDING && num <= MAX_PENDING
      && (forall i {:trigger pending[i]} :: 0 <= i < num ==>
        pending[i].alarm != null && pending[i].alarm in list && pending[i].alarm.pendingIdx == i)
      && (forall a {:trigger a in list} :: a in list ==>
            a.context == this && -1 <= a.pendingIdx < num && (a.pendingIdx >= 0 ==> pending[a.pendingIdx].alarm == a))
    }

    /** The cached minimum is one, and its index attains it. */
    ghost predicate CacheValid()
      reads this`num, this`nextClk, this`nextIdx, pending
      requires pending.Length == MAX_PENDING && num <= MAX_PENDING
    {
      && (num == 0 ==> nextClk == NEVER)
      && (num > 0 ==> 0 <= nextIdx < num && nextClk == pending[nextIdx].clk)
      && forall i :: 0 <= i < num ==> nextClk <= pending[i].clk
    }

    /** The doubly linked list spells out `list`. */
    ghost predicate ListValid()
      reads this`list, this`alarms, list
    {
      && (forall i, j :: 0 <= i < j < |list| ==> list[i] != list[j])
      && alarms == (if list == [] then null else list[0])
      && (forall i {:trigger list[i].next} :: 0 <= i < |list| ==>
        list[i].next == if i + 1 < |list| then list[i + 1] else null)
      && (forall i {:trigger list[i].prev} :: 0 <= i < |list| ==> list[i].prev == if i > 0 then list[i - 1] else null)
    }

    ghost predicate Valid()
      reads this, pending, list
    {
      SlotsValid() && CacheValid() && ListValid()
    }

    /** What the context means: which alarms are pending, and when. */
    ghost function Map(): map<Alarm, Clock>
      reads this`num, this`list, pending, list
      requires SlotsValid()
    {
      map a | a in list && a.pendingIdx >= 0 :: pending[a.pendingIdx].clk
    }

    ghost function Members(): set<Alarm>
      reads this`list
    {
      set a | a in list
    }

    constructor ()
      ensures Valid() && fresh(pending) && list == [] && Map() == map[]
    {
      pending := new Pending[MAX_PENDING](_ => Pending(null, 0));
      num, nextClk, nextIdx, alarms, list := 0, NEVER, 0, null, [];
    }

    /** The scan; of several minima it takes the last. An empty scan leaves the index alone. */
    method UpdateNextPending()
      requires pending.Length == MAX_PENDING && num <= MAX_PENDING
      modifies this`nextClk, this`nextIdx
      ensures CacheValid()
    {
      var clk := NEVER;
      var idx := nextIdx;
      for i := 0 to num
        invariant i == 0 ==> clk == NEVER
        invariant i > 0 ==> 0 <= idx < i && clk == pending[idx].clk
        invariant forall j :: 0 <= j < i ==> clk <= pending[j].clk
      {
        if pending[i].clk <= clk {
          clk, idx := pending[i].clk, i;
        }
      }
      nextClk, nextIdx := clk, idx;
    }

    /** The first free slot for an alarm that has none. */
    method Append(alarm: Alarm, clk: Clock)
      requires Valid() && alarm in list && alarm.pendingIdx < 0 && num < MAX_PENDING && clk < NEVER
      modifies this`num, this`nextClk, this`nextIdx, pending, alarm`pendingIdx
      ensures Valid() && num == old(num) + 1 && alarm.pendingIdx == old(num)
      ensures pending[old(num)] == Pending(alarm, clk)
      ensures forall i :: 0 <= i < old(num) ==> pending[i] == old(pending[i])
    {
      var newIdx := num;
      assert forall i :: 0 <= i < num ==> pending[i].alarm != alarm;
      pending[newIdx] := Pending(alarm, clk);
      num := num + 1;
      if clk < nextClk {
        nextClk, nextIdx := clk, newIdx;
      }
      alarm.pendingIdx := newIdx;
    }

    /** A new clock for an alarm that has a slot. */
    method Change(alarm: Alarm, clk: Clock)
      requires Valid() && alarm in list && alarm.pendingIdx >= 0
      modifies this`nextClk, this`nextIdx, pending
      ensures Valid() && num == old(num)
      ensures pending[alarm.pendingIdx] == Pending(alarm, clk)
      ensures forall i :: 0 <= i < num && i != alarm.pendingIdx ==> pending[i] == old(pending[i])
    {
      var idx := alarm.pendingIdx;
      assert forall i :: 0 <= i < num && i != idx ==> pending[i].alarm != alarm;
      pending[idx] := Pending(alarm, clk);
      assert SlotsValid();
      if nextClk > clk || idx == nextIdx {
        UpdateNextPending();
      }
    }

    /** Add or move an alarm. With all slots taken an alarm that is not pending stays that way. */
    method Set(alarm: Alarm, clk: Clock) returns (ok: bool)
      requires Valid() && alarm in list && clk < NEVER
      modifies this`num, this`nextClk, this`nextIdx, pending, alarm`pendingIdx
      ensures Valid()
      ensures ok == (alarm in old(Map()) || old(num) < MAX_PENDING)
      ensures Map() == if ok then old(Map())[alarm := clk] else old(Map())
    {
      if alarm.pendingIdx < 0 {
        if num >= MAX_PENDING {
          return false;
        }
        Append(alarm, clk);
      } else {
        Change(alarm, clk);
      }
      ok := true;
    }

    /** Give up an alarm's slot, moving the last pending alarm into it. */
    method FreeSlot(alarm: Alarm)
      requires SlotsValid() && alarm in list && alarm.pendingIdx >= 0
      modifies this`num, pending, list
      ensures SlotsValid() && num == old(num) - 1 && alarm.pendingIdx == -1
      ensures forall i {:trigger pending[i]} :: 0 <= i < num ==>
              pending[i] == old(pending[if i == alarm.pendingIdx then num - 1 else i])
      ensures forall a {:trigger a in list} :: a in list && a != alarm ==>
                (a.pendingIdx >= 0) == (old(a.pendingIdx) >= 0) &&
                (a.pendingIdx >= 0 ==> pending[a.pendingIdx].clk == old(pending[a.pendingIdx].clk))
      ensures forall a :: a in list ==> a.next == old(a.next) && a.prev == old(a.prev)
    {
      var idx := alarm.pendingIdx;
      var last := num - 1;
      num := last;
      if last != idx {
        pending[idx] := pending[last];
        pending[idx].alarm.pendingIdx := idx;
      }
      alarm.pendingIdx := -1;
    }

    /** The cached index after the last alarm has moved into slot idx. */
    method RepairCache(idx: int, last: int)
      requires pending.Length == MAX_PENDING && num == last <= MAX_PENDING && 0 <= idx <= last && num > 0
      requires 0 <= nextIdx <= last
      requires nextIdx != idx && nextIdx < last ==> nextClk == pending[nextIdx].clk
      requires nextIdx != idx && nextIdx == last ==> nextClk == pending[idx].clk
      requires forall i :: 0 <= i < num ==> nextIdx == idx || nextClk <= pending[i].clk
      modifies this`nextClk, this`nextIdx
      ensures CacheValid()
    {
      if nextIdx == idx {
        UpdateNextPending();
      } else if nextIdx == last {
        nextIdx := idx;
      }
    }

    method UnsetPending(alarm: Alarm)
      requires SlotsValid() && CacheValid() && alarm in list && alarm.pendingIdx >= 0
      modifies this`num, this`nextClk, this`nextIdx, pending, list
      ensures SlotsValid() && CacheValid() && alarm.pendingIdx == -1
      ensures forall a {:trigger a in list} :: a in list && a != alarm ==>
                (a.pendingIdx >= 0) == (old(a.pendingIdx) >= 0) &&
                (a.pendingIdx >= 0 ==> pending[a.pendingIdx].clk == old(pending[a.pendingIdx].clk))
      ensures forall a :: a in list ==> a.next == old(a.next) && a.prev == old(a.prev)
    {
      var idx := alarm.pendingIdx;
      if num > 1 {
        var last := num - 1;
        FreeSlot(alarm);
        RepairCache(idx, last);
      } else {
        num, nextClk, nextIdx := 0, NEVER, -1;
        alarm.pendingIdx := -1;
      }
    }

    /** The map loses exactly that alarm. */
    method UnsetMapped(alarm: Alarm)
      requires SlotsValid() && CacheValid() && alarm in list
      modifies this`num, this`nextClk, this`nextIdx, pending, list
      ensures SlotsValid() && CacheValid() && alarm.pendingIdx == -1
      ensures Map() == old(Map()) - {alarm}
      ensures forall a :: a in list ==> a.next == old(a.next) && a.prev == old(a.prev)
    {
      if alarm.pendingIdx >= 0 {
        ghost var before := Map();
        UnsetPending(alarm);
        assert forall a :: a in list ==> (a in Map() <==> a in before && a != alarm);
        assert Map().Keys == before.Keys - {alarm};
      }
    }

    /** Remove an alarm from the pending ones. */
    method Unset(alarm: Alarm)
      requires Valid() && alarm in list
      modifies this`num, this`nextClk, this`nextIdx, pending, list
      ensures Valid() && alarm.pendingIdx == -1
      ensures Map() == old(Map()) - {alarm}
      ensures forall a :: a in list ==> a.next == old(a.next) && a.prev == old(a.prev)
    {
      UnsetMapped(alarm);
      assert ListValid();
    }

    // ----- time warp

    /** Shift every clock. The cached clock is shifted with them, even when nothing is pending. */
    method TimeWarp(amount: Clock, direction: int)
      requires Valid()
      modifies this`nextClk, pending
      ensures SlotsValid() && ListValid() && Map() == WarpedMap(old(Map()), amount, direction)
      ensures nextClk == Warped(old(nextClk), amount, direction)
      ensures Valid() <==> WarpKeeps(old(Map()), amount, direction)
    {
      assert direction == 0 ==> WarpedMap(Map(), amount, direction) == Map();
      if direction != 0 {
        KeepsAlike(amount, direction, pending[..num]);
        ShiftAll(amount, direction);
      }
    }

    method ShiftAll(amount: Clock, direction: int)
      requires SlotsValid() && CacheValid() && ListValid() && direction != 0
      modifies this`nextClk, pending
      ensures SlotsValid() && ListValid() && Map() == WarpedMap(old(Map()), amount, direction)
      ensures nextClk == Warped(old(nextClk), amount, direction)
      ensures CacheValid() <==> SlotsKeep(old(pending[..num]), amount, direction)
    {
      hide ListValid, Warped;
      ghost var slots := pending[..num];
      ShiftPending(amount, direction);
      ShiftCache(amount, direction, slots);
    }

    /** The cached clock is shifted like the others, whatever they wrap to. */
    method ShiftCache(amount: Clock, direction: int, ghost slots: seq<Pending>)
      requires SlotsSized() && |slots| == num && direction != 0
      requires forall i :: 0 <= i < num ==> pending[i].clk == Warped(slots[i].clk, amount, direction)
      requires if num == 0 then nextClk == NEVER else 0 <= nextIdx < num && nextClk == slots[nextIdx].clk
      requires forall i :: 0 <= i < num ==> nextClk <= slots[i].clk
      modifies this`nextClk
      ensures nextClk == Warped(old(nextClk), amount, direction)
      ensures CacheValid() <==> SlotsKeep(slots, amount, direction)
    {
      nextClk := if direction > 0 then (nextClk + amount) % CLOCKS else (nextClk - amount) % CLOCKS;
      if num > 0 {
        CacheAfterWarp(slots, nextIdx, amount, direction);
      }
    }

    lemma KeepsAlike(amount: Clock, direction: int, slots: seq<Pending>)
      requires SlotsValid() && direction != 0 && slots == pending[..num]
      ensures WarpKeeps(Map(), amount, direction) <==> SlotsKeep(slots, amount, direction)
    {
      SlotsOfMap(amount, direction, true, slots);
      SlotsOfMap(amount, direction, false, slots);
    }

    method ShiftPending(amount: Clock, direction: int)
      requires SlotsValid() && ListValid() && direction != 0
      modifies pending
      ensures SlotsValid() && ListValid() && Map() == WarpedMap(old(Map()), amount, direction)
      ensures forall i :: 0 <= i < num ==> pending[i].clk == Warped(old(pending[i].clk), amount, direction)
    {
      ghost var before := Map();
      ShiftSlots(amount, direction);
      assert ListValid();
      assert Map().Keys == before.Keys;
    }

    ghost predicate SlotsSized()
      reads this`num
    {
      pending.Length == MAX_PENDING && num <= MAX_PENDING
    }

    /** The map and the slots hold the same clocks. */
    lemma SlotsOfMap(amount: Clock, direction: int, w: bool, slots: seq<Pending>)
      requires SlotsValid() && slots == pending[..num]
      ensures Map() == map[] <==> slots == []
      ensures (forall a :: a in Map() ==> Wraps(Map()[a], amount, direction) == w)
         <==> (forall i :: 0 <= i < |slots| ==> Wraps(slots[i].clk, amount, direction) == w)
    {
      if num > 0 {
        assert pending[0].alarm in Map();
      }
      forall i | 0 <= i < num
        ensures pending[i].alarm in Map() && Map()[pending[i].alarm] == slots[i].clk
      {
        assert slots[i] == pending[i];
      }
      forall a | a in Map()
        ensures 0 <= a.pendingIdx < num && Map()[a] == slots[a.pendingIdx].clk
      {
      }
    }

    method ShiftSlots(amount: Clock, direction: int)
      requires pending.Length == MAX_PENDING && num <= MAX_PENDING && direction != 0
      modifies pending
      ensures forall i :: 0 <= i < num ==>
              pending[i] == Pending(old(pending[i]).alarm, Warped(old(pending[i]).clk, amount, direction))
    {
      for i := 0 to num
        invariant forall j :: 0 <= j < i ==>
                  pending[j] == Pending(old(pending[j]).alarm, Warped(old(pending[j]).clk, amount, direction))
        invariant forall j :: i <= j < num ==> pending[j] == old(pending[j])
      {
        if direction > 0 {
          pending[i] := pending[i].(clk := (pending[i].clk + amount) % CLOCKS);
        } else {
          pending[i] := pending[i].(clk := (pending[i].clk - amount) % CLOCKS);
        }
      }
    }

    // ----- the list of all alarms

    /** Put an alarm at the head of the list. */
    method Link(alarm: Alarm)
      requires ListValid() && alarm !in list
      modifies this`alarms, this`list, list, alarm
      ensures ListValid() && list == [alarm] + old(list)
      ensures alarm.pendingIdx == old(alarm.pendingIdx)
      ensures forall a :: a in old(list) ==> a.pendingIdx == old(a.pendingIdx)
    {
      alarm.next := alarms;
      if alarms != null {
        alarms.prev := alarm;
      }
      alarms := alarm;
      alarm.prev := null;
      list := [alarm] + list;
    }

    method NewAlarm() returns (alarm: Alarm)
      requires Valid()
      modifies this`alarms, this`list, list
      ensures Valid() && fresh(alarm) && alarm.context == this && list == [alarm] + old(list)
      ensures Map() == old(Map())
    {
      hide ListValid;
      ghost var before := Map();
      alarm := new Alarm(this);
      Link(alarm);
      assert SlotsValid();
      assert Map().Keys == before.Keys;
    }

    /** Take an alarm out of the list. */
    method Unlink(alarm: Alarm, ghost k: nat)
      requires ListValid() && k < |list| && list[k] == alarm
      modifies this`alarms, this`list, list
      ensures ListValid() && list == old(list)[..k] + old(list)[k + 1..]
      ensures forall a :: a in old(list) ==> a.pendingIdx == old(a.pendingIdx)
    {
      if alarm == alarms {
        alarms := alarm.next;
      }
      if alarm.next != null {
        alarm.next.prev := alarm.prev;
      }
      if alarm.prev != null {
        alarm.prev.next := alarm.next;
      }
      list := list[..k] + list[k + 1..];
    }

    lemma WithoutMembers(after: seq<Alarm>, before: seq<Alarm>, alarm: Alarm)
      requires Without(after, before, alarm) && forall i, j :: 0 <= i < j < |before| ==> before[i] != before[j]
      ensures forall a :: a in after <==> a in before && a != alarm
    {
      var k :| 0 <= k < |before| && before[k] == alarm && after == before[..k] + before[k + 1..];
      forall a | a in before && a != alarm
        ensures a in after
      {
        var i :| 0 <= i < |before| && before[i] == a;
        assert after[if i < k then i else i - 1] == a;
      }
    }

    /** Take an alarm out of the list, wherever it is. */
    method Delist(alarm: Alarm)
      requires ListValid() && alarm in list
      modifies this`alarms, this`list, list
      ensures ListValid() && Without(list, old(list), alarm)
      ensures forall a :: a in list <==> a in old(list) && a != alarm
      ensures forall a :: a in old(list) ==> a.pendingIdx == old(a.pendingIdx)
    {
      ghost var k :| 0 <= k < |list| && list[k] == alarm;
      ghost var before := list;
      Unlink(alarm, k);
      assert Without(list, before, alarm);
      WithoutMembers(list, before, alarm);
    }

    /** Unset an alarm and take it out of the list. */
    method Remove(alarm: Alarm)
      requires Valid() && alarm in list
      modifies this, pending, Members()
      ensures Valid() && Map() == old(Map()) - {alarm} && Without(list, old(list), alarm)
    {
      hide ListValid, Without;
      Unset(alarm);
      ghost var left := Map();
      Delist(alarm);
      assert SlotsValid();
      assert Map() == left;
    }

    /** Destroying no alarm is allowed. */
    method Destroy(alarm: Alarm?)
      requires Valid() && (alarm != null ==> alarm in list)
      modifies this, pending, Members()
      ensures Valid()
      ensures if alarm == null then list == old(list) && Map() == old(Map())
              else Without(list, old(list), alarm) && Map() == old(Map()) - {alarm}
    {
      if alarm != null {
        Remove(alarm);
      }
    }

    lemma WithoutHead(after: seq<Alarm>, before: seq<Alarm>)
      requires before != [] && Without(after, before, before[0]) && forall i, j :: 0 <= i < j < |before| ==>
               before[i] != before[j]
      ensures after == before[1..]
    {
    }

    /** Destroying the context destroys all its alarms, from the head of the list. */
    method DestroyAll()
      requires Valid()
      modifies this, pending, Members()
      ensures Valid() && list == [] && Map() == map[]
    {
      hide AlarmContext.SlotsValid, AlarmContext.CacheValid;
      var ap := alarms;
      ghost var gone: nat := 0;
      while ap != null
        invariant Valid() && ap == alarms && gone <= |old(list)| && list == old(list)[gone..]
        decreases |list|
      {
        var next := ap.next;
        ghost var before := list;
        assert Members() <= old(Members());
        Destroy(ap);
        WithoutHead(list, before);
        gone := gone + 1;
        ap := next;
      }
    }

    // ----- what the cache means, and whole runs

    /** The cached clock is the least pending one, the alarm in the cached slot has it, and with
        nothing pending it is the sentinel. */
    lemma NextIsLeast()
      requires Valid()
      ensures forall a :: a in Map() ==> nextClk <= Map()[a]
      ensures Map() == map[] ==> nextClk == NEVER
      ensures Map() != map[] ==>
              0 <= nextIdx < num && pending[nextIdx].alarm in Map() && Map()[pending[nextIdx].alarm] == nextClk
    {
      SlotsOfMap(0, 0, true, pending[..num]);
    }

    /** As many alarms are pending as slots are in use. */
    lemma MapSize()
      requires Valid()
      ensures |Map()| == num
    {
      SlotCount(num);
      assert Map().Keys == set a | a in list && 0 <= a.pendingIdx < num;
    }

    lemma SlotCount(n: nat)
      requires SlotsValid() && n <= num
      ensures |set a | a in list && 0 <= a.pendingIdx < n| == n
    {
      var s := set a | a in list && 0 <= a.pendingIdx < n;
      if n > 0 {
        SlotCount(n - 1);
        var last: Alarm := pending[n - 1].alarm;
        assert s == (set a | a in list && 0 <= a.pendingIdx < n - 1) + {last};
      } else {
        assert s == {};
      }
    }

    /** Carry out one operation. */
    method Perform(op: Op)
      requires Valid() && Allowed(op, list, Map())
      modifies this, pending, Members()
      ensures Valid() && Map() == Applied(old(Map()), op) && list == Remaining(old(list), op)
    {
      match op
      case SetAt(a, clk) =>
        MapSize();
        var ok := Set(a, clk);
      case Cancel(a) => Unset(a);
      case Warp(amount, direction) => TimeWarp(amount, direction);
      case Forget(a) =>
        ghost var before := list;
        Remove(a);
        RemainingIs(list, before, a);
    }

    /** Whatever the run, the context stands for the map the operations describe. */
    method Replay(ops: seq<Op>)
      requires Valid() && AllowedAll(ops, list, Map())
      modifies this, pending, Members()
      ensures Valid() && Map() == AppliedAll(old(Map()), ops)
    {
      for i := 0 to |ops|
        invariant Valid() && AllowedAll(ops[i..], list, Map())
        invariant Members() <= old(Members())
        invariant AppliedAll(Map(), ops[i..]) == AppliedAll(old(Map()), ops)
      {
        DroppedSubset(list, ops[i]);
        assert ops[i..][0] == ops[i] && ops[i..][1..] == ops[i + 1..];
        Perform(ops[i]);
      }
    }

  }

  /** The operations of a run; new alarms aside, these are all there are. */
  datatype Op = SetAt(alarm: Alarm, clk: Clock) | Cancel(alarm: Alarm) | Warp(amount: Clock,
    direction: int) | Forget(alarm: Alarm)

  function Warped(c: Clock, amount: Clock, direction: int): Clock {
    if direction > 0 then (c + amount) % CLOCKS else if direction < 0 then (c - amount) % CLOCKS else c
  }

  /** What an operation needs: its alarm still exists, the clock is not the sentinel, a slot is free,
      and a warp does not split the pending clocks at the wrap. */
  ghost predicate Allowed(op: Op, list: seq<Alarm>, m: map<Alarm, Clock>) {
    match op
    case SetAt(a, clk) => a in list && clk < NEVER && (a in m || |m| < MAX_PENDING)
    case Cancel(a) => a in list
    case Warp(amount, direction) => WarpKeeps(m, amount, direction)
    case Forget(a) => a in list
  }

  function Applied(m: map<Alarm, Clock>, op: Op): map<Alarm, Clock> {
    match op
    case SetAt(a, clk) => m[a := clk]
    case Cancel(a) => m - {a}
    case Warp(amount, direction) => WarpedMap(m, amount, direction)
    case Forget(a) => m - {a}
  }

  function Dropped(list: seq<Alarm>, a: Alarm): seq<Alarm> {
    if list == [] then [] else if list[0] == a then list[1..] else [list[0]] + Dropped(list[1..], a)
  }

  function Remaining(list: seq<Alarm>, op: Op): seq<Alarm> {
    if op.Forget? then Dropped(list, op.alarm) else list
  }

  lemma {:induction false} DroppedSubset(list: seq<Alarm>, op: Op)
    ensures forall x :: x in Remaining(list, op) ==> x in list
    decreases list
  {
    if op.Forget? && list != [] {
      assert list == [list[0]] + list[1..];
      DroppedSubset(list[1..], op);
    }
  }

  function AppliedAll(m: map<Alarm, Clock>, ops: seq<Op>): map<Alarm, Clock>
    decreases ops
  {
    if ops == [] then m else AppliedAll(Applied(m, ops[0]), ops[1..])
  }

  ghost predicate AllowedAll(ops: seq<Op>, list: seq<Alarm>, m: map<Alarm, Clock>)
    decreases ops
  {
    ops == [] || (Allowed(ops[0], list, m) && AllowedAll(ops[1..], Remaining(list, ops[0]), Applied(m, ops[0])))
  }

  ghost predicate Without(after: seq<Alarm>, before: seq<Alarm>, alarm: Alarm)
  {
    exists k :: 0 <= k < |before| && before[k] == alarm && after == before[..k] + before[k + 1..]
  }

  lemma {:induction false} DroppedAt(list: seq<Alarm>, k: nat)
    requires k < |list| && forall i :: 0 <= i < k ==> list[i] != list[k]
    ensures Dropped(list, list[k]) == list[..k] + list[k + 1..]
  {
    if k > 0 {
      assert list[1..][k - 1] == list[k] && forall i :: 0 <= i < k - 1 ==> list[1..][i] == list[i + 1];
      DroppedAt(list[1..], k - 1);
      assert list[1..][..k - 1] == list[1..k] && list[1..][k..] == list[k + 1..];
    }
  }

  lemma RemainingIs(after: seq<Alarm>, before: seq<Alarm>, a: Alarm)
    requires Without(after, before, a) && forall i, j :: 0 <= i < j < |before| ==> before[i] != before[j]
    ensures after == Dropped(before, a)
  {
    var k :| 0 <= k < |before| && before[k] == a && after == before[..k] + before[k + 1..];
    DroppedAt(before, k);
  }

  function WarpedMap(m: map<Alarm, Clock>, amount: Clock, direction: int): map<Alarm, Clock> {
    map a | a in m :: Warped(m[a], amount, direction)
  }

  /** The shift leaves the range of a clock. */
  predicate Wraps(c: Clock, amount: Clock, direction: int) {
    if direction > 0 then c + amount >= CLOCKS else direction < 0 && c < amount
  }

  /** A warp keeps the cache right exactly when it does nothing, or something is pending and
      either no pending clock wraps or all of them do. */
  ghost predicate WarpKeeps(m: map<Alarm, Clock>, amount: Clock, direction: int) {
    direction == 0 || amount == 0 ||
    (m != map[] && ((forall a :: a in m ==> Wraps(m[a], amount, direction) == false)
                  || (forall a :: a in m ==> Wraps(m[a], amount, direction) == true)))
  }

  /** The same over the slots in use. */
  ghost predicate SlotsKeep(slots: seq<Pending>, amount: Clock, direction: int) {
    amount == 0 ||
    (slots != [] && ((forall i :: 0 <= i < |slots| ==> Wraps(slots[i].clk, amount, direction) == false)
                     || (forall i :: 0 <= i < |slots| ==> Wraps(slots[i].clk, amount, direction) == true)))
  }

  /** The least clock stays least exactly when all clocks wrap or none does. */
  lemma CacheAfterWarp(slots: seq<Pending>, least: int, amount: Clock, direction: int)
    requires 0 <= least < |slots| && forall i :: 0 <= i < |slots| ==> slots[least].clk <= slots[i].clk
    ensures (forall i :: 0 <= i < |slots| ==>
            Warped(slots[least].clk, amount, direction) <= Warped(slots[i].clk, amount, direction))
       <==> SlotsKeep(slots, amount, direction)
  {
    forall i | 0 <= i < |slots|
      ensures Warped(slots[least].clk, amount, direction) <= Warped(slots[i].clk, amount, direction)
         <==> Wraps(slots[least].clk, amount, direction) == Wraps(slots[i].clk, amount, direction)
    {
      WarpOrder(slots[least].clk, slots[i].clk, amount, direction);
    }
  }

  /** Shifts that wrap alike keep the order; shifts that wrap differently put the wrapping clock below. */
  lemma WarpOrder(c: Clock, d: Clock, amount: Clock, direction: int)
    requires c <= d
    ensures Warped(c, amount, direction) <= Warped(d, amount, direction) <==>
            Wraps(c, amount, direction) == Wraps(d, amount, direction)
    ensures direction > 0 && Wraps(c, amount, direction) ==> Wraps(d, amount, direction)
    ensures direction < 0 && Wraps(d, amount, direction) ==> Wraps(c, amount, direction)
  {
  }
}
