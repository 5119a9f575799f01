/** The memory budget: a counter changed by compare-and-swap, a reserve for the
    frontier, and waiters that register, re-check and only then park.  Tasks
    interleave at every atomic operation. */
module Budget {
  import opened Basics

  datatype Class = Frontier | Speculative

  /** Where a task is inside `acquire_classed`.  From `Recheck` on it has a listener. */
  datatype Pc = Load | Swap(seen: nat) | Listen | Recheck | Parked

  datatype Waiter = Waiter(bytes: nat, class_: Class, limit: nat, pc: Pc, notified: bool)

  datatype Permit = Permit(bytes: nat, class_: Class)

  /** A dropped permit stays as `Gone`, so permit numbers are never reused. */
  datatype Slot = Held(permit: Permit) | Gone

  /** `handles` are the payload handles sharing a permit; `releasing` counts drops that
      have subtracted their bytes and not yet notified. */
  datatype State = State(limit: nat, reserve: nat, used: nat, waiters: map<nat, Waiter>,
                         slots: seq<Slot>, handles: map<nat, nat>, releasing: nat)

  function Usable(s: State): nat { Minus(s.limit, s.reserve) }

  /** What this request may fill the budget up to; an oversized speculative request is
      upgraded to its own size. */
  function EffectiveLimit(s: State, bytes: nat, class_: Class): nat {
    if class_.Frontier? then s.limit
    else if bytes > Usable(s) then bytes
    else Usable(s)
  }

  predicate Fits(w: Waiter, used: nat) { w.bytes <= Minus(w.limit, used) }

  predicate Registered(w: Waiter) { w.pc.Recheck? || w.pc.Parked? }

  // ---------------------------------------------------------------- atomic steps

  datatype Step =
    | Begin(task: nat, bytes: nat, class_: Class)
    | DoLoad(task: nat)
    | DoSwap(task: nat, spurious: bool, handle: nat)
    | DoListen(task: nat)
    | DoRecheck(task: nat)
    | Wake(task: nat)
    | Cancel(task: nat)
    | Share(handle: nat, copy: nat)
    | DropHandle(handle: nat)
    | Notify

  function SetPc(s: State, t: nat, pc: Pc): State
    requires t in s.waiters
  {
    s.(waiters := s.waiters[t := s.waiters[t].(pc := pc)])
  }

  predicate Enabled(s: State, a: Step) {
    match a
    case Begin(t, _, _) => t !in s.waiters
    case DoLoad(t) => t in s.waiters && s.waiters[t].pc.Load?
    case DoSwap(t, _, h) => t in s.waiters && s.waiters[t].pc.Swap? && h !in s.handles
    case DoListen(t) => t in s.waiters && s.waiters[t].pc.Listen?
    case DoRecheck(t) => t in s.waiters && s.waiters[t].pc.Recheck?
    case Wake(t) => t in s.waiters && s.waiters[t].pc.Parked? && s.waiters[t].notified
    case Cancel(t) => t in s.waiters
    case Share(h, c) => h in s.handles && c !in s.handles
    case DropHandle(h) => h in s.handles && s.handles[h] < |s.slots| && s.slots[s.handles[h]].Held?
    case Notify => s.releasing > 0
  }

  function Apply(s: State, a: Step): State
    requires Enabled(s, a)
  {
    match a
    case Begin(t, bytes, class_) =>
      // larger than the budget is refused before anything is touched
      if bytes > s.limit then s
      else s.(waiters := s.waiters[t := Waiter(bytes, class_, EffectiveLimit(s, bytes, class_), Load, false)])
    case DoLoad(t) => SetPc(s, t, if Fits(s.waiters[t], s.used) then Swap(s.used) else Listen)
    case DoSwap(t, spurious, h) =>
      var w := s.waiters[t];
      if s.used == w.pc.seen && !spurious
      then s.(used := s.used + w.bytes, waiters := s.waiters - {t},
              slots := s.slots + [Held(Permit(w.bytes, w.class_))], handles := s.handles[h := |s.slots|])
      else SetPc(s, t, Listen)
    case DoListen(t) => s.(waiters := s.waiters[t := s.waiters[t].(pc := Recheck, notified := false)])
    case DoRecheck(t) => SetPc(s, t, if Fits(s.waiters[t], s.used) then Load else Parked)
    case Wake(t) => SetPc(s, t, Load)
    case Cancel(t) => s.(waiters := s.waiters - {t})
    case Share(h, c) => s.(handles := s.handles[c := s.handles[h]])
    case DropHandle(h) =>
      var p := s.handles[h];
      var rest := s.handles - {h};
      if exists o :: o in rest && rest[o] == p then s.(handles := rest)
      else s.(handles := rest, slots := s.slots[p := Gone],
              used := Minus(s.used, s.slots[p].permit.bytes), releasing := s.releasing + 1)
    case Notify =>
      s.(releasing := s.releasing - 1,
         waiters := map t | t in s.waiters ::
           if Registered(s.waiters[t]) then s.waiters[t].(notified := true) else s.waiters[t])
  }

  // ---------------------------------------------------------------- sums over permits

  function Sum(slots: seq<Slot>): nat {
    if slots == [] then 0
    else
      var last := slots[|slots| - 1];
      Sum(slots[..|slots| - 1]) + (if last.Held? then last.permit.bytes else 0)
  }

  /** Speculative permits that were admitted inside the non-reserve area. */
  predicate Modest(slot: Slot, usable: nat) {
    slot.Held? && slot.permit.class_.Speculative? && slot.permit.bytes <= usable
  }

  function ModestSum(slots: seq<Slot>, usable: nat): nat {
    if slots == [] then 0
    else
      var last := slots[|slots| - 1];
      ModestSum(slots[..|slots| - 1], usable) + (if Modest(last, usable) then last.permit.bytes else 0)
  }

  lemma SumAppend(slots: seq<Slot>, x: Slot, usable: nat)
    ensures Sum(slots + [x]) == Sum(slots) + (if x.Held? then x.permit.bytes else 0)
    ensures ModestSum(slots + [x], usable) == ModestSum(slots, usable) + (if Modest(x, usable) then x.permit.bytes else 0)
  {
    assert (slots + [x])[..|slots|] == slots;
  }

  lemma {:induction false} SumDrop(slots: seq<Slot>, p: nat, usable: nat)
    requires p < |slots| && slots[p].Held?
    ensures Sum(slots) == Sum(slots[p := Gone]) + slots[p].permit.bytes
    ensures ModestSum(slots[p := Gone], usable) <= ModestSum(slots, usable)
  {
    var n := |slots| - 1;
    if p == n {
      assert slots[p := Gone][..n] == slots[..n];
    } else {
      SumDrop(slots[..n], p, usable);
      assert slots[p := Gone][..n] == slots[..n][p := Gone];
    }
  }

  lemma {:induction false} ModestAtMostAll(slots: seq<Slot>, usable: nat)
    ensures ModestSum(slots, usable) <= Sum(slots)
    ensures (forall i :: 0 <= i < |slots| && slots[i].Held? ==> Modest(slots[i], usable)) ==>
              ModestSum(slots, usable) == Sum(slots)
  {
    if slots != [] {
      ModestAtMostAll(slots[..|slots| - 1], usable);
    }
  }

  // ---------------------------------------------------------------- the invariant

  /** A parked waiter that nobody has notified could not be satisfied, unless a drop is
      between its subtract and its notify. */
  predicate NoLostWakeup(s: State) {
    forall t :: t in s.waiters && s.waiters[t].pc.Parked? && !s.waiters[t].notified ==>
      !Fits(s.waiters[t], s.used) || s.releasing > 0
  }

  predicate WaitersOk(s: State) {
    forall t :: t in s.waiters ==>
      var w := s.waiters[t];
      && w.bytes <= w.limit <= s.limit
      && (w.class_.Speculative? && w.bytes <= Usable(s) ==> w.limit <= Usable(s))
      && (w.pc.Swap? && w.bytes > 0 ==> w.pc.seen + w.bytes <= w.limit)
  }

  /** Every handle refers to a held permit and every held permit has a handle. */
  predicate HandlesOk(s: State) {
    && (forall h :: h in s.handles ==> s.handles[h] < |s.slots| && s.slots[s.handles[h]].Held?)
    && (forall p :: 0 <= p < |s.slots| && s.slots[p].Held? ==> exists h :: h in s.handles && s.handles[h] == p)
  }

  predicate Inv(s: State) {
    && s.reserve <= s.limit
    && s.used == Sum(s.slots) && s.used <= s.limit
    && ModestSum(s.slots, Usable(s)) <= Usable(s)
    && WaitersOk(s) && HandlesOk(s) && NoLostWakeup(s)
  }

  /** `with_reserve`. */
  function Fresh(limit: nat, reserve: nat): State {
    State(if limit < 1 then 1 else limit, if reserve < limit then reserve else limit, 0, map[], [], map[], 0)
  }

  lemma FreshInv(limit: nat, reserve: nat)
    ensures Inv(Fresh(limit, reserve))
  {}

  lemma SwapInv(s: State, t: nat, spurious: bool, h: nat)
    requires Inv(s) && Enabled(s, DoSwap(t, spurious, h))
    ensures Inv(Apply(s, DoSwap(t, spurious, h)))
  {
    if s.used == s.waiters[t].pc.seen && !spurious {
      SwapDone(s, t, spurious, h);
    } else {
      PcWakeups(s, t, Listen);
      OnlyWaiters(s, SetPc(s, t, Listen));
    }
  }

  lemma SwapDone(s: State, t: nat, spurious: bool, h: nat)
    requires Inv(s) && Enabled(s, DoSwap(t, spurious, h)) && s.used == s.waiters[t].pc.seen && !spurious
    ensures Inv(Apply(s, DoSwap(t, spurious, h)))
  {
    var s' := Apply(s, DoSwap(t, spurious, h));
    SwapSums(s, s.waiters[t]);
    SwapWaiters(s, s', t);
    SwapHandles(s, s', h);
  }

  /** A task that goes on, and does not park, changes nothing for the others. */
  lemma PcWakeups(s: State, t: nat, pc: Pc)
    requires WaitersOk(s) && NoLostWakeup(s) && t in s.waiters
    requires pc.Swap? ==> s.waiters[t].bytes == 0 || pc.seen + s.waiters[t].bytes <= s.waiters[t].limit
    requires pc.Parked? ==> !Fits(s.waiters[t], s.used)
    ensures WaitersOk(SetPc(s, t, pc)) && NoLostWakeup(SetPc(s, t, pc))
  {}

  lemma SwapSums(s: State, w: Waiter)
    requires Inv(s) && w.bytes <= w.limit <= s.limit && (w.bytes > 0 ==> s.used + w.bytes <= w.limit)
    requires w.class_.Speculative? && w.bytes <= Usable(s) ==> w.limit <= Usable(s)
    ensures var slots := s.slots + [Held(Permit(w.bytes, w.class_))];
            Sum(slots) == s.used + w.bytes <= s.limit && ModestSum(slots, Usable(s)) <= Usable(s)
  {
    SumAppend(s.slots, Held(Permit(w.bytes, w.class_)), Usable(s));
    ModestAtMostAll(s.slots, Usable(s));
  }

  lemma SwapWaiters(s: State, s': State, t: nat)
    requires WaitersOk(s) && NoLostWakeup(s) && s'.waiters == s.waiters - {t}
    requires s'.limit == s.limit && s'.reserve == s.reserve && s'.used >= s.used && s'.releasing == s.releasing
    ensures WaitersOk(s') && NoLostWakeup(s')
  {}

  lemma OnlyWaiters(s: State, s': State)
    requires Inv(s) && s' == s.(waiters := s'.waiters, releasing := s'.releasing)
    requires WaitersOk(s') && NoLostWakeup(s')
    ensures Inv(s')
  {}

  lemma SwapHandles(s: State, s': State, h: nat)
    requires HandlesOk(s) && h !in s.handles && |s'.slots| == |s.slots| + 1
    requires s'.slots[..|s.slots|] == s.slots && s'.slots[|s.slots|].Held?
    requires s'.handles == s.handles[h := |s.slots|]
    ensures HandlesOk(s')
  {
    forall p | 0 <= p < |s'.slots| && s'.slots[p].Held? ensures exists g :: g in s'.handles && s'.handles[g] == p {
      if p < |s.slots| {
        assert s.slots[p] == s'.slots[..|s.slots|][p];
        var g :| g in s.handles && s.handles[g] == p;
        assert s'.handles[g] == p;
      } else {
        assert s'.handles[h] == p;
      }
    }
    forall g | g in s'.handles ensures s'.handles[g] < |s'.slots| && s'.slots[s'.handles[g]].Held? {
      if g != h { assert s'.slots[..|s.slots|][s.handles[g]] == s.slots[s.handles[g]]; }
    }
  }

  lemma DropInv(s: State, h: nat)
    requires Inv(s) && Enabled(s, DropHandle(h))
    ensures Inv(Apply(s, DropHandle(h)))
  {
    var s' := Apply(s, DropHandle(h));
    var p, rest := s.handles[h], s.handles - {h};
    SumDrop(s.slots, p, Usable(s));
    DropHandles(s, s', h);
  }

  lemma DropHandles(s: State, s': State, h: nat)
    requires HandlesOk(s) && h in s.handles && s'.handles == s.handles - {h}
    requires if exists o :: o in s'.handles && s'.handles[o] == s.handles[h]
             then s'.slots == s.slots else s'.slots == s.slots[s.handles[h] := Gone]
    ensures HandlesOk(s')
  {
    forall q | 0 <= q < |s'.slots| && s'.slots[q].Held? ensures exists g :: g in s'.handles && s'.handles[g] == q {
      var g :| g in s.handles && s.handles[g] == q;
      if g != h { assert s'.handles[g] == q; }
    }
  }

  lemma ShareInv(s: State, h: nat, c: nat)
    requires Inv(s) && Enabled(s, Share(h, c))
    ensures Inv(Apply(s, Share(h, c)))
  {
    var s' := Apply(s, Share(h, c));
    forall p | 0 <= p < |s.slots| && s.slots[p].Held? ensures exists g :: g in s'.handles && s'.handles[g] == p {
      var g :| g in s.handles && s.handles[g] == p;
      assert s'.handles[g] == p;
    }
  }

  /** Steps of a task that take no memory. */
  lemma TaskInv(s: State, a: Step)
    requires Inv(s) && Enabled(s, a)
    requires a.Begin? || a.DoLoad? || a.DoListen? || a.DoRecheck? || a.Wake? || a.Cancel?
    ensures Inv(Apply(s, a))
  {
    match a {
      case DoLoad(t) => PcWakeups(s, t, if Fits(s.waiters[t], s.used) then Swap(s.used) else Listen);
      case DoRecheck(t) => PcWakeups(s, t, if Fits(s.waiters[t], s.used) then Load else Parked);
      case Wake(t) => PcWakeups(s, t, Load);
      case _ => ComesOrGoes(s, a);
    }
    OnlyWaiters(s, Apply(s, a));
  }

  lemma ComesOrGoes(s: State, a: Step)
    requires Inv(s) && Enabled(s, a) && (a.Begin? || a.DoListen? || a.Cancel?)
    ensures WaitersOk(Apply(s, a)) && NoLostWakeup(Apply(s, a))
    ensures Apply(s, a) == s.(waiters := Apply(s, a).waiters)
  {}

  lemma NotifyInv(s: State)
    requires Inv(s) && s.releasing > 0
    ensures Inv(Apply(s, Notify))
  {
    OnlyWaiters(s, Apply(s, Notify));
  }

  lemma StepInv(s: State, a: Step)
    requires Inv(s) && Enabled(s, a)
    ensures Inv(Apply(s, a))
  {
    match a
    case DoSwap(t, spurious, h) => SwapInv(s, t, spurious, h);
    case DropHandle(h) => DropInv(s, h);
    case Share(h, c) => ShareInv(s, h, c);
    case Notify => NotifyInv(s);
    case _ => TaskInv(s, a);
  }

  // ---------------------------------------------------------------- whole runs

  function Run(s: State, steps: seq<Step>): State {
    if steps == [] then s
    else
      var before := Run(s, steps[..|steps| - 1]);
      if Enabled(before, steps[|steps| - 1]) then Apply(before, steps[|steps| - 1]) else before
  }

  lemma {:induction false} RunInv(s: State, steps: seq<Step>)
    requires Inv(s)
    ensures Inv(Run(s, steps))
  {
    if steps != [] {
      RunInv(s, steps[..|steps| - 1]);
      var before := Run(s, steps[..|steps| - 1]);
      if Enabled(before, steps[|steps| - 1]) { StepInv(before, steps[|steps| - 1]); }
    }
  }

  /** Over all interleavings: the counter is the sum of the live permits, shared handles
      counting once; it never exceeds the limit; and no wakeup is ever lost. */
  lemma BudgetIsSafe(limit: nat, reserve: nat, steps: seq<Step>)
    ensures var s := Run(Fresh(limit, reserve), steps);
            && s.used == Sum(s.slots) <= s.limit
            && HandlesOk(s)
            && NoLostWakeup(s)
  {
    FreshInv(limit, reserve);
    RunInv(Fresh(limit, reserve), steps);
  }

  // ---------------------------------------------------------------- when an acquisition is granted

  /** The test, said of the budget alone.  A request larger than what speculation may use waits
      for an empty budget. */
  predicate Admits(limit: nat, reserve: nat, used: nat, bytes: nat, class_: Class) {
    match class_
    case Frontier => used + bytes <= limit
    case Speculative =>
      if bytes + reserve <= limit then bytes == 0 || used + bytes + reserve <= limit else used == 0
  }

  predicate AdmitsTask(s: State, t: nat) {
    t in s.waiters && Admits(s.limit, s.reserve, s.used, s.waiters[t].bytes, s.waiters[t].class_)
  }

  predicate LimitsOk(s: State) {
    forall t :: t in s.waiters ==> s.waiters[t].limit == EffectiveLimit(s, s.waiters[t].bytes, s.waiters[t].class_)
  }

  lemma LimitsStay(s: State, a: Step)
    requires LimitsOk(s) && Enabled(s, a)
    ensures LimitsOk(Apply(s, a)) && Apply(s, a).limit == s.limit && Apply(s, a).reserve == s.reserve
  {}

  lemma {:induction false} RunLimits(limit: nat, reserve: nat, steps: seq<Step>)
    ensures var s := Run(Fresh(limit, reserve), steps);
            LimitsOk(s) && s.limit == Fresh(limit, reserve).limit && s.reserve == Fresh(limit, reserve).reserve
  {
    if steps != [] {
      RunLimits(limit, reserve, steps[..|steps| - 1]);
      var before := Run(Fresh(limit, reserve), steps[..|steps| - 1]);
      if Enabled(before, steps[|steps| - 1]) { LimitsStay(before, steps[|steps| - 1]); }
    }
  }

  lemma FitsIff(s: State, w: Waiter)
    requires Inv(s) && w.limit == EffectiveLimit(s, w.bytes, w.class_) && w.bytes <= s.limit
    ensures Fits(w, s.used) <==> Admits(s.limit, s.reserve, s.used, w.bytes, w.class_)
  {}

  lemma Reached(limit: nat, reserve: nat, steps: seq<Step>)
    ensures var s := Run(Fresh(limit, reserve), steps);
            && Inv(s) && LimitsOk(s)
            && s.limit == (if limit < 1 then 1 else limit) && s.reserve == (if reserve < limit then reserve else limit)
  {
    FreshInv(limit, reserve);
    RunInv(Fresh(limit, reserve), steps);
    RunLimits(limit, reserve, steps);
  }

  /** In every reachable state a load goes on to the swap, and a re-check back to the load
      instead of sleeping, exactly if the budget admits the request. */
  lemma LoadDecidesIff(limit: nat, reserve: nat, steps: seq<Step>, t: nat)
    ensures var s := Run(Fresh(limit, reserve), steps);
            && (Enabled(s, DoLoad(t)) ==> Apply(s, DoLoad(t)) == SetPc(s, t, if AdmitsTask(s, t) then Swap(s.used) else Listen))
            && (Enabled(s, DoRecheck(t)) ==> Apply(s, DoRecheck(t)) == SetPc(s, t, if AdmitsTask(s, t) then Load else Parked))
  {
    Reached(limit, reserve, steps);
    var s := Run(Fresh(limit, reserve), steps);
    if t in s.waiters { FitsIff(s, s.waiters[t]); }
  }

  /** The permit of `bytes` under the handle `h` and nothing else is new. */
  predicate Granted(s: State, s': State, bytes: nat, class_: Class, h: nat) {
    && s'.used == s.used + bytes && s'.slots == s.slots + [Held(Permit(bytes, class_))]
    && s'.handles == s.handles[h := |s.slots|] && s'.waiters == s.waiters
    && s'.releasing == s.releasing && s'.limit == s.limit && s'.reserve == s.reserve
  }

  /** An acquisition nobody disturbs: refused if it is larger than the budget, granted at once
      exactly if the budget admits it, and asleep otherwise. */
  lemma AcquireIff(limit: nat, reserve: nat, steps: seq<Step>, t: nat, bytes: nat, class_: Class, h: nat)
    requires var s := Run(Fresh(limit, reserve), steps); t !in s.waiters && h !in s.handles
    ensures var s := Run(Fresh(limit, reserve), steps);
            var s1 := Apply(s, Begin(t, bytes, class_));
            if bytes > s.limit then s1 == s
            else
              Enabled(s1, DoLoad(t)) &&
              var s2 := Apply(s1, DoLoad(t));
              if Admits(s.limit, s.reserve, s.used, bytes, class_)
              then Enabled(s2, DoSwap(t, false, h)) && Granted(s, Apply(s2, DoSwap(t, false, h)), bytes, class_, h)
              else Enabled(s2, DoListen(t)) && Enabled(Apply(s2, DoListen(t)), DoRecheck(t)) &&
                   Apply(Apply(s2, DoListen(t)), DoRecheck(t)) ==
                   s.(waiters := s.waiters[t := Waiter(bytes, class_, EffectiveLimit(s, bytes, class_), Parked, false)])
  {
    Reached(limit, reserve, steps);
    var s := Run(Fresh(limit, reserve), steps);
    if bytes <= s.limit {
      AcquireAt(s, t, Waiter(bytes, class_, EffectiveLimit(s, bytes, class_), Load, false), h);
    }
  }

  lemma AcquireAt(s: State, t: nat, w: Waiter, h: nat)
    requires Inv(s) && w.limit == EffectiveLimit(s, w.bytes, w.class_) && w.bytes <= s.limit && w.pc == Load && !w.notified
    requires t !in s.waiters && h !in s.handles
    ensures var s1 := s.(waiters := s.waiters[t := w]);
            var s2 := Apply(s1, DoLoad(t));
            if Admits(s.limit, s.reserve, s.used, w.bytes, w.class_)
            then Enabled(s2, DoSwap(t, false, h)) && Granted(s, Apply(s2, DoSwap(t, false, h)), w.bytes, w.class_, h)
            else Enabled(s2, DoListen(t)) && Enabled(Apply(s2, DoListen(t)), DoRecheck(t)) &&
                 Apply(Apply(s2, DoListen(t)), DoRecheck(t)) == s.(waiters := s.waiters[t := w.(pc := Parked)])
  {
    FitsIff(s, w);
    assert s.waiters[t := w] - {t} == s.waiters;
  }

  /** A sleeper whose request the budget admits, once no notify is outstanding, has been notified,
      and nobody disturbing it wakes to its permit. */
  lemma SleeperGetsIn(limit: nat, reserve: nat, steps: seq<Step>, t: nat, h: nat)
    requires var s := Run(Fresh(limit, reserve), steps);
             && t in s.waiters && s.waiters[t].pc.Parked? && s.releasing == 0 && h !in s.handles
             && Admits(s.limit, s.reserve, s.used, s.waiters[t].bytes, s.waiters[t].class_)
    ensures var s := Run(Fresh(limit, reserve), steps);
            Enabled(s, Wake(t)) &&
            var s1 := Apply(s, Wake(t));
            Enabled(s1, DoLoad(t)) && Enabled(Apply(s1, DoLoad(t)), DoSwap(t, false, h)) &&
            Granted(s.(waiters := s.waiters - {t}), Apply(Apply(s1, DoLoad(t)), DoSwap(t, false, h)),
                    s.waiters[t].bytes, s.waiters[t].class_, h)
  {
    Reached(limit, reserve, steps);
    var s := Run(Fresh(limit, reserve), steps);
    FitsIff(s, s.waiters[t]);
    var s0 := s.(waiters := s.waiters - {t});
    AcquireWoken(s, s0, t, s.waiters[t].(pc := Load), h);
  }

  lemma AcquireWoken(s: State, s0: State, t: nat, w: Waiter, h: nat)
    requires Inv(s) && t in s.waiters && w == s.waiters[t].(pc := Load) && s0 == s.(waiters := s.waiters - {t})
    requires Fits(w, s.used) && h !in s.handles && s.waiters[t].pc.Parked? && s.waiters[t].notified
    ensures var s1 := Apply(s, Wake(t));
            Enabled(s1, DoLoad(t)) && Enabled(Apply(s1, DoLoad(t)), DoSwap(t, false, h)) &&
            Granted(s0, Apply(Apply(s1, DoLoad(t)), DoSwap(t, false, h)), w.bytes, w.class_, h)
  {
    assert Apply(s, Wake(t)) == s.(waiters := s.waiters[t := w]);
    assert s.waiters[t := w][t := w.(pc := Swap(s.used))] - {t} == s.waiters - {t};
  }

  function Notifies(n: nat): seq<Step> { seq(n, _ => Notify) }

  /** The outstanding notifies, done, leave none. */
  lemma {:induction false} NotifiesEnd(s: State, n: nat)
    requires n <= s.releasing
    ensures var s' := Run(s, Notifies(n));
            s'.releasing == s.releasing - n && s'.used == s.used && s'.slots == s.slots && s'.handles == s.handles
  {
    if n > 0 {
      assert Notifies(n)[..n - 1] == Notifies(n - 1);
      NotifiesEnd(s, n - 1);
    }
  }

  /** A permit shared by two handles counts once: dropping one changes nothing but the handles,
      dropping the other gives its bytes back and owes a notify. */
  lemma SharedOnce(limit: nat, reserve: nat, steps: seq<Step>, h: nat, c: nat)
    requires var s := Run(Fresh(limit, reserve), steps);
             h in s.handles && c !in s.handles && forall o :: o in s.handles && s.handles[o] == s.handles[h] ==> o == h
    ensures var s := Run(Fresh(limit, reserve), steps);
            && s.handles[h] < |s.slots| && s.slots[s.handles[h]].Held?
            && var s1 := Apply(s, Share(h, c));
            && s1 == s.(handles := s.handles[c := s.handles[h]])
            && Enabled(s1, DropHandle(h)) && Apply(s1, DropHandle(h)) == s.(handles := (s.handles - {h})[c := s.handles[h]])
            && Enabled(s, DropHandle(h))
            && Apply(s, DropHandle(h)) == s.(handles := s.handles - {h}, slots := s.slots[s.handles[h] := Gone],
                                             used := Apply(s, DropHandle(h)).used, releasing := s.releasing + 1)
            && Apply(s, DropHandle(h)).used + s.slots[s.handles[h]].permit.bytes == s.used
  {
    Reached(limit, reserve, steps);
    var s := Run(Fresh(limit, reserve), steps);
    SumAtLeast(s.slots, s.handles[h]);
    var s1 := Apply(s, Share(h, c));
    assert c in s1.handles - {h} && (s1.handles - {h})[c] == s1.handles[h];
    assert s1.handles - {h} == (s.handles - {h})[c := s.handles[h]];
  }

  /** A task that gives up is gone. */
  lemma CancelledIsGone(s: State, t: nat)
    requires Enabled(s, Cancel(t))
    ensures Apply(s, Cancel(t)) == s.(waiters := s.waiters - {t})
  {}

  /** Once every permit is gone and every notify has happened, nobody is left asleep. */
  lemma NobodySleepsOnAnEmptyBudget(limit: nat, reserve: nat, steps: seq<Step>, t: nat)
    requires var s := Run(Fresh(limit, reserve), steps);
             s.handles == map[] && s.releasing == 0 && t in s.waiters && s.waiters[t].pc.Parked?
    ensures Run(Fresh(limit, reserve), steps).waiters[t].notified
  {
    FreshInv(limit, reserve);
    RunInv(Fresh(limit, reserve), steps);
    var s := Run(Fresh(limit, reserve), steps);
    EmptySum(s.slots);
  }

  lemma {:induction false} EmptySum(slots: seq<Slot>)
    requires forall i :: 0 <= i < |slots| ==> slots[i].Gone?
    ensures Sum(slots) == 0
  {
    if slots != [] { EmptySum(slots[..|slots| - 1]); }
  }

  predicate Oversized(slot: Slot, usable: nat) {
    slot.Held? && slot.permit.class_.Speculative? && slot.permit.bytes > usable
  }

  predicate OnlySpeculativeHeld(s: State) {
    forall i :: 0 <= i < |s.slots| && s.slots[i].Held? ==> s.slots[i].permit.class_.Speculative?
  }

  lemma {:induction false} SumAtLeast(slots: seq<Slot>, i: nat)
    requires i < |slots| && slots[i].Held?
    ensures slots[i].permit.bytes <= Sum(slots)
  {
    var n := |slots| - 1;
    if i < n { SumAtLeast(slots[..n], i); }
  }

  predicate FrontierFits(s: State, bytes: nat) { bytes <= Minus(EffectiveLimit(s, bytes, Frontier), s.used) }

  /** While only speculative permits are out, a frontier request of the whole reserve (and so
      every smaller one) fits at once exactly if there is no reserve or no oversized permit. */
  lemma ReserveIsAvailableIff(limit: nat, reserve: nat, steps: seq<Step>)
    requires OnlySpeculativeHeld(Run(Fresh(limit, reserve), steps))
    ensures var s := Run(Fresh(limit, reserve), steps);
            && (FrontierFits(s, s.reserve) <==>
                 s.reserve == 0 || forall i :: 0 <= i < |s.slots| ==> !Oversized(s.slots[i], Usable(s)))
            && (FrontierFits(s, s.reserve) ==> forall bytes: nat :: bytes <= s.reserve ==> FrontierFits(s, bytes))
  {
    FreshInv(limit, reserve);
    RunInv(Fresh(limit, reserve), steps);
    var s := Run(Fresh(limit, reserve), steps);
    ModestAtMostAll(s.slots, Usable(s));
    if i :| 0 <= i < |s.slots| && Oversized(s.slots[i], Usable(s)) {
      SumAtLeast(s.slots, i);
    } else {
      assert forall i :: 0 <= i < |s.slots| && s.slots[i].Held? ==> Modest(s.slots[i], Usable(s));
    }
  }

  /** An upgraded oversized speculative permit eats the reserve. */
  lemma OversizedPermitBlocksFrontier()
    ensures var s := Run(Fresh(10, 4), [Begin(0, 10, Speculative), DoLoad(0), DoSwap(0, false, 0)]);
            !FrontierFits(s, 1)
  {
    var s0 := Fresh(10, 4);
    var a, b, c := Begin(0, 10, Speculative), DoLoad(0), DoSwap(0, false, 0);
    assert [a, b, c][..2] == [a, b] && [a, b][..1] == [a] && [a][..0] == [];
    assert Run(s0, []) == s0;
    var s1 := Apply(s0, a);
    assert Run(s0, [a]) == s1;
    var s2 := Apply(s1, b);
    assert Run(s0, [a, b]) == s2;
    assert Run(s0, [a, b, c]) == Apply(s2, c);
  }
}
