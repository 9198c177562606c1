/** The readiness cache: one locked record shared by any number of callers, each
    call a handful of steps that interleave freely. */
module Readiness {
  import opened Wrappers

  type Response = string

  /** The fields under the mutex. inFlight names the wait group of the call that is
      recomputing; taken is None for the zero time. */
  datatype Cache = Cache(value: Response, taken: Option<int>, inFlight: Option<nat>)

  /** What the first locked section of a call decides. */
  datatype Decision = Hit(value: Response) | Join(group: nat) | Lead(group: nat)

  function Decide(s: Cache, ttl: int, now: int, group: nat): Decision {
    if s.taken.Some? && now - s.taken.value < ttl then Hit(s.value)
    else if s.inFlight.Some? then Join(s.inFlight.value)
    else Lead(group)
  }

  function Entered(s: Cache, d: Decision): Cache { if d.Lead? then s.(inFlight := Some(d.group)) else s }

  function Stored(s: Cache, v: Response, now: int): Cache { Cache(v, Some(now), None) }

  // ----------------------------------------------------------------- interleavings

  /** How a call comes by its answer: from the cache, from a flight it joins, from a
      flight it joins after the computation had already returned, or by leading. */
  datatype Way = ByCache | ByFlight | ByLateFlight | ByLeading

  /** A call: the step at which it began and the clock reading it made then. */
  datatype Call = Call(began: nat, now: int, way: Way)

  /** Where a caller stands. The leader computes, stores under the lock, and only
      then releases its wait group. */
  datatype Pc =
    | Idle
    | Waiting(call: Call, group: nat)
    | Woken(call: Call)
    | Computing(call: Call, group: nat)
    | Computed(call: Call, group: nat, v: Response, made: nat)
    | Signalling(call: Call, group: nat, v: Response)

  /** A value recorded under the lock: the clock reading that stamps it, the step
      that recorded it and the earlier step at which its computation returned. */
  datatype Record = Record(value: Response, now: int, step: nat, made: nat)

  datatype Answer = Answer(call: Call, value: Response)

  datatype World = World(cache: Cache, pcs: map<nat, Pc>, done: set<nat>, groups: nat,
                         produced: seq<Response>, records: seq<Record>, answers: seq<Answer>, step: nat)

  datatype Action =
    | Enter(c: nat, now: int)
    | Produce(c: nat, v: Response)
    | Panic(c: nat)
    | Publish(c: nat, now: int)
    | Release(c: nat)
    | Wake(c: nat)
    | Look(c: nat)

  function PcOf(w: World, c: nat): Pc { if c in w.pcs then w.pcs[c] else Idle }

  function Goto(w: World, c: nat, pc: Pc): World { w.(pcs := w.pcs[c := pc], step := w.step + 1) }

  function Return(w: World, c: nat, call: Call, v: Response): World {
    Goto(w, c, Idle).(answers := w.answers + [Answer(call, v)])
  }

  /** Some computation has returned and waits to be recorded. */
  predicate Returned(w: World) { exists c :: c in w.pcs && w.pcs[c].Computed? }

  function Joining(w: World, now: int): Call {
    Call(w.step, now, if Returned(w) then ByLateFlight else ByFlight)
  }

  function EnterStep(w: World, ttl: int, c: nat, now: int): World {
    var d := Decide(w.cache, ttl, now, w.groups);
    match d
    case Hit(v) => Return(w, c, Call(w.step, now, ByCache), v)
    case Join(g) => Goto(w, c, Waiting(Joining(w, now), g))
    case Lead(g) =>
      Goto(w, c, Computing(Call(w.step, now, ByLeading), g)).(cache := Entered(w.cache, d), groups := g + 1)
  }

  function Stutter(w: World): World { w.(step := w.step + 1) }

  /** An action that is not enabled only lets the step count pass. A computation that
      panics ends its call with nothing recorded and its group never released. */
  function Apply(w: World, ttl: int, a: Action): World {
    var pc := PcOf(w, a.c);
    match a
    case Enter(c, now) => if pc.Idle? then EnterStep(w, ttl, c, now) else Stutter(w)
    case Produce(c, v) =>
      if pc.Computing? then Goto(w, c, Computed(pc.call, pc.group, v, w.step)).(produced := w.produced + [v])
      else Stutter(w)
    case Panic(c) => if pc.Computing? then Goto(w, c, Idle) else Stutter(w)
    case Publish(c, now) =>
      if pc.Computed? then
        Goto(w, c, Signalling(pc.call, pc.group, pc.v)).(cache := Stored(w.cache, pc.v, now),
                                                         records := w.records + [Record(pc.v, now, w.step, pc.made)])
      else Stutter(w)
    case Release(c) =>
      if pc.Signalling? then Return(w, c, pc.call, pc.v).(done := w.done + {pc.group}) else Stutter(w)
    case Wake(c) =>
      if pc.Waiting? && pc.group in w.done then Goto(w, c, Woken(pc.call)) else Stutter(w)
    case Look(c) =>
      if pc.Woken? then Return(w, c, pc.call, w.cache.value) else Stutter(w)
  }

  function Run(w: World, ttl: int, schedule: seq<Action>): World
    decreases |schedule|
  {
    if schedule == [] then w else Run(Apply(w, ttl, schedule[0]), ttl, schedule[1..])
  }

  const Init := World(Cache("", None, None), map[], {}, 0, [], [], [], 0)

  // ------------------------------------------------------------------- invariants

  predicate Leads(pc: Pc) { pc.Computing? || pc.Computed? }

  predicate Owns(pc: Pc) { Leads(pc) || pc.Signalling? }

  /** What a record must be to answer a call. From the cache: recorded earlier, less
      than ttl before the call's clock reading. From a flight joined late: recorded
      since the call began. Otherwise: computed since the call began. */
  predicate Fresh(ttl: int, call: Call, r: Record) {
    match call.way
    case ByCache => r.step < call.began && call.now - r.now < ttl
    case ByLateFlight => r.step >= call.began
    case _ => r.made >= call.began
  }

  ghost predicate Justified(w: World, ttl: int, a: Answer) {
    a.call.began < w.step && exists r :: r in w.records && r.value == a.value && Fresh(ttl, a.call, r)
  }

  /** The last record can answer a call that waits. */
  predicate Since(w: World, call: Call) {
    && w.records != [] && !call.way.ByCache?
    && var last := w.records[|w.records| - 1];
       last.step >= call.began && (call.way.ByLateFlight? || last.made >= call.began)
  }

  ghost predicate FromRecord(w: World, call: Call, v: Response) {
    exists r :: r in w.records && r.value == v && r.made >= call.began
  }

  /** No computation of group g that has returned did so before step t. */
  ghost predicate NotBefore(w: World, g: nat, t: nat) {
    forall c :: c in w.pcs && w.pcs[c].Computed? && w.pcs[c].group == g ==> w.pcs[c].made >= t
  }

  ghost predicate PcOk(w: World, pc: Pc) {
    match pc
    case Idle => true
    case Waiting(call, g) =>
      && call.began < w.step && !call.way.ByCache? && g < w.groups
      && ((w.cache.inFlight == Some(g) && (call.way.ByLateFlight? || NotBefore(w, g, call.began))) || Since(w, call))
    case Woken(call) => call.began < w.step && Since(w, call)
    case Computing(call, g) => call.began < w.step && call.way.ByLeading? && w.cache.inFlight == Some(g)
    case Computed(call, g, v, made) =>
      && call.way.ByLeading? && call.began <= made < w.step && w.cache.inFlight == Some(g) && v in w.produced
      && (w.records != [] ==> w.records[|w.records| - 1].step < made)
    case Signalling(call, g, v) => call.began < w.step && call.way.ByLeading? && g < w.groups && FromRecord(w, call, v)
  }

  ghost predicate RecordsOk(w: World) {
    && (w.cache.taken.Some? <==> w.records != [])
    && (w.records != [] ==>
          w.records[|w.records| - 1].value == w.cache.value && w.cache.taken == Some(w.records[|w.records| - 1].now))
    && forall i :: 0 <= i < |w.records| ==>
         w.records[i].value in w.produced && w.records[i].made < w.records[i].step < w.step
  }

  ghost predicate GroupsOk(w: World) {
    && (forall g :: g in w.done ==> g < w.groups)
    && (w.cache.inFlight.Some? ==> w.cache.inFlight.value < w.groups && w.cache.inFlight.value !in w.done)
    && (forall c, d :: c in w.pcs && d in w.pcs && c != d && Owns(w.pcs[c]) && Owns(w.pcs[d]) ==>
          w.pcs[c].group != w.pcs[d].group)
    && (forall c :: c in w.pcs && w.pcs[c].Signalling? ==>
          w.pcs[c].group < w.groups && w.cache.inFlight != Some(w.pcs[c].group))
  }

  ghost predicate Inv(w: World, ttl: int) {
    && RecordsOk(w) && GroupsOk(w)
    && (forall c :: c in w.pcs ==> PcOk(w, w.pcs[c]))
    && (forall i :: 0 <= i < |w.answers| ==> Justified(w, ttl, w.answers[i]))
  }

  // ------------------------------------------------------------- every step keeps it

  /** Records, answers and produced values only grow, and the step count rises. */
  ghost predicate Grows(w: World, x: World) {
    && w.records <= x.records && w.produced <= x.produced && w.step < x.step && w.groups <= x.groups
    && (w.records == x.records
        || (x.records[|x.records| - 1].step == w.step
            && (w.records != [] ==> w.records[|w.records| - 1].step < x.records[|x.records| - 1].made)))
  }

  /** Of the callers only c may have changed: to a computation that returned in this
      very step, or from one to its record. */
  ghost predicate Moves(w: World, x: World, c: nat) {
    && (forall d :: d in x.pcs && x.pcs[d].Computed? ==>
          (d in w.pcs && w.pcs[d] == x.pcs[d]) || x.pcs[d].made == w.step)
    && (x.records != w.records ==>
          && x.records != [] && x.cache.inFlight.None? && PcOf(w, c).Computed?
          && w.cache.inFlight == Some(w.pcs[c].group)
          && x.records[|x.records| - 1].made == w.pcs[c].made)
  }

  lemma SinceKept(w: World, x: World, call: Call)
    requires Since(w, call) && Grows(w, x) && RecordsOk(w)
    ensures Since(x, call)
  {
    if w.records != x.records { assert w.records[|w.records| - 1].step < w.step; }
  }

  lemma JustifiedKept(w: World, x: World, ttl: int, a: Answer)
    requires Justified(w, ttl, a) && Grows(w, x)
    ensures Justified(x, ttl, a)
  {
    var r :| r in w.records && r.value == a.value && Fresh(ttl, a.call, r);
    assert r in x.records;
  }

  lemma FromRecordKept(w: World, x: World, call: Call, v: Response)
    requires FromRecord(w, call, v) && Grows(w, x)
    ensures FromRecord(x, call, v)
  {
    var r :| r in w.records && r.value == v && r.made >= call.began;
    assert r in x.records;
  }

  lemma ProducedKept(w: World, x: World, v: Response)
    requires v in w.produced && w.produced <= x.produced
    ensures v in x.produced
  {
    var i :| 0 <= i < |w.produced| && w.produced[i] == v;
    assert x.produced[i] == v;
  }

  /** A caller that did not move stays in order, as long as the group it leads or
      waits for is still in flight or its value has just been recorded. */
  lemma PcKept(w: World, x: World, c: nat, pc: Pc)
    requires PcOk(w, pc) && RecordsOk(w) && Grows(w, x) && Moves(w, x, c)
    requires w.cache.inFlight == x.cache.inFlight || (w.cache.inFlight.None? && !Leads(pc))
             || (!Leads(pc) && x.records != w.records)
    ensures PcOk(x, pc)
  {
    match pc
    case Waiting(call, g) => if Since(w, call) { SinceKept(w, x, call); }
    case Woken(call) => SinceKept(w, x, call);
    case Computed(call, g, v, made) => ProducedKept(w, x, v);
    case Signalling(call, g, v) => FromRecordKept(w, x, call, v);
    case _ =>
  }

  /** Caller c moves to pc; nobody else does, and whoever else leads still may. */
  lemma Settle(w: World, x: World, ttl: int, c: nat, pc: Pc)
    requires Inv(w, ttl) && Grows(w, x) && Moves(w, x, c) && x.pcs == w.pcs[c := pc]
    requires PcOk(x, pc) && RecordsOk(x) && GroupsOk(x)
    requires w.cache.inFlight == x.cache.inFlight
             || ((w.cache.inFlight.None? || x.records != w.records)
                 && forall d :: d in w.pcs && d != c ==> !Leads(w.pcs[d]))
    requires x.answers == w.answers
             || (|x.answers| == |w.answers| + 1 && w.answers <= x.answers && Justified(x, ttl, x.answers[|w.answers|]))
    ensures Inv(x, ttl)
  {
    forall d | d in x.pcs ensures PcOk(x, x.pcs[d]) { if d != c { PcKept(w, x, c, w.pcs[d]); } }
    forall i | 0 <= i < |x.answers| ensures Justified(x, ttl, x.answers[i]) {
      if i < |w.answers| { JustifiedKept(w, x, ttl, w.answers[i]); }
    }
  }

  /** The steps that leave the cache, the records and the groups alone. */
  lemma Idles(w: World, ttl: int)
    requires Inv(w, ttl)
    ensures Inv(Stutter(w), ttl)
  {
    var x := Stutter(w);
    forall d | d in x.pcs ensures PcOk(x, x.pcs[d]) { PcKept(w, x, d, w.pcs[d]); }
    forall i | 0 <= i < |x.answers| ensures Justified(x, ttl, x.answers[i]) { JustifiedKept(w, x, ttl, w.answers[i]); }
  }

  lemma HitKeeps(w: World, ttl: int, c: nat, call: Call)
    requires Inv(w, ttl) && w.cache.taken.Some? && call.now - w.cache.taken.value < ttl && !Owns(PcOf(w, c))
    requires call.began == w.step && call.way.ByCache?
    ensures Inv(Return(w, c, call, w.cache.value), ttl)
  {
    var x, last := Return(w, c, call, w.cache.value), w.records[|w.records| - 1];
    assert last in x.records && last.value == w.cache.value && Fresh(ttl, call, last);
    Settle(w, x, ttl, c, Idle);
  }

  lemma EnterKeeps(w: World, ttl: int, c: nat, now: int)
    requires Inv(w, ttl) && PcOf(w, c).Idle?
    ensures Inv(EnterStep(w, ttl, c, now), ttl)
  {
    match Decide(w.cache, ttl, now, w.groups)
    case Hit(v) => HitKeeps(w, ttl, c, Call(w.step, now, ByCache));
    case Join(g) => JoinKeeps(w, ttl, c, now);
    case Lead(g) => LeadKeeps(w, ttl, c, Call(w.step, now, ByLeading));
  }

  lemma JoinKeeps(w: World, ttl: int, c: nat, now: int)
    requires Inv(w, ttl) && PcOf(w, c).Idle? && w.cache.inFlight.Some?
    ensures Inv(Goto(w, c, Waiting(Joining(w, now), w.cache.inFlight.value)), ttl)
  {
    var pc := Waiting(Joining(w, now), w.cache.inFlight.value);
    Settle(w, Goto(w, c, pc), ttl, c, pc);
  }

  lemma LeadKeeps(w: World, ttl: int, c: nat, call: Call)
    requires Inv(w, ttl) && PcOf(w, c).Idle? && w.cache.inFlight.None?
    requires call.began == w.step && call.way.ByLeading?
    ensures var cache := w.cache.(inFlight := Some(w.groups));
            Inv(Goto(w, c, Computing(call, w.groups)).(cache := cache, groups := w.groups + 1), ttl)
  {
    var cache := w.cache.(inFlight := Some(w.groups));
    var x := Goto(w, c, Computing(call, w.groups)).(cache := cache, groups := w.groups + 1);
    forall d | d in w.pcs ensures !Leads(w.pcs[d]) && (Owns(w.pcs[d]) ==> w.pcs[d].group < w.groups) {
      assert PcOk(w, w.pcs[d]);
    }
    Settle(w, x, ttl, c, Computing(call, w.groups));
  }

  lemma ProduceKeeps(w: World, ttl: int, c: nat, v: Response)
    requires Inv(w, ttl) && PcOf(w, c).Computing?
    ensures Inv(Apply(w, ttl, Produce(c, v)), ttl)
  {
    var x := Apply(w, ttl, Produce(c, v));
    assert PcOk(w, w.pcs[c]);
    forall i | 0 <= i < |w.records| ensures w.records[i].value in x.produced { ProducedKept(w, x, w.records[i].value); }
    assert x.produced[|w.produced|] == v;
    Settle(w, x, ttl, c, x.pcs[c]);
  }

  lemma PanicKeeps(w: World, ttl: int, c: nat)
    requires Inv(w, ttl) && PcOf(w, c).Computing?
    ensures Inv(Apply(w, ttl, Panic(c)), ttl)
  {
    Settle(w, Apply(w, ttl, Panic(c)), ttl, c, Idle);
  }

  /** Two leaders would share the group in flight, and groups have one owner. */
  lemma OneLeader(w: World, ttl: int, c: nat, d: nat)
    requires Inv(w, ttl) && Leads(PcOf(w, c)) && Leads(PcOf(w, d))
    ensures c == d
  {
    assert PcOk(w, w.pcs[c]) && PcOk(w, w.pcs[d]);
  }

  lemma PublishKeeps(w: World, ttl: int, c: nat, now: int)
    requires Inv(w, ttl) && PcOf(w, c).Computed?
    ensures Inv(Apply(w, ttl, Publish(c, now)), ttl)
  {
    var x, pc := Apply(w, ttl, Publish(c, now)), w.pcs[c];
    assert PcOk(w, pc);
    forall d | d in w.pcs && d != c ensures !Leads(w.pcs[d]) { if Leads(w.pcs[d]) { OneLeader(w, ttl, c, d); } }
    PublishGroups(w, ttl, c, now);
    var r := Record(pc.v, now, w.step, pc.made);
    assert x.records[|w.records|] == r && r in x.records;
    Settle(w, x, ttl, c, x.pcs[c]);
  }

  lemma PublishGroups(w: World, ttl: int, c: nat, now: int)
    requires GroupsOk(w) && RecordsOk(w) && PcOf(w, c).Computed? && PcOk(w, w.pcs[c])
    ensures GroupsOk(Apply(w, ttl, Publish(c, now))) && RecordsOk(Apply(w, ttl, Publish(c, now)))
  {
  }

  lemma ReleaseGroups(w: World, ttl: int, c: nat)
    requires GroupsOk(w) && RecordsOk(w) && PcOf(w, c).Signalling?
    ensures GroupsOk(Apply(w, ttl, Release(c))) && RecordsOk(Apply(w, ttl, Release(c)))
  {
  }

  lemma ReleaseAnswers(w: World, x: World, ttl: int, call: Call, v: Response)
    requires FromRecord(w, call, v) && call.way.ByLeading? && call.began < w.step < x.step && x.records == w.records
    ensures Justified(x, ttl, Answer(call, v))
  {
    var r :| r in w.records && r.value == v && r.made >= call.began;
    assert r in x.records && Fresh(ttl, call, r);
  }

  lemma ReleaseKeeps(w: World, ttl: int, c: nat)
    requires Inv(w, ttl) && PcOf(w, c).Signalling?
    ensures Inv(Apply(w, ttl, Release(c)), ttl)
  {
    var x, pc := Apply(w, ttl, Release(c)), w.pcs[c];
    assert PcOk(w, pc);
    ReleaseGroups(w, ttl, c);
    ReleaseAnswers(w, x, ttl, pc.call, pc.v);
    Settle(w, x, ttl, c, Idle);
  }

  lemma WakeKeeps(w: World, ttl: int, c: nat)
    requires Inv(w, ttl) && PcOf(w, c).Waiting? && PcOf(w, c).group in w.done
    ensures Inv(Apply(w, ttl, Wake(c)), ttl)
  {
    assert PcOk(w, w.pcs[c]);
    Settle(w, Apply(w, ttl, Wake(c)), ttl, c, Woken(w.pcs[c].call));
  }

  lemma LookKeeps(w: World, ttl: int, c: nat)
    requires Inv(w, ttl) && PcOf(w, c).Woken?
    ensures Inv(Apply(w, ttl, Look(c)), ttl)
  {
    var x, pc, last := Apply(w, ttl, Look(c)), w.pcs[c], w.records[|w.records| - 1];
    assert PcOk(w, pc);
    assert last in x.records && last.value == w.cache.value && Fresh(ttl, pc.call, last);
    Settle(w, x, ttl, c, Idle);
  }

  lemma StepKeeps(w: World, ttl: int, a: Action)
    requires Inv(w, ttl)
    ensures Inv(Apply(w, ttl, a), ttl)
  {
    match a
    case Enter(c, now) => if PcOf(w, c).Idle? { EnterKeeps(w, ttl, c, now); } else { Idles(w, ttl); }
    case Produce(c, v) => if PcOf(w, c).Computing? { ProduceKeeps(w, ttl, c, v); } else { Idles(w, ttl); }
    case Panic(c) => if PcOf(w, c).Computing? { PanicKeeps(w, ttl, c); } else { Idles(w, ttl); }
    case Publish(c, now) => if PcOf(w, c).Computed? { PublishKeeps(w, ttl, c, now); } else { Idles(w, ttl); }
    case Release(c) => if PcOf(w, c).Signalling? { ReleaseKeeps(w, ttl, c); } else { Idles(w, ttl); }
    case Wake(c) =>
      if PcOf(w, c).Waiting? && PcOf(w, c).group in w.done { WakeKeeps(w, ttl, c); } else { Idles(w, ttl); }
    case Look(c) => if PcOf(w, c).Woken? { LookKeeps(w, ttl, c); } else { Idles(w, ttl); }
  }

  lemma {:induction false} RunKeeps(w: World, ttl: int, schedule: seq<Action>)
    requires Inv(w, ttl)
    ensures Inv(Run(w, ttl, schedule), ttl)
    decreases |schedule|
  {
    if schedule != [] {
      StepKeeps(w, ttl, schedule[0]);
      RunKeeps(Apply(w, ttl, schedule[0]), ttl, schedule[1..]);
    }
  }

  // ---------------------------------------------------------------------- theorems

  /** Under every schedule at most one computation is in flight. */
  lemma SingleFlight(ttl: int, schedule: seq<Action>, c: nat, d: nat)
    requires Leads(PcOf(Run(Init, ttl, schedule), c)) && Leads(PcOf(Run(Init, ttl, schedule), d))
    ensures c == d
  {
    RunKeeps(Init, ttl, schedule);
    OneLeader(Run(Init, ttl, schedule), ttl, c, d);
  }

  /** Under every schedule each answer is a computed value: one recorded before the
      call and less than ttl old, or, unless the call joined late, one computed since
      the call began. */
  lemma AnswersAreFresh(ttl: int, schedule: seq<Action>, i: nat)
    requires i < |Run(Init, ttl, schedule).answers|
    ensures var w := Run(Init, ttl, schedule);
            var a := w.answers[i];
            a.value in w.produced && Justified(w, ttl, a)
  {
    RunKeeps(Init, ttl, schedule);
    var w := Run(Init, ttl, schedule);
    var a := w.answers[i];
    assert Justified(w, ttl, a);
    var r :| r in w.records && r.value == a.value && Fresh(ttl, a.call, r);
  }

  // ------------------------------------------------------------------- joining late

  /** Every answer to a call that began at step t was computed since. */
  ghost predicate ComputedSince(x: World, t: nat) {
    forall i :: 0 <= i < |x.answers| && x.answers[i].call.began == t ==>
      FromRecord(x, x.answers[i].call, x.answers[i].value)
  }

  /** Calls that began at step t joined in time. */
  predicate InTime(w: World, t: nat) {
    && (forall c :: c in w.pcs && !w.pcs[c].Idle? && w.pcs[c].call.began == t ==> w.pcs[c].call.way.ByFlight?)
    && (forall i :: 0 <= i < |w.answers| && w.answers[i].call.began == t ==> w.answers[i].call.way.ByFlight?)
  }

  lemma {:induction false} InTimeKept(w: World, ttl: int, schedule: seq<Action>, t: nat)
    requires InTime(w, t) && t < w.step
    ensures InTime(Run(w, ttl, schedule), t)
    decreases |schedule|
  {
    if schedule != [] {
      InTimeStep(w, ttl, schedule[0], t);
      InTimeKept(Apply(w, ttl, schedule[0]), ttl, schedule[1..], t);
    }
  }

  lemma InTimeStep(w: World, ttl: int, a: Action, t: nat)
    requires InTime(w, t) && t < w.step
    ensures InTime(Apply(w, ttl, a), t) && t < Apply(w, ttl, a).step
  {
  }

  lemma JoinedInTime(w: World, ttl: int, c: nat, now: int, schedule: seq<Action>)
    requires Inv(w, ttl) && PcOf(w, c).Idle? && Decide(w.cache, ttl, now, w.groups).Join? && !Returned(w)
    ensures ComputedSince(Run(EnterStep(w, ttl, c, now), ttl, schedule), w.step)
  {
    var y := EnterStep(w, ttl, c, now);
    var x := Run(y, ttl, schedule);
    forall d | d in w.pcs && !w.pcs[d].Idle? ensures w.pcs[d].call.began < w.step { assert PcOk(w, w.pcs[d]); }
    InTimeKept(y, ttl, schedule, w.step);
    EnterKeeps(w, ttl, c, now);
    RunKeeps(y, ttl, schedule);
    forall i | 0 <= i < |x.answers| && x.answers[i].call.began == w.step
      ensures FromRecord(x, x.answers[i].call, x.answers[i].value)
    {
      assert Justified(x, ttl, x.answers[i]);
    }
  }

  /** What a late join may lead to: the finished computation is recorded, released
      and seen. */
  function LateSchedule(c: nat, d: nat, later: int): seq<Action> {
    [Publish(d, later), Release(d), Wake(c), Look(c)]
  }

  lemma RunCons(w: World, ttl: int, a: Action, rest: seq<Action>)
    ensures Run(w, ttl, [a] + rest) == Run(Apply(w, ttl, a), ttl, rest)
  {
    assert ([a] + rest)[1..] == rest;
  }

  lemma RunFour(w: World, ttl: int, a: Action, b: Action, c: Action, d: Action)
    ensures Run(w, ttl, [a, b, c, d]) == Apply(Apply(Apply(Apply(w, ttl, a), ttl, b), ttl, c), ttl, d)
  {
    var x := Apply(w, ttl, a);
    var y := Apply(x, ttl, b);
    RunCons(w, ttl, a, [b, c, d]);
    RunCons(x, ttl, b, [c, d]);
    RunCons(y, ttl, c, [d]);
    RunCons(Apply(y, ttl, c), ttl, d, []);
    assert [a] + [b, c, d] == [a, b, c, d] && [b] + [c, d] == [b, c, d] && [c] + [d] == [c, d] && [d] + [] == [d];
  }

  lemma JoinedLate(w: World, ttl: int, c: nat, d: nat, now: int, later: int)
    requires Inv(w, ttl) && PcOf(w, c).Idle? && Decide(w.cache, ttl, now, w.groups).Join? && PcOf(w, d).Computed?
    ensures !ComputedSince(Run(EnterStep(w, ttl, c, now), ttl, LateSchedule(c, d, later)), w.step)
  {
    var y := EnterStep(w, ttl, c, now);
    RunFour(y, ttl, Publish(d, later), Release(d), Wake(c), Look(c));
    var x := Run(y, ttl, LateSchedule(c, d, later));
    assert PcOk(w, w.pcs[d]);
    var i := |w.answers| + 1;
    assert x.answers[i] == Answer(Joining(w, now), w.pcs[d].v);
    OldRecords(w, x, Record(w.pcs[d].v, later, w.step + 1, w.pcs[d].made));
  }

  lemma OldRecords(w: World, x: World, last: Record)
    requires RecordsOk(w) && x.records == w.records + [last] && last.made < w.step
    ensures forall r :: r in x.records ==> r.made < w.step
  {
    forall r | r in x.records ensures r.made < w.step {
      var k :| 0 <= k < |x.records| && x.records[k] == r;
      if k < |w.records| { assert w.records[k] == r; }
    }
  }

  /** A call that joins a flight is sure of an answer computed since it began exactly
      when the computation it joins has not yet returned. */
  lemma JoinIsFreshIff(w: World, ttl: int, c: nat, now: int)
    requires Inv(w, ttl) && PcOf(w, c).Idle? && Decide(w.cache, ttl, now, w.groups).Join?
    ensures (forall schedule :: ComputedSince(Run(EnterStep(w, ttl, c, now), ttl, schedule), w.step)) <==> !Returned(w)
  {
    if Returned(w) {
      var d :| d in w.pcs && w.pcs[d].Computed?;
      JoinedLate(w, ttl, c, d, now, now);
    } else {
      forall schedule ensures ComputedSince(Run(EnterStep(w, ttl, c, now), ttl, schedule), w.step) {
        JoinedInTime(w, ttl, c, now, schedule);
      }
    }
  }

  /** Such a moment comes up: one call computes, and a second arrives before the
      first has recorded what it computed. */
  lemma LateJoinHappens(ttl: int)
    ensures var w := Run(Init, ttl, [Enter(0, 0), Produce(0, "ok")]);
            Inv(w, ttl) && PcOf(w, 1).Idle? && Decide(w.cache, ttl, 0, w.groups).Join? && Returned(w)
  {
    var schedule := [Enter(0, 0), Produce(0, "ok")];
    RunKeeps(Init, ttl, schedule);
    RunCons(Init, ttl, Enter(0, 0), [Produce(0, "ok")]);
    RunCons(Apply(Init, ttl, Enter(0, 0)), ttl, Produce(0, "ok"), []);
    assert [Enter(0, 0)] + [Produce(0, "ok")] == schedule && [Produce(0, "ok")] + [] == [Produce(0, "ok")];
    var w := Run(Init, ttl, schedule);
    assert 0 in w.pcs && w.pcs[0].Computed?;
  }

  // --------------------------------------------------------------- nobody is stranded

  ghost predicate Owned(w: World, g: nat) { exists c :: c in w.pcs && Owns(w.pcs[c]) && w.pcs[c].group == g }

  /** Every group waited for is released, or owned by a call that has yet to release
      it. */
  ghost predicate NoneStranded(w: World) {
    && (w.cache.inFlight.Some? ==> Owned(w, w.cache.inFlight.value))
    && forall c :: c in w.pcs && w.pcs[c].Waiting? ==> w.pcs[c].group in w.done || Owned(w, w.pcs[c].group)
  }

  lemma OwnedKept(w: World, x: World, c: nat, g: nat)
    requires Owned(w, g) && c in x.pcs && (forall d :: d in w.pcs && d != c ==> d in x.pcs && x.pcs[d] == w.pcs[d])
    requires c in w.pcs && Owns(w.pcs[c]) && w.pcs[c].group == g ==> Owns(x.pcs[c]) && x.pcs[c].group == g
    ensures Owned(x, g)
  {
    var d :| d in w.pcs && Owns(w.pcs[d]) && w.pcs[d].group == g;
    assert d in x.pcs && Owns(x.pcs[d]) && x.pcs[d].group == g;
  }

  lemma MoveStrandsNone(w: World, x: World, c: nat)
    requires NoneStranded(w) && c in x.pcs && w.done <= x.done
    requires forall d :: d in w.pcs && d != c ==> d in x.pcs && x.pcs[d] == w.pcs[d]
    requires forall d :: d in x.pcs && d != c ==> d in w.pcs
    requires c in w.pcs && Owns(w.pcs[c]) ==>
               (w.pcs[c].group in x.done && x.cache.inFlight != Some(w.pcs[c].group))
               || (Owns(x.pcs[c]) && x.pcs[c].group == w.pcs[c].group)
    requires x.cache.inFlight.Some? ==>
               x.cache.inFlight == w.cache.inFlight || (Owns(x.pcs[c]) && Some(x.pcs[c].group) == x.cache.inFlight)
    requires x.pcs[c].Waiting? ==> Some(x.pcs[c].group) == w.cache.inFlight == x.cache.inFlight
    ensures NoneStranded(x)
  {
    forall g | Owned(w, g) ensures Owned(x, g) || (g in x.done && x.cache.inFlight != Some(g)) {
      if g in x.done && x.cache.inFlight != Some(g) {} else { OwnedKept(w, x, c, g); }
    }
  }

  /** The action is a computation's panic. */
  predicate Panics(w: World, a: Action) { a.Panic? && PcOf(w, a.c).Computing? }

  predicate Panicked(w: World, ttl: int, schedule: seq<Action>)
    decreases |schedule|
  {
    schedule != [] && (Panics(w, schedule[0]) || Panicked(Apply(w, ttl, schedule[0]), ttl, schedule[1..]))
  }

  lemma StepStrandsNone(w: World, ttl: int, a: Action)
    requires Inv(w, ttl) && NoneStranded(w) && !Panics(w, a)
    ensures NoneStranded(Apply(w, ttl, a))
  {
    var x := Apply(w, ttl, a);
    if x == Stutter(w) {
      assert forall g :: Owned(w, g) ==> Owned(x, g);
    } else {
      if a.c in w.pcs { assert PcOk(w, w.pcs[a.c]); }
      MoveStrandsNone(w, x, a.c);
    }
  }

  /** The flight has nobody left to end it. */
  ghost predicate Lost(w: World) { w.cache.inFlight.Some? && !Owned(w, w.cache.inFlight.value) }

  lemma PanicLoses(w: World, ttl: int, a: Action)
    requires Inv(w, ttl) && Panics(w, a)
    ensures Lost(Apply(w, ttl, a))
  {
    assert PcOk(w, w.pcs[a.c]);
  }

  lemma LostStep(w: World, ttl: int, a: Action)
    requires Inv(w, ttl) && Lost(w)
    ensures Lost(Apply(w, ttl, a)) && Apply(w, ttl, a).records == w.records
  {
    if a.c in w.pcs {
      assert PcOk(w, w.pcs[a.c]);
      assert Owns(w.pcs[a.c]) ==> w.pcs[a.c].group != w.cache.inFlight.value;
    }
  }

  /** From a lost flight on nothing is ever recorded again. */
  lemma {:induction false} LostForGood(w: World, ttl: int, schedule: seq<Action>)
    requires Inv(w, ttl) && Lost(w)
    ensures Lost(Run(w, ttl, schedule)) && Run(w, ttl, schedule).records == w.records
    decreases |schedule|
  {
    if schedule != [] {
      StepKeeps(w, ttl, schedule[0]);
      LostStep(w, ttl, schedule[0]);
      LostForGood(Apply(w, ttl, schedule[0]), ttl, schedule[1..]);
    }
  }

  /** After a schedule every flight and every group waited for has somebody to
      release it, exactly when no computation panicked. */
  lemma {:induction false} NobodyIsStranded(w: World, ttl: int, schedule: seq<Action>)
    requires Inv(w, ttl) && NoneStranded(w)
    ensures NoneStranded(Run(w, ttl, schedule)) <==> !Panicked(w, ttl, schedule)
    decreases |schedule|
  {
    if schedule != [] {
      var a, rest := schedule[0], schedule[1..];
      StepKeeps(w, ttl, a);
      if Panics(w, a) {
        PanicLoses(w, ttl, a);
        LostForGood(Apply(w, ttl, a), ttl, rest);
      } else {
        StepStrandsNone(w, ttl, a);
        NobodyIsStranded(Apply(w, ttl, a), ttl, rest);
      }
    }
  }

  /** The failing run: the leader panics, and the call that joins next is stuck. */
  lemma PanicCanStrand(ttl: int)
    ensures Stuck(Run(Init, ttl, [Enter(0, 0), Panic(0), Enter(1, 0), Wake(1)]), 1, 0)
  {
    RunFour(Init, ttl, Enter(0, 0), Panic(0), Enter(1, 0), Wake(1));
  }

  // ------------------------------------------------------------- who can be released

  /** c waits for a group that is not released and that nobody owns. */
  ghost predicate Stuck(w: World, c: nat, g: nat) {
    PcOf(w, c).Waiting? && PcOf(w, c).group == g < w.groups && g !in w.done && !Owned(w, g)
  }

  lemma StuckStep(w: World, ttl: int, c: nat, g: nat, a: Action)
    requires Stuck(w, c, g)
    ensures Stuck(Apply(w, ttl, a), c, g)
  {
    var x := Apply(w, ttl, a);
    assert a.c in w.pcs && Owns(w.pcs[a.c]) ==> w.pcs[a.c].group != g;
    forall d | d in x.pcs && Owns(x.pcs[d]) ensures x.pcs[d].group != g {
      if d != a.c { assert d in w.pcs && w.pcs[d] == x.pcs[d]; }
    }
  }

  lemma {:induction false} StuckForGood(w: World, ttl: int, c: nat, g: nat, schedule: seq<Action>)
    requires Stuck(w, c, g)
    ensures Stuck(Run(w, ttl, schedule), c, g)
    decreases |schedule|
  {
    if schedule != [] {
      StuckStep(w, ttl, c, g, schedule[0]);
      StuckForGood(Apply(w, ttl, schedule[0]), ttl, c, g, schedule[1..]);
    }
  }

  /** The owner finishes, from wherever it stands, and the waiter wakes. */
  function Rescue(d: nat, c: nat): seq<Action> { [Produce(d, ""), Publish(d, 0), Release(d), Wake(c)] }

  lemma OwnerReleases(w: World, ttl: int, d: nat, c: nat)
    requires PcOf(w, c).Waiting?
             && (PcOf(w, c).group in w.done || (Owns(PcOf(w, d)) && PcOf(w, d).group == PcOf(w, c).group))
    ensures PcOf(Run(w, ttl, Rescue(d, c)), c).Woken?
  {
    var g := PcOf(w, c).group;
    RunFour(w, ttl, Produce(d, ""), Publish(d, 0), Release(d), Wake(c));
    var x := Apply(w, ttl, Produce(d, ""));
    var y := Apply(x, ttl, Publish(d, 0));
    var z := Apply(y, ttl, Release(d));
    assert PcOf(x, c) == PcOf(w, c) && PcOf(y, c) == PcOf(w, c) && PcOf(z, c) == PcOf(w, c);
    assert g in z.done;
  }

  /** A waiting call can still be released, by some continuation, exactly when its
      group has been released or some call still owns it. */
  lemma ReleasableIff(w: World, ttl: int, c: nat)
    requires Inv(w, ttl) && PcOf(w, c).Waiting?
    ensures (exists schedule :: !PcOf(Run(w, ttl, schedule), c).Waiting?) <==>
              PcOf(w, c).group in w.done || Owned(w, PcOf(w, c).group)
  {
    var g := PcOf(w, c).group;
    assert PcOk(w, w.pcs[c]);
    if g in w.done || Owned(w, g) {
      var d := c;
      if g !in w.done { d :| d in w.pcs && Owns(w.pcs[d]) && w.pcs[d].group == g; }
      OwnerReleases(w, ttl, d, c);
    } else {
      forall schedule ensures PcOf(Run(w, ttl, schedule), c).Waiting? { StuckForGood(w, ttl, c, g, schedule); }
    }
  }

  // ------------------------------------------------------------------- the record

  /** The record under the mutex, with its three locked sections. Each is one step of
      the interleaving; the ghost world is where all callers stand. */
  class ReadinessCache {
    var value: Response
    var taken: Option<int>
    var inFlight: Option<nat>
    const ttl: int
    ghost var world: World

    ghost predicate Valid()
      reads this
    {
      Cache(value, taken, inFlight) == world.cache && Inv(world, ttl)
    }

    constructor (ttl: int)
      ensures Valid() && this.ttl == ttl && world == Init
    {
      this.ttl := ttl;
      value, taken, inFlight := "", None, None;
      world := Init;
    }

    /** The first section: a hit is younger than ttl, a call joins only a flight under
        way, and one that leads finds nobody leading. */
    method Begin(c: nat, now: int, group: nat) returns (d: Decision)
      requires Valid() && PcOf(world, c).Idle? && group == world.groups
      modifies this
      ensures Valid() && world == Apply(old(world), ttl, Enter(c, now))
      ensures d.Hit? ==> exists r :: r in world.records && r.value == d.value && now - r.now < ttl
      ensures d.Join? ==> old(inFlight) == Some(d.group) && PcOf(world, c).Waiting? && PcOf(world, c).group == d.group
      ensures d.Lead? ==> PcOf(world, c).Computing? && forall o :: !Leads(PcOf(old(world), o))
    {
      EnterKeeps(world, ttl, c, now);
      if taken.Some? && now - taken.value < ttl {
        d := Hit(value);
        ghost var last := world.records[|world.records| - 1];
        assert last in world.records && last.value == value;
      } else if inFlight.Some? {
        d := Join(inFlight.value);
      } else {
        NobodyLeads(world, ttl);
        inFlight := Some(group);
        d := Lead(group);
      }
      world := Apply(world, ttl, Enter(c, now));
    }

    /** The leader's second section: its value is what the cache answers from now on,
        and the flight is over. */
    method Store(c: nat, v: Response, now: int)
      requires Valid() && PcOf(world, c).Computed? && PcOf(world, c).v == v
      modifies this
      ensures Valid() && world == Apply(old(world), ttl, Publish(c, now))
      ensures forall later, g: nat :: later - now < ttl ==> Decide(world.cache, ttl, later, g) == Hit(v)
      ensures forall o :: !Leads(PcOf(world, o))
    {
      PublishKeeps(world, ttl, c, now);
      value := v;
      taken := Some(now);
      inFlight := None;
      world := Apply(world, ttl, Publish(c, now));
      NobodyLeads(world, ttl);
    }

    /** A waiter's second section: what it reads may answer its call. */
    method Current(c: nat) returns (v: Response)
      requires Valid() && PcOf(world, c).Woken?
      modifies this`world
      ensures Valid() && world == Apply(old(world), ttl, Look(c))
      ensures Justified(world, ttl, Answer(old(world).pcs[c].call, v))
    {
      LookKeeps(world, ttl, c);
      v := value;
      ghost var n := |world.answers|;
      world := Apply(world, ttl, Look(c));
      assert Justified(world, ttl, world.answers[n]);
    }

    /** What callers do without the lock: compute, panic, release and wake. */
    ghost method Elsewhere(a: Action)
      requires Valid() && !a.Enter? && !a.Publish? && !a.Look?
      modifies this`world
      ensures Valid() && world == Apply(old(world), ttl, a)
    {
      StepKeeps(world, ttl, a);
      world := Apply(world, ttl, a);
    }
  }

  /** Without a flight nobody leads. */
  lemma NobodyLeads(w: World, ttl: int)
    requires Inv(w, ttl) && w.cache.inFlight.None?
    ensures forall c :: !Leads(PcOf(w, c))
  {
    forall c ensures !Leads(PcOf(w, c)) { if c in w.pcs { assert PcOk(w, w.pcs[c]); } }
  }
}
