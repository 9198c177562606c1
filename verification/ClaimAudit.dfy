/** The refusal path of the claim route: any number of requests charge the failure
    budgets in any interleaving, and write audit rows only as the budgets allow. */
module ClaimAudit {
  import opened Wrappers
  import opened Limiter

  datatype ClaimKey = Origin(prefix: string) | All | Audited

  const FailuresPerOrigin := 10
  const FailuresGlobal := 60
  /** Fifteen minutes in nanoseconds. */
  const RateWindow := 900_000_000_000

  function Limit(key: ClaimKey): nat {
    match key case Origin(_) => FailuresPerOrigin case All => FailuresGlobal case Audited => 1
  }

  /** Where a request stands in refuseToken; limited is answered with 429, otherwise
      it is 403. */
  datatype Stage = Arrived | OriginCharged(limited: bool) | Charged(limited: bool) | Answered(limited: bool)

  /** refused and rateLimited are the requests whose audit row of that kind was
      written. The rest is history: who came from where, whose charge of a budget was
      allowed, and whose audit write goes through if there is one. */
  datatype World = World(windows: Windows<ClaimKey>, calls: seq<Call<ClaimKey>>, answers: seq<Answer>,
                         stages: map<nat, Stage>, refused: set<nat>, rateLimited: set<nat>,
                         origins: map<nat, Option<string>>, paid: map<ClaimKey, set<nat>>, written: set<nat>)

  /** written is false when the audit row could not be inserted and was dropped. */
  datatype Action =
    | Arrive(r: nat, origin: Option<string>)
    | ChargeOrigin(r: nat, now: int)
    | ChargeGlobal(r: nat, now: int)
    | Finish(r: nat, now: int, written: bool)

  const Init := World(map[], [], [], map[], {}, {}, map[], map[], {})

  function CallOf(key: ClaimKey, now: int): Call<ClaimKey> { Call(key, Limit(key), RateWindow, now) }

  function AnswerOf(w: World, c: Call<ClaimKey>): Answer { Judge(Count(Swept(w.windows, c.now), c)[c.key], c.limit) }

  function Charge(w: World, c: Call<ClaimKey>): World {
    w.(windows := Count(Swept(w.windows, c.now), c), calls := w.calls + [c], answers := w.answers + [AnswerOf(w, c)])
  }

  function Goto(w: World, r: nat, s: Stage): World { w.(stages := w.stages[r := s]) }

  function Paid(w: World, key: ClaimKey): set<nat> { if key in w.paid then w.paid[key] else {} }

  /** Request r charges one unit, and the history keeps it if that was allowed. */
  function ChargeBy(w: World, r: nat, c: Call<ClaimKey>): World {
    Charge(w, c).(paid := if AnswerOf(w, c).ok then w.paid[c.key := Paid(w, c.key) + {r}] else w.paid)
  }

  function ChargeOriginStep(w: World, r: nat, origin: Option<string>, now: int): World {
    match origin
    case None => Goto(w, r, OriginCharged(false))
    case Some(p) =>
      var c := CallOf(Origin(p), now);
      Goto(ChargeBy(w, r, c), r, OriginCharged(!AnswerOf(w, c).ok))
  }

  function ChargeGlobalStep(w: World, r: nat, limited: bool, now: int): World {
    var c := CallOf(All, now);
    Goto(ChargeBy(w, r, c), r, Charged(limited || !AnswerOf(w, c).ok))
  }

  /** The audit row of r, if it is written at all. */
  function Noted(w: World, r: nat, limited: bool, written: bool): World {
    if !written then w
    else if limited then w.(written := w.written + {r}, rateLimited := w.rateLimited + {r})
    else w.(written := w.written + {r}, refused := w.refused + {r})
  }

  function FinishStep(w: World, r: nat, limited: bool, now: int, written: bool): World {
    if !limited then Noted(Goto(w, r, Answered(false)), r, false, written)
    else
      var c := CallOf(Audited, now);
      var x := Goto(ChargeBy(w, r, c), r, Answered(true));
      if AnswerOf(w, c).ok then Noted(x, r, true, written)
      else x.(written := if written then x.written + {r} else x.written)
  }

  /** An action that is not enabled changes nothing. */
  function Apply(w: World, a: Action): World {
    match a
    case Arrive(r, origin) =>
      if r in w.stages then w else Goto(w, r, Arrived).(origins := w.origins[r := origin])
    case ChargeOrigin(r, now) =>
      if r in w.stages && w.stages[r].Arrived? && r in w.origins then ChargeOriginStep(w, r, w.origins[r], now) else w
    case ChargeGlobal(r, now) =>
      if r in w.stages && w.stages[r].OriginCharged? then ChargeGlobalStep(w, r, w.stages[r].limited, now) else w
    case Finish(r, now, written) =>
      if r in w.stages && w.stages[r].Charged? then FinishStep(w, r, w.stages[r].limited, now, written) else w
  }

  function Run(w: World, schedule: seq<Action>): World
    decreases |schedule|
  {
    if schedule == [] then w else Run(Apply(w, schedule[0]), schedule[1..])
  }

  // ------------------------------------------------------------- the log of charges

  function After(ws: Windows<ClaimKey>, calls: seq<Call<ClaimKey>>): Windows<ClaimKey>
    decreases |calls|
  {
    if calls == [] then ws else After(Count(Swept(ws, calls[0].now), calls[0]), calls[1..])
  }

  lemma {:induction false} AnswersSnoc(ws: Windows<ClaimKey>, calls: seq<Call<ClaimKey>>, c: Call<ClaimKey>)
    ensures var end := Count(Swept(After(ws, calls), c.now), c);
            && After(ws, calls + [c]) == end
            && Answers(ws, calls + [c]) == Answers(ws, calls) + [Judge(end[c.key], c.limit)]
    decreases |calls|
  {
    if calls == [] {
      assert calls + [c] == [c] && [c][1..] == [];
    } else {
      assert (calls + [c])[0] == calls[0] && (calls + [c])[1..] == calls[1..] + [c];
      AnswersSnoc(Count(Swept(ws, calls[0].now), calls[0]), calls[1..], c);
    }
  }

  lemma Regroup(a: seq<int>, b: seq<int>, c: seq<int>)
    ensures a + b + c == a + (b + c) && [] + b == b && b + [] == b
  {
  }

  lemma {:induction false} AllowedSnoc(calls: seq<Call<ClaimKey>>, answers: seq<Answer>, c: Call<ClaimKey>, a: Answer,
                                       key: ClaimKey)
    requires |calls| == |answers|
    ensures AllowedOf(calls + [c], answers + [a], key)
            == AllowedOf(calls, answers, key) + (if c.key == key && a.ok then [c.now] else [])
    decreases |calls|
  {
    if calls == [] {
      assert calls + [c] == [c] && answers + [a] == [a] && [c][1..] == [] && [a][1..] == [];
      Regroup([], if c.key == key && a.ok then [c.now] else [], []);
    } else {
      assert (calls + [c])[0] == calls[0] && (calls + [c])[1..] == calls[1..] + [c];
      assert (answers + [a])[0] == answers[0] && (answers + [a])[1..] == answers[1..] + [a];
      AllowedSnoc(calls[1..], answers[1..], c, a, key);
      Regroup(if calls[0].key == key && answers[0].ok then [calls[0].now] else [],
              AllowedOf(calls[1..], answers[1..], key),
              if c.key == key && a.ok then [c.now] else []);
    }
  }

  ghost predicate LogOk(w: World) {
    && w.windows == After(map[], w.calls) && w.answers == Answers(map[], w.calls)
    && forall i :: 0 <= i < |w.calls| ==> w.calls[i].limit == Limit(w.calls[i].key) && w.calls[i].length == RateWindow
  }

  ghost predicate CountsOk(w: World)
    requires |w.calls| == |w.answers|
  {
    forall key :: |Paid(w, key)| == |AllowedOf(w.calls, w.answers, key)|
  }

  /** A request whose address names no origin is not charged for one. */
  predicate OriginOk(w: World, r: nat)
    requires r in w.origins
  {
    w.origins[r].None? || r in Paid(w, Origin(w.origins[r].value))
  }

  /** What every request has paid for and got, at each stage. */
  ghost predicate StageOk(w: World, r: nat, s: Stage)
    requires r in w.origins
  {
    && (!s.Answered? ==> r !in w.refused && r !in w.rateLimited && r !in w.written && r !in Paid(w, Audited))
    && match s
       case Arrived => forall key :: r !in Paid(w, key)
       case OriginCharged(limited) => r !in Paid(w, All) && limited == !OriginOk(w, r)
       case Charged(limited) => limited == !(OriginOk(w, r) && r in Paid(w, All))
       case Answered(limited) =>
         && limited == !(OriginOk(w, r) && r in Paid(w, All))
         && (r in w.refused <==> r in w.written && !limited)
         && (r in w.rateLimited <==> r in w.written && limited && r in Paid(w, Audited))
  }

  ghost predicate Unknown(w: World, r: nat) {
    && r !in w.refused && r !in w.rateLimited && r !in w.written && forall key :: r !in Paid(w, key)
  }

  ghost predicate StagesOk(w: World) {
    && w.origins.Keys == w.stages.Keys
    && (forall r :: r in w.stages ==> StageOk(w, r, w.stages[r]))
    && (forall r :: r !in w.stages ==> Unknown(w, r))
  }

  /** The limiter's state and log, and the history of who paid. */
  ghost predicate BooksOk(w: World) { |w.calls| == |w.answers| && LogOk(w) && CountsOk(w) }

  ghost predicate Inv(w: World) { BooksOk(w) && StagesOk(w) }

  lemma ChargeKeepsLog(w: World, key: ClaimKey, now: int)
    requires |w.calls| == |w.answers| && LogOk(w)
    ensures LogOk(Charge(w, CallOf(key, now)))
  {
    AnswersSnoc(map[], w.calls, CallOf(key, now));
  }

  lemma ChargeCounts(w: World, key: ClaimKey, now: int, counted: ClaimKey)
    requires |w.calls| == |w.answers|
    ensures var c := CallOf(key, now);
            var x := Charge(w, c);
            |AllowedOf(x.calls, x.answers, counted)|
            == |AllowedOf(w.calls, w.answers, counted)| + if key == counted && AnswerOf(w, c).ok then 1 else 0
  {
    var c := CallOf(key, now);
    AllowedSnoc(w.calls, w.answers, c, AnswerOf(w, c), counted);
  }

  lemma ChargeByCounts(w: World, r: nat, key: ClaimKey, now: int)
    requires BooksOk(w) && r !in Paid(w, key)
    ensures BooksOk(ChargeBy(w, r, CallOf(key, now)))
  {
    var x := ChargeBy(w, r, CallOf(key, now));
    ChargeKeepsLog(w, key, now);
    forall counted ensures |Paid(x, counted)| == |AllowedOf(x.calls, x.answers, counted)| {
      ChargeCounts(w, key, now, counted);
    }
  }

  lemma SameBooks(w: World, x: World)
    requires BooksOk(w) && x.windows == w.windows && x.calls == w.calls && x.answers == w.answers && x.paid == w.paid
    ensures BooksOk(x)
  {
    forall key ensures Paid(x, key) == Paid(w, key) {}
  }

  lemma PaidAfter(w: World, r: nat, c: Call<ClaimKey>, key: ClaimKey)
    ensures Paid(ChargeBy(w, r, c), key) == Paid(w, key) + if key == c.key && AnswerOf(w, c).ok then {r} else {}
  {
  }

  /** Only r's part of the history changed. */
  ghost predicate OnlyBy(w: World, x: World, r: nat) {
    && x.origins == w.origins && x.stages.Keys == w.stages.Keys && forall q :: q != r ==> SameFor(w, x, q)
  }

  ghost predicate SameFor(w: World, x: World, q: nat) {
    && (q in w.refused <==> q in x.refused) && (q in w.rateLimited <==> q in x.rateLimited)
    && (q in w.written <==> q in x.written) && (q in w.stages ==> q in x.stages && x.stages[q] == w.stages[q])
    && forall key :: q in Paid(w, key) <==> q in Paid(x, key)
  }

  lemma ChargedOnlyBy(w: World, r: nat, c: Call<ClaimKey>, s: Stage)
    requires r in w.stages
    ensures OnlyBy(w, Goto(ChargeBy(w, r, c), r, s), r)
  {
    var x := Goto(ChargeBy(w, r, c), r, s);
    forall q | q != r ensures SameFor(w, x, q) {
      forall key ensures q in Paid(w, key) <==> q in Paid(x, key) { PaidAfter(w, r, c, key); }
    }
  }

  lemma OriginStages(w: World, r: nat, p: string, now: int)
    requires StagesOk(w) && r in w.stages && w.stages[r].Arrived? && w.origins[r] == Some(p)
    ensures StagesOk(ChargeOriginStep(w, r, Some(p), now))
  {
    var c := CallOf(Origin(p), now);
    assert StageOk(w, r, w.stages[r]);
    ChargedOnlyBy(w, r, c, OriginCharged(!AnswerOf(w, c).ok));
    PaidAfter(w, r, c, Origin(p));
    PaidAfter(w, r, c, All);
    PaidAfter(w, r, c, Audited);
    StagesAfter(w, ChargeOriginStep(w, r, Some(p), now), r);
  }

  lemma NoOriginStages(w: World, r: nat, now: int)
    requires StagesOk(w) && r in w.stages && w.stages[r].Arrived? && w.origins[r] == None
    ensures StagesOk(ChargeOriginStep(w, r, None, now))
  {
    var x := ChargeOriginStep(w, r, None, now);
    assert StageOk(w, r, w.stages[r]);
    forall key ensures Paid(x, key) == Paid(w, key) {}
    StagesAfter(w, x, r);
  }

  lemma ChargeOriginKeeps(w: World, r: nat, now: int)
    requires Inv(w) && r in w.stages && w.stages[r].Arrived?
    ensures Inv(ChargeOriginStep(w, r, w.origins[r], now))
  {
    var x := ChargeOriginStep(w, r, w.origins[r], now);
    if w.origins[r].Some? {
      var key := Origin(w.origins[r].value);
      assert StageOk(w, r, w.stages[r]);
      ChargeByCounts(w, r, key, now);
      SameBooks(ChargeBy(w, r, CallOf(key, now)), x);
      OriginStages(w, r, w.origins[r].value, now);
    } else {
      SameBooks(w, x);
      NoOriginStages(w, r, now);
    }
  }

  lemma GlobalPaid(w: World, r: nat, now: int, s: Stage)
    requires StagesOk(w) && r in w.stages && w.stages[r].OriginCharged?
    ensures var c := CallOf(All, now);
            var x := Goto(ChargeBy(w, r, c), r, s);
            && OriginOk(x, r) == OriginOk(w, r) && r !in Paid(x, Audited)
            && (r in Paid(x, All) <==> AnswerOf(w, c).ok)
  {
    var c := CallOf(All, now);
    assert StageOk(w, r, w.stages[r]);
    PaidAfter(w, r, c, All);
    PaidAfter(w, r, c, Audited);
    if w.origins[r].Some? { PaidAfter(w, r, c, Origin(w.origins[r].value)); }
  }

  lemma GlobalStages(w: World, r: nat, now: int)
    requires StagesOk(w) && r in w.stages && w.stages[r].OriginCharged?
    ensures StagesOk(ChargeGlobalStep(w, r, w.stages[r].limited, now))
  {
    var c := CallOf(All, now);
    var s := Charged(w.stages[r].limited || !AnswerOf(w, c).ok);
    assert StageOk(w, r, w.stages[r]);
    ChargedOnlyBy(w, r, c, s);
    GlobalPaid(w, r, now, s);
    StagesAfter(w, Goto(ChargeBy(w, r, c), r, s), r);
  }

  lemma ChargeGlobalKeeps(w: World, r: nat, now: int)
    requires Inv(w) && r in w.stages && w.stages[r].OriginCharged?
    ensures Inv(ChargeGlobalStep(w, r, w.stages[r].limited, now))
  {
    assert StageOk(w, r, w.stages[r]);
    ChargeByCounts(w, r, All, now);
    SameBooks(ChargeBy(w, r, CallOf(All, now)), ChargeGlobalStep(w, r, w.stages[r].limited, now));
    GlobalStages(w, r, now);
  }

  /** The same, apart from rows and writes of r. */
  lemma RowsOnlyBy(w: World, y: World, x: World, r: nat)
    requires OnlyBy(w, y, r) && x == y.(written := x.written, refused := x.refused, rateLimited := x.rateLimited)
    requires x.written - {r} == y.written - {r} && x.refused - {r} == y.refused - {r}
    requires x.rateLimited - {r} == y.rateLimited - {r}
    ensures OnlyBy(w, x, r)
  {
    forall q | q != r ensures SameFor(w, x, q) {
      assert SameFor(w, y, q);
      assert q in x.written - {r} <==> q in y.written - {r};
      assert q in x.refused - {r} <==> q in y.refused - {r};
      assert q in x.rateLimited - {r} <==> q in y.rateLimited - {r};
      forall key ensures Paid(x, key) == Paid(y, key) {}
    }
  }

  lemma MovedOnlyBy(w: World, r: nat, s: Stage)
    requires r in w.stages
    ensures OnlyBy(w, Goto(w, r, s), r)
  {
    var x := Goto(w, r, s);
    forall q | q != r ensures SameFor(w, x, q) {
      forall key ensures Paid(x, key) == Paid(w, key) {}
    }
  }

  lemma FinishOnlyBy(w: World, r: nat, now: int, limited: bool, written: bool)
    requires r in w.stages
    ensures OnlyBy(w, FinishStep(w, r, limited, now, written), r)
  {
    var x, c := FinishStep(w, r, limited, now, written), CallOf(Audited, now);
    if limited {
      ChargedOnlyBy(w, r, c, Answered(true));
      RowsOnlyBy(w, Goto(ChargeBy(w, r, c), r, Answered(true)), x, r);
    } else {
      MovedOnlyBy(w, r, Answered(false));
      RowsOnlyBy(w, Goto(w, r, Answered(false)), x, r);
    }
  }

  lemma FinishPaid(w: World, r: nat, now: int, limited: bool, written: bool, key: ClaimKey)
    ensures Paid(FinishStep(w, r, limited, now, written), key)
            == Paid(w, key)
               + if limited && key == Audited && AnswerOf(w, CallOf(Audited, now)).ok then {r} else {}
  {
    PaidAfter(w, r, CallOf(Audited, now), key);
  }

  lemma FinishStages(w: World, r: nat, now: int, written: bool)
    requires StagesOk(w) && r in w.stages && w.stages[r].Charged?
    ensures StagesOk(FinishStep(w, r, w.stages[r].limited, now, written))
  {
    var limited := w.stages[r].limited;
    var x := FinishStep(w, r, limited, now, written);
    assert StageOk(w, r, w.stages[r]);
    FinishOnlyBy(w, r, now, limited, written);
    FinishPaid(w, r, now, limited, written, Audited);
    FinishPaid(w, r, now, limited, written, All);
    if w.origins[r].Some? { FinishPaid(w, r, now, limited, written, Origin(w.origins[r].value)); }
    StagesAfter(w, x, r);
  }

  lemma FinishBooks(w: World, r: nat, now: int, limited: bool, written: bool)
    requires BooksOk(w) && r !in Paid(w, Audited)
    ensures BooksOk(FinishStep(w, r, limited, now, written))
  {
    var x := FinishStep(w, r, limited, now, written);
    if limited {
      ChargeByCounts(w, r, Audited, now);
      SameBooks(ChargeBy(w, r, CallOf(Audited, now)), x);
    } else {
      SameBooks(w, x);
    }
  }

  lemma FinishKeeps(w: World, r: nat, now: int, written: bool)
    requires Inv(w) && r in w.stages && w.stages[r].Charged?
    ensures Inv(FinishStep(w, r, w.stages[r].limited, now, written))
  {
    assert StageOk(w, r, w.stages[r]);
    FinishBooks(w, r, now, w.stages[r].limited, written);
    FinishStages(w, r, now, written);
  }

  lemma StagesAfter(w: World, x: World, r: nat)
    requires StagesOk(w) && r in w.stages && OnlyBy(w, x, r) && StageOk(x, r, x.stages[r])
    ensures StagesOk(x)
  {
    forall q | q in x.stages ensures StageOk(x, q, x.stages[q]) {
      if q != r { assert StageOk(w, q, w.stages[q]) && SameFor(w, x, q); }
    }
    forall q | q !in x.stages ensures Unknown(x, q) {
      assert Unknown(w, q) && SameFor(w, x, q);
    }
  }

  lemma ArriveKeeps(w: World, r: nat, origin: Option<string>)
    requires Inv(w) && r !in w.stages
    ensures Inv(Apply(w, Arrive(r, origin)))
  {
    var x := Apply(w, Arrive(r, origin));
    assert Unknown(w, r);
    forall key ensures Paid(x, key) == Paid(w, key) {}
    forall q | q in x.stages ensures StageOk(x, q, x.stages[q]) {
      if q != r { assert StageOk(w, q, w.stages[q]); }
    }
    forall q | q !in x.stages ensures Unknown(x, q) { assert Unknown(w, q); }
  }

  lemma StepKeeps(w: World, a: Action)
    requires Inv(w)
    ensures Inv(Apply(w, a))
  {
    match a
    case Arrive(r, origin) => if r !in w.stages { ArriveKeeps(w, r, origin); }
    case ChargeOrigin(r, now) => if r in w.stages && w.stages[r].Arrived? { ChargeOriginKeeps(w, r, now); }
    case ChargeGlobal(r, now) => if r in w.stages && w.stages[r].OriginCharged? { ChargeGlobalKeeps(w, r, now); }
    case Finish(r, now, written) => if r in w.stages && w.stages[r].Charged? { FinishKeeps(w, r, now, written); }
  }

  lemma {:induction false} RunKeeps(w: World, schedule: seq<Action>)
    requires Inv(w)
    ensures Inv(Run(w, schedule))
    decreases |schedule|
  {
    if schedule != [] {
      StepKeeps(w, schedule[0]);
      RunKeeps(Apply(w, schedule[0]), schedule[1..]);
    }
  }

  lemma SubsetSize(a: set<nat>, b: set<nat>)
    requires a <= b
    ensures |a| <= |b|
  {
    assert b == a + (b - a);
  }

  lemma InitOk()
    ensures Inv(Init)
  {
    forall key ensures Paid(Init, key) == {} && AllowedOf<ClaimKey>([], [], key) == [] {}
  }

  /** In every interleaving: a request is answered 429 exactly when the charge of its
      origin or the global one was not allowed, and 403 otherwise. Its audit row, if
      the write goes through, is a refused one exactly with a 403, and a rate_limited
      one exactly with a 429 whose charge of the audit budget was allowed. */
  lemma RowsIff(schedule: seq<Action>, r: nat)
    requires var w := Run(Init, schedule); r in w.stages && w.stages[r].Answered?
    ensures var w := Run(Init, schedule);
            && r in w.origins
            && var bothOk := (w.origins[r] == None || r in Paid(w, Origin(w.origins[r].value))) && r in Paid(w, All);
            && (w.stages[r].limited <==> !bothOk)
            && (r in w.refused <==> r in w.written && bothOk)
            && (r in w.rateLimited <==> r in w.written && !bothOk && r in Paid(w, Audited))
  {
    InitOk();
    RunKeeps(Init, schedule);
    assert StageOk(Run(Init, schedule), r, Run(Init, schedule).stages[r]);
  }

  /** The requests of one origin that have a refused row. */
  function RefusedFrom(w: World, p: string): set<nat> {
    set r | r in w.refused && r in w.origins && w.origins[r] == Some(p)
  }

  lemma RefusedPaid(w: World, p: string)
    requires Inv(w)
    ensures w.refused <= Paid(w, All) && w.rateLimited <= Paid(w, Audited)
    ensures RefusedFrom(w, p) <= Paid(w, Origin(p))
  {
    forall r | r in w.refused || r in w.rateLimited
      ensures r in w.stages && StageOk(w, r, w.stages[r])
    {
      assert r in w.stages || Unknown(w, r);
    }
  }

  /** However requests interleave, if the limiter is called in clock order a run that
      lasts from first to last writes, for each fifteen minutes that fit it and once
      more, at most 60 refused rows, ten of them for requests of one origin, and one
      rate_limited row. */
  lemma AuditRowsAreBounded(schedule: seq<Action>, first: int, last: int, p: string)
    requires var w := Run(Init, schedule);
             && first <= last && InOrder(w.calls, first)
             && forall i :: 0 <= i < |w.calls| ==> first <= w.calls[i].now <= last
    ensures var w, n := Run(Init, schedule), (last - first) / 900_000_000_000 + 1;
            |w.refused| <= 60 * n && |w.rateLimited| <= n && |RefusedFrom(w, p)| <= 10 * n
  {
    var w := Run(Init, schedule);
    InitOk();
    RunKeeps(Init, schedule);
    RefusedPaid(w, p);
    SubsetSize(w.refused, Paid(w, All));
    SubsetSize(w.rateLimited, Paid(w, Audited));
    SubsetSize(RefusedFrom(w, p), Paid(w, Origin(p)));
    RunBound(w.calls, All, FailuresGlobal, RateWindow, first, last);
    RunBound(w.calls, Audited, 1, RateWindow, first, last);
    RunBound(w.calls, Origin(p), FailuresPerOrigin, RateWindow, first, last);
  }
}
