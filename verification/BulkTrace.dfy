/** What the events of a bulk save look like, for every number of builders, hooks and failing checks. */
module BulkTrace {
  import opened Basics
  import opened AccountCreate
  import opened BulkCreate

  type Step = (nat, nat)  // a builder and one of its hooks

  function EnterOf(): Step -> Event {
    (s: Step) => Enter(s.0, s.1)
  }

  function ExitOf(): Step -> Event {
    (s: Step) => Exit(s.0, s.1)
  }

  function IsEnter(): Event -> bool {
    (e: Event) => e.Enter?
  }

  function IsFill(): Event -> bool {
    (e: Event) => e.Fill?
  }

  function IsInsert(): Event -> bool {
    (e: Event) => e.Insert?
  }

  function Reverse<T>(xs: seq<T>): (ys: seq<T>)
    ensures |ys| == |xs|
    ensures forall i :: 0 <= i < |xs| ==> ys[i] == xs[|xs| - 1 - i]
  {
    seq(|xs|, i requires 0 <= i < |xs| => xs[|xs| - 1 - i])
  }

  /** The hooks a run enters from hook h of builder i on. */
  function Entered(problems: seq<Option<CreateError>>, hooks: seq<nat>, i: nat, h: nat): seq<Step>
    requires i < |problems| == |hooks| && h <= hooks[i]
    decreases |problems| - i, hooks[i] - h
  {
    if h < hooks[i] then [(i, h)] + Entered(problems, hooks, i, h + 1)
    else if problems[i].Some? || i + 1 == |problems| then []
    else Entered(problems, hooks, i + 1, 0)
  }

  /** Everything up to the innermost point. */
  function Opening(problems: seq<Option<CreateError>>, hooks: seq<nat>, i: nat, h: nat): seq<Event>
    requires i < |problems| == |hooks| && h <= hooks[i]
    decreases |problems| - i, hooks[i] - h
  {
    if h < hooks[i] then [Enter(i, h)] + Opening(problems, hooks, i, h + 1)
    else if problems[i].Some? then [Reject(i)]
    else [Fill(i)] + (if i + 1 < |problems| then Opening(problems, hooks, i + 1, 0) else [Insert])
  }

  lemma {:induction false} LeftLast(first: Step, rest: seq<Step>)
    ensures Map(ExitOf(), Reverse([first] + rest)) == Map(ExitOf(), Reverse(rest)) + [Exit(first.0, first.1)]
  {
    assert Reverse([first] + rest) == Reverse(rest) + [first];
  }

  /** Well nested: after the opening the hooks are left in exactly the reverse of the order they were entered in. */
  lemma {:induction false} WellNested(problems: seq<Option<CreateError>>, hooks: seq<nat>, i: nat, h: nat)
    requires i < |problems| == |hooks| && h <= hooks[i]
    ensures Trace(problems, hooks, i, h)
         == Opening(problems, hooks, i, h) + Map(ExitOf(), Reverse(Entered(problems, hooks, i, h)))
    decreases |problems| - i, hooks[i] - h
  {
    hide Reverse, Trace, Opening, Entered;
    OneStep(problems, hooks, i, h);
    if h < hooks[i] {
      var inner := Entered(problems, hooks, i, h + 1);
      WellNested(problems, hooks, i, h + 1);
      LeftLast((i, h), inner);
      Enclosed([Enter(i, h)], Opening(problems, hooks, i, h + 1), Map(ExitOf(), Reverse(inner)), [Exit(i, h)]);
    } else if problems[i].None? && i + 1 < |problems| {
      WellNested(problems, hooks, i + 1, 0);
      Enclosed([Fill(i)], Opening(problems, hooks, i + 1, 0),
               Map(ExitOf(), Reverse(Entered(problems, hooks, i + 1, 0))), []);
    } else {
      assert Map(ExitOf(), Reverse([])) == [];
    }
  }

  /** What a run, its opening and the hooks entered have in front. */
  lemma {:induction false} OneStep(problems: seq<Option<CreateError>>, hooks: seq<nat>, i: nat, h: nat)
    requires i < |problems| == |hooks| && h <= hooks[i]
    ensures h < hooks[i] ==>
              && Trace(problems, hooks, i, h) == [Enter(i, h)] + Trace(problems, hooks, i, h + 1) + [Exit(i, h)]
              && Opening(problems, hooks, i, h) == [Enter(i, h)] + Opening(problems, hooks, i, h + 1)
              && Entered(problems, hooks, i, h) == [(i, h)] + Entered(problems, hooks, i, h + 1)
    ensures h == hooks[i] && problems[i].Some? ==>
              && Trace(problems, hooks, i, h) == Opening(problems, hooks, i, h) == [Reject(i)]
              && Entered(problems, hooks, i, h) == [] && FirstInvalid(problems, i) == i
    ensures h == hooks[i] && problems[i].None? && i + 1 < |problems| ==>
              && Trace(problems, hooks, i, h) == [Fill(i)] + Trace(problems, hooks, i + 1, 0)
              && Opening(problems, hooks, i, h) == [Fill(i)] + Opening(problems, hooks, i + 1, 0)
              && Entered(problems, hooks, i, h) == Entered(problems, hooks, i + 1, 0)
              && FirstInvalid(problems, i) == FirstInvalid(problems, i + 1)
    ensures h == hooks[i] && problems[i].None? && i + 1 == |problems| ==>
              && Trace(problems, hooks, i, h) == Opening(problems, hooks, i, h) == [Fill(i), Insert]
              && Entered(problems, hooks, i, h) == [] && FirstInvalid(problems, i) == i + 1
  {
  }

  lemma {:induction false} Enclosed(first: seq<Event>, opening: seq<Event>, exits: seq<Event>, last: seq<Event>)
    ensures first + (opening + exits) + last == (first + opening) + (exits + last)
  {
  }

  lemma {:induction false} FilterCons<T(!new)>(x: T, xs: seq<T>, p: T -> bool)
    ensures Filter([x] + xs, p) == if p(x) then [x] + Filter(xs, p) else Filter(xs, p)
  {
    FilterConcat([x], xs, p);
    FilterSnoc([], x, p);
    assert [] + [x] == [x];
  }

  /** The opening enters those hooks in that order, and leaves none. */
  lemma {:induction false} OpeningEnters(problems: seq<Option<CreateError>>, hooks: seq<nat>, i: nat, h: nat)
    requires i < |problems| == |hooks| && h <= hooks[i]
    ensures Filter(Opening(problems, hooks, i, h), IsEnter()) == Map(EnterOf(), Entered(problems, hooks, i, h))
    ensures forall e :: e in Opening(problems, hooks, i, h) ==> !e.Exit?
    decreases |problems| - i, hooks[i] - h
  {
    var p := IsEnter();
    if h < hooks[i] {
      OpeningEnters(problems, hooks, i, h + 1);
      FilterCons(Enter(i, h), Opening(problems, hooks, i, h + 1), p);
      var inner := Entered(problems, hooks, i, h + 1);
      assert Map(EnterOf(), [(i, h)] + inner) == [Enter(i, h)] + Map(EnterOf(), inner);
    } else if problems[i].Some? {
      FilterCons(Reject(i), [], p);
      assert [Reject(i)] + [] == [Reject(i)];
    } else if i + 1 < |problems| {
      OpeningEnters(problems, hooks, i + 1, 0);
      FilterCons(Fill(i), Opening(problems, hooks, i + 1, 0), p);
    } else {
      FilterCons(Fill(i), [Insert], p);
      FilterCons(Insert, [], p);
      assert [Insert] + [] == [Insert];
    }
  }

  predicate Before(a: Step, b: Step) {
    a.0 < b.0 || (a.0 == b.0 && a.1 < b.1)
  }

  /** Hook 0 of the first builder is outermost, a builder's hooks enclose those of the next, and no hook of a
      builder that is reached is left out: all builders up to the first invalid one are. */
  lemma {:induction false} EnteredInOrder(problems: seq<Option<CreateError>>, hooks: seq<nat>, i: nat, h: nat)
    requires i < |problems| == |hooks| && h <= hooks[i]
    ensures var es := Entered(problems, hooks, i, h);
            && (forall a, b :: 0 <= a < b < |es| ==> Before(es[a], es[b]))
            && (forall s: Step :: s in es <==>
                  i <= s.0 <= FirstInvalid(problems, i) && s.0 < |problems| && s.1 < hooks[s.0]
                  && (s.0 == i ==> h <= s.1))
    decreases |problems| - i, hooks[i] - h
  {
    if h < hooks[i] {
      EnteredInOrder(problems, hooks, i, h + 1);
      var inner := Entered(problems, hooks, i, h + 1);
      forall a, b | 0 <= a < b < |[(i, h)] + inner| ensures Before(([(i, h)] + inner)[a], ([(i, h)] + inner)[b]) {
        assert inner[b - 1] in inner;
      }
    } else if problems[i].None? && i + 1 < |problems| {
      EnteredInOrder(problems, hooks, i + 1, 0);
    }
  }

  function Fills(i: nat, k: nat): (fills: seq<Event>)
    requires i <= k
    ensures |fills| == k - i && forall j :: 0 <= j < |fills| ==> fills[j] == Fill(i + j)
    decreases k - i
  {
    if i == k then [] else [Fill(i)] + Fills(i + 1, k)
  }

  /** Rows are described in builder order, for the builders before the first invalid one. */
  lemma {:induction false} OpeningFills(problems: seq<Option<CreateError>>, hooks: seq<nat>, i: nat, h: nat)
    requires i < |problems| == |hooks| && h <= hooks[i]
    ensures Filter(Opening(problems, hooks, i, h), IsFill()) == Fills(i, FirstInvalid(problems, i))
    decreases |problems| - i, hooks[i] - h
  {
    hide Filter;
    var p := IsFill();
    if h < hooks[i] {
      OpeningFills(problems, hooks, i, h + 1);
      FilterCons(Enter(i, h), Opening(problems, hooks, i, h + 1), p);
    } else if problems[i].Some? {
      FilterNone([Reject(i)], p);
    } else if i + 1 < |problems| {
      OpeningFills(problems, hooks, i + 1, 0);
      FilterCons(Fill(i), Opening(problems, hooks, i + 1, 0), p);
    } else {
      FilterCons(Fill(i), [Insert], p);
      FilterNone([Insert], p);
    }
  }

  /** There is an insert exactly if there is no invalid builder, and then only one. */
  lemma {:induction false} OpeningInserts(problems: seq<Option<CreateError>>, hooks: seq<nat>, i: nat, h: nat)
    requires i < |problems| == |hooks| && h <= hooks[i]
    ensures Filter(Opening(problems, hooks, i, h), IsInsert())
            == if FirstInvalid(problems, i) == |problems| then [Insert] else []
    decreases |problems| - i, hooks[i] - h
  {
    hide Filter;
    var p := IsInsert();
    if h < hooks[i] {
      OpeningInserts(problems, hooks, i, h + 1);
      FilterCons(Enter(i, h), Opening(problems, hooks, i, h + 1), p);
    } else if problems[i].Some? {
      FilterNone([Reject(i)], p);
    } else if i + 1 < |problems| {
      OpeningInserts(problems, hooks, i + 1, 0);
      FilterCons(Fill(i), Opening(problems, hooks, i + 1, 0), p);
    } else {
      FilterCons(Fill(i), [Insert], p);
      FilterAll([Insert], p);
    }
  }

  /** The innermost point, the last event of the opening, is the insert or the rejection of the first
      invalid builder. */
  lemma {:induction false} OpeningEnds(problems: seq<Option<CreateError>>, hooks: seq<nat>, i: nat, h: nat)
    requires i < |problems| == |hooks| && h <= hooks[i]
    ensures var opening, k := Opening(problems, hooks, i, h), FirstInvalid(problems, i);
            opening != [] && opening[|opening| - 1] == if k == |problems| then Insert else Reject(k)
    decreases |problems| - i, hooks[i] - h
  {
    hide Opening, FirstInvalid;
    OneStep(problems, hooks, i, h);
    if h < hooks[i] {
      OpeningEnds(problems, hooks, i, h + 1);
      LastStays(Enter(i, h), Opening(problems, hooks, i, h + 1));
    } else if problems[i].None? && i + 1 < |problems| {
      OpeningEnds(problems, hooks, i + 1, 0);
      LastStays(Fill(i), Opening(problems, hooks, i + 1, 0));
    }
  }

  lemma {:induction false} LastStays(first: Event, rest: seq<Event>)
    requires rest != []
    ensures var all := [first] + rest; all[|all| - 1] == rest[|rest| - 1]
  {
  }

  /** Over a whole run: the insert happens once if every check passes, and never otherwise. */
  lemma {:induction false} InsertOnce(problems: seq<Option<CreateError>>, hooks: seq<nat>)
    requires 0 < |problems| == |hooks|
    ensures Filter(Trace(problems, hooks, 0, 0), IsInsert())
         == if forall i :: 0 <= i < |problems| ==> problems[i].None? then [Insert] else []
  {
    hide Trace, Opening, Entered, FirstInvalid;
    var exits := Map(ExitOf(), Reverse(Entered(problems, hooks, 0, 0)));
    WellNested(problems, hooks, 0, 0);
    OpeningInserts(problems, hooks, 0, 0);
    FilterConcat(Opening(problems, hooks, 0, 0), exits, IsInsert());
    FilterNone(exits, IsInsert());
  }

  /** Whether every check passes can be told from the drafts before the save: if no default function is missing,
      it is that every builder has an accepted name, platform and type and acceptable texts. */
  lemma {:induction false} AllPassExactly(rt: Runtime, olds: seq<Draft>, ds: seq<Draft>, uses: seq<nat>)
    requires |olds| == |ds| == |uses|
    requires forall j :: 0 <= j < |ds| ==> ds[j] == Defaulted(rt, uses[j], olds[j], 0).0
    ensures FirstInvalid(Problems(rt, ds), 0) == |ds|
       <==> forall j :: 0 <= j < |ds| ==> Defaulted(rt, uses[j], olds[j], 0).1.None? && WillPass(rt, olds[j])
  {
    hide Defaulted, FirstComplaint, WillPass, FirstInvalid;
    var problems := Problems(rt, ds);
    forall j | 0 <= j < |ds|
      ensures problems[j].None? <==> Defaulted(rt, uses[j], olds[j], 0).1.None? && WillPass(rt, olds[j]) {
      if Defaulted(rt, uses[j], olds[j], 0).1.Some? {
        DefaultsErrorResurfaces(rt, uses[j], olds[j]);
      } else {
        ChecksAfterDefaults(rt, uses[j], olds[j]);
      }
    }
  }

  /** How a save ends: with the complaint about the first builder that has one, or with the error of the driver, told
      apart by its kind, or without an error. */
  lemma {:induction false} OutcomeExactly(problems: seq<Option<CreateError>>, answer: Answer)
    ensures forall i :: 0 <= i < |problems| && problems[i].Some? && (forall j :: 0 <= j < i ==> problems[j].None?) ==>
              Outcome(problems, 0, answer) == Some(Invalid(i, problems[i].value))
    ensures (forall i :: 0 <= i < |problems| ==> problems[i].None?) && answer.Err? ==>
              Outcome(problems, 0, answer)
              == Some(if answer.error.constraint then Constraint(answer.error) else Driver(answer.error))
    ensures (forall i :: 0 <= i < |problems| ==> problems[i].None?) && answer.Ok? ==>
              Outcome(problems, 0, answer) == None
  {
    hide FirstInvalid;
    var k := FirstInvalid(problems, 0);
    forall i | 0 <= i < |problems| && problems[i].Some? && (forall j :: 0 <= j < i ==> problems[j].None?)
      ensures i == k {
      assert k <= i;
    }
  }
}
